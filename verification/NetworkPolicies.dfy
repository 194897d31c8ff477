/** What the rule tables of `NetworkRules` do to traffic, for one container and
    for a whole fleet over any sequence of applies and removes. */
module NetworkPolicies {
  import opened Basics
  import opened NetworkRules

  // ---------------------------------------------------------------
  // One container
  // ---------------------------------------------------------------

  /** With the jump and chain in place, the policy decides first; what it does not
      drop goes on to the remaining rules of DOCKER-USER. */
  lemma {:induction false} PolicyInForce(t: Table, id: string, ip: string, policy: Policy, p: Packet, depth: nat)
    requires Enforces(t, id, ip, Compile(policy)) && p.source == ip && depth >= 1
    ensures Evaluate(t, t[DOCKER_USER], p, depth)
         == if Forbids(policy, p) then Dropped else Evaluate(t, t[DOCKER_USER][1..], p, depth)
  {
    ChainMeansPolicy(t, policy, p, depth - 1);
  }

  /** The verdict of the chain by the setting of internet access, which is on when the
      policy does not say: then only denied destinations are dropped; when it is off,
      everything is that is not allowed. */
  lemma {:induction false} VerdictBySetting(t: Table, allow: seq<string>, deny: seq<string>, p: Packet, depth: nat)
    ensures
      var listed := !p.established && !Under(allow, p) && Under(deny, p);
      var unlisted := !p.established && !Under(allow, p);
      && Evaluate(t, Compile(Policy(None, allow, deny)), p, depth) == (if listed then Dropped else Fallthrough)
      && Evaluate(t, Compile(Policy(Some(true), allow, deny)), p, depth) == (if listed then Dropped else Fallthrough)
      && Evaluate(t, Compile(Policy(Some(false), allow, deny)), p, depth) == (if unlisted then Dropped else Fallthrough)
  {
    ChainMeansPolicy(t, Policy(None, allow, deny), p, depth);
    ChainMeansPolicy(t, Policy(Some(true), allow, deny), p, depth);
    ChainMeansPolicy(t, Policy(Some(false), allow, deny), p, depth);
  }

  lemma {:induction false} LastPolicyWins(t: Table, valid: string -> bool, id: string, ip: string, first: Policy, second: Policy)
    requires DOCKER_USER in t
    requires valid(ip) || JumpRule(id, ip) !in t[DOCKER_USER]
    ensures Apply(Apply(t, valid, id, ip, first).0, valid, id, ip, second) == Apply(t, valid, id, ip, second)
  {
    var jump := JumpRule(id, ip);
    var d := t[DOCKER_USER];
    assert ([jump] + RemoveFirst(d, jump))[1..] == RemoveFirst(d, jump);
    assert Apply(Apply(t, valid, id, ip, first).0, valid, id, ip, second).0 == Apply(t, valid, id, ip, second).0;
  }

  /** Apply then remove, however far the apply got, restores the table exactly when
      it had no such jump and either no such chain, or an empty one that something
      else jumps to. */
  lemma {:induction false} RemoveUndoesApply(t: Table, valid: string -> bool, id: string, ip: string, policy: Policy)
    requires ChainName(id) in t || !Referenced(t, ChainName(id))
    ensures Remove(Apply(t, valid, id, ip, policy).0, id, ip) == t
      <==> (DOCKER_USER in t ==> JumpRule(id, ip) !in t[DOCKER_USER])
           && (ChainName(id) in t ==> t[ChainName(id)] == [] && Referenced(t, ChainName(id)))
  {
    if DOCKER_USER in t && valid(ip) {
      RemoveUndoesInstall(t, id, ip, Compile(policy)[..Taken(valid, Compile(policy))]);
    } else {
      RemoveUndoesFailure(t, id, ip);
    }
  }

  /** The same for an apply that failed before its jump was in place. */
  lemma {:induction false} RemoveUndoesFailure(t: Table, id: string, ip: string)
    requires ChainName(id) in t || !Referenced(t, ChainName(id))
    ensures Remove(Unhook(t[ChainName(id) := []], id, ip), id, ip) == t
      <==> (DOCKER_USER in t ==> JumpRule(id, ip) !in t[DOCKER_USER])
           && (ChainName(id) in t ==> t[ChainName(id)] == [] && Referenced(t, ChainName(id)))
  {
    var c, jump := ChainName(id), JumpRule(id, ip);
    var u := Unhook(Unhook(t[c := []], id, ip), id, ip);
    if DOCKER_USER in t && jump in t[DOCKER_USER] {
      assert |u[DOCKER_USER]| < |t[DOCKER_USER]|;
    } else {
      assert u == t[c := []];
      assert u[c := []] == t[c := []];
      FlushedThenDeleted(t, c);
    }
  }

  lemma {:induction false} FlushedThenDeleted(t: Table, c: string)
    requires c in t || !Referenced(t, c)
    ensures (if Referenced(t[c := []], c) then t[c := []] else t[c := []] - {c}) == t
      <==> (c in t ==> t[c] == [] && Referenced(t, c))
  {
    var f := t[c := []];
    if c !in t {
      assert forall k | k in f && k != c :: f[k] == t[k];
      assert !Referenced(f, c);
      assert f - {c} == t;
    } else if t[c] == [] {
      assert f == t;
    }
  }

  lemma {:induction false} RemoveUndoesInstall(t: Table, id: string, ip: string, rules: seq<Rule>)
    requires DOCKER_USER in t
    requires ChainName(id) in t || !Referenced(t, ChainName(id))
    ensures Remove(Install(t, id, ip, rules), id, ip) == t
      <==> JumpRule(id, ip) !in t[DOCKER_USER]
           && (ChainName(id) in t ==> t[ChainName(id)] == [] && Referenced(t, ChainName(id)))
  {
    var c, jump, d := ChainName(id), JumpRule(id, ip), t[DOCKER_USER];
    var u := Unhook(Install(t, id, ip, rules), id, ip);
    assert ([jump] + RemoveFirst(d, jump))[1..] == RemoveFirst(d, jump);
    assert u == t[c := rules][DOCKER_USER := RemoveFirst(d, jump)];
    if jump !in d {
      assert u[c := []] == t[c := []];
      assert u - {c} == t[c := []] - {c};
      FlushedThenDeleted(t, c);
    } else {
      assert u[DOCKER_USER] != d;
    }
  }

  /** The entries of the policy that are among the first `n` rules of its chain. */
  function InstalledAllows(policy: Policy, n: nat): seq<string>
  {
    if n <= 1 then [] else if n - 1 <= |policy.allowOut| then policy.allowOut[..n - 1] else policy.allowOut
  }

  function InstalledDenies(policy: Policy, n: nat): seq<string>
  {
    var a := 1 + |policy.allowOut|;
    if n <= a then [] else if n - a <= |policy.denyOut| then policy.denyOut[..n - a] else policy.denyOut
  }

  /** An unfinished chain is the established rule, some allows and, once all of
      those are in, some denies; it has no default. */
  lemma {:induction false} PartialChain(policy: Policy, n: nat)
    requires 1 <= n < |Compile(policy)|
    ensures Compile(policy)[..n]
         == [Rule(Established, Return)] + (DestRules(InstalledAllows(policy, n), Return) + DestRules(InstalledDenies(policy, n), Drop))
    ensures InstalledDenies(policy, n) != [] ==> InstalledAllows(policy, n) == policy.allowOut
  {
  }

  /** The exact verdict of an unfinished chain. */
  lemma {:induction false} PartialChainVerdict(t: Table, policy: Policy, n: nat, p: Packet, depth: nat)
    requires n < |Compile(policy)|
    ensures Evaluate(t, Compile(policy)[..n], p, depth)
         == if !p.established && !Under(InstalledAllows(policy, n), p) && Under(InstalledDenies(policy, n), p)
            then Dropped else Fallthrough
  {
    if n > 0 {
      var allows, denies := DestRules(InstalledAllows(policy, n), Return), DestRules(InstalledDenies(policy, n), Drop);
      PartialChain(policy, n);
      DestRulesMean(t, InstalledAllows(policy, n), Return, denies, p, depth);
      DestRulesMean(t, InstalledDenies(policy, n), Drop, [], p, depth);
      assert denies + [] == denies;
      assert ([Rule(Established, Return)] + (allows + denies))[1..] == allows + denies;
    }
  }

  /** An unfinished chain treats a packet as the policy says exactly when the policy
      does not forbid it or one of the installed denies covers it. */
  lemma {:induction false} PartialChainAgrees(t: Table, policy: Policy, n: nat, p: Packet, depth: nat)
    requires n < |Compile(policy)|
    ensures Evaluate(t, Compile(policy)[..n], p, depth) == (if Forbids(policy, p) then Dropped else Fallthrough)
      <==> (Forbids(policy, p) ==> Under(InstalledDenies(policy, n), p))
  {
    PartialChainVerdict(t, policy, n, p, depth);
    if n > 0 {
      PartialChain(policy, n);
    }
    if Under(InstalledDenies(policy, n), p) {
      var d :| d in InstalledDenies(policy, n) && d in p.dests;
      assert d in policy.denyOut;
    }
    if InstalledDenies(policy, n) == [] {
      assert !Under(InstalledDenies(policy, n), p);
    }
  }

  /** Applying succeeds exactly when DOCKER-USER exists, the container's address
      parses, and so does every entry of the policy. */
  lemma {:induction false} ApplySucceeds(t: Table, valid: string -> bool, id: string, ip: string, policy: Policy)
    ensures Apply(t, valid, id, ip, policy).1
      <==> DOCKER_USER in t && valid(ip) && (forall d | d in policy.allowOut :: valid(d)) && (forall d | d in policy.denyOut :: valid(d))
  {
    var rules := Compile(policy);
    if forall d | d in policy.allowOut :: valid(d) {
      if forall d | d in policy.denyOut :: valid(d) {
        AllEntriesParse(valid, policy);
      } else {
        var k :| 0 <= k < |policy.denyOut| && !valid(policy.denyOut[k]);
        assert rules[1 + |policy.allowOut| + k] == Rule(To(policy.denyOut[k]), Drop);
      }
    } else {
      var k :| 0 <= k < |policy.allowOut| && !valid(policy.allowOut[k]);
      assert rules[1 + k] == Rule(To(policy.allowOut[k]), Return);
    }
  }

  lemma {:induction false} AllEntriesParse(valid: string -> bool, policy: Policy)
    requires (forall d | d in policy.allowOut :: valid(d)) && (forall d | d in policy.denyOut :: valid(d))
    ensures Taken(valid, Compile(policy)) == |Compile(policy)|
  {
    var rules := Compile(policy);
    forall i | 0 <= i < |rules|
      ensures Parses(valid, rules[i])
    {
      EntryParses(valid, policy, i);
    }
    StopsOnce(valid, rules, Taken(valid, rules), |rules|);
  }

  lemma {:induction false} EntryParses(valid: string -> bool, policy: Policy, i: nat)
    requires (forall d | d in policy.allowOut :: valid(d)) && (forall d | d in policy.denyOut :: valid(d))
    requires i < |Compile(policy)|
    ensures Parses(valid, Compile(policy)[i])
  {
    var rules, a := Compile(policy), 1 + |policy.allowOut|;
    CompileParts(policy);
    if 1 <= i < a {
      assert rules[i] == rules[1..a][i - 1] == Rule(To(policy.allowOut[i - 1]), Return);
    } else if a <= i < |rules| - 1 {
      assert rules[i] == rules[a..|rules| - 1][i - a] == Rule(To(policy.denyOut[i - a]), Drop);
    }
  }

  /** A rejected allow entry loses the deny after it: a forbidden packet passes, even
      with internet access on. */
  lemma {:induction false} RejectedAllowLosesDeny(id: string)
    ensures
      var policy, valid := Policy(None, ["bad"], ["x"]), (s: string) => s != "bad";
      var p := Packet("ip", {"x"}, false);
      var r := Apply(map[DOCKER_USER := []], valid, id, "ip", policy);
      && !r.1 && ChainName(id) in r.0
      && Forbids(policy, p) && Evaluate(r.0, r.0[ChainName(id)], p, 0) == Fallthrough
  {
    var policy, valid := Policy(None, ["bad"], ["x"]), (s: string) => s != "bad";
    var rules := Compile(policy);
    assert rules[0] == Rule(Established, Return) && rules[1] == Rule(To("bad"), Return);
    StopsOnce(valid, rules, Taken(valid, rules), 1);
    assert rules[..1] == [Rule(Established, Return)];
    assert "x" in policy.denyOut && "x" in {"x"};
  }

  // ---------------------------------------------------------------
  // Everyone else
  // ---------------------------------------------------------------

  /** Only the container's own jump leads to its chain. */
  predicate OnlyByJump(rules: seq<Rule>, id: string, ip: string)
  {
    forall r | r in rules :: r.target == Jump(ChainName(id)) ==> r == JumpRule(id, ip)
  }

  ghost predicate Separate(t: Table, id: string, ip: string)
  {
    forall c | c in t && c != ChainName(id) :: OnlyByJump(t[c], id, ip)
  }

  lemma {:induction false} EraseUnmatched(t: Table, rules: seq<Rule>, r: Rule, p: Packet, depth: nat)
    requires !Matches(r.guard, p)
    ensures Evaluate(t, Erase(rules, r), p, depth) == Evaluate(t, rules, p, depth)
  {
    if rules != [] {
      EraseUnmatched(t, rules[1..], r, p, depth);
      if rules[0] != r {
        assert ([rules[0]] + Erase(rules[1..], r))[1..] == Erase(rules[1..], r);
      }
    }
  }

  /** Whatever an apply or remove of one container did to the table, complete,
      partial or failed, packets from other sources meet the same verdicts. */
  lemma {:induction false} OthersUnaffected(t: Table, u: Table, id: string, ip: string, rules: seq<Rule>, p: Packet, depth: nat)
    requires Related(t, u, id, ip) && Separate(t, id, ip) && OnlyByJump(rules, id, ip)
    requires p.source != ip
    ensures Evaluate(t, rules, p, depth) == Evaluate(u, rules, p, depth)
    decreases depth, |rules|
  {
    if rules != [] {
      OthersUnaffected(t, u, id, ip, rules[1..], p, depth);
      var r := rules[0];
      if Matches(r.guard, p) && r.target.Jump? && r.target.chain in t && depth > 0 {
        assert r in rules;
        OthersInChain(t, u, id, ip, r.target.chain, p, depth - 1);
      }
    }
  }

  lemma {:induction false} OthersInChain(t: Table, u: Table, id: string, ip: string, c: string, p: Packet, depth: nat)
    requires Related(t, u, id, ip) && Separate(t, id, ip)
    requires p.source != ip && c in t && c != ChainName(id)
    ensures c in u && Evaluate(t, t[c], p, depth) == Evaluate(u, u[c], p, depth)
    decreases depth, |t[c]| + 1
  {
    assert c in t.Keys + {ChainName(id)};
    if c == DOCKER_USER {
      var jump := JumpRule(id, ip);
      EraseUnmatched(t, t[c], jump, p, depth);
      EraseUnmatched(u, u[c], jump, p, depth);
      EraseShorter(t[c], jump);
      OthersUnaffected(t, u, id, ip, Erase(t[c], jump), p, depth);
    } else {
      OthersUnaffected(t, u, id, ip, t[c], p, depth);
    }
  }

  lemma {:induction false} EraseShorter(rules: seq<Rule>, r: Rule)
    ensures |Erase(rules, r)| <= |rules|
  {
    if rules != [] {
      EraseShorter(rules[1..], r);
    }
  }

  // ---------------------------------------------------------------
  // Two containers
  // ---------------------------------------------------------------

  function Prefix12(id: string): string
  {
    if |id| > 12 then id[..12] else id
  }

  lemma {:induction false} ChainNamesCollide(a: string, b: string)
    ensures ChainName(a) == ChainName(b) <==> Prefix12(a) == Prefix12(b)
  {
    assert ChainName(a)[|CHAIN_PREFIX|..] == Prefix12(a);
    assert ChainName(b)[|CHAIN_PREFIX|..] == Prefix12(b);
  }

  /** A long id is cut to 12 characters, a short one is kept. */
  lemma {:induction false} ChainNameExamples()
    ensures ChainName("abcdef123456789") == "INDEXIFY-SB-abcdef123456"
    ensures ChainName("short") == "INDEXIFY-SB-short"
    ensures ChainName("exactly12ch") == "INDEXIFY-SB-exactly12ch"
  {
    assert "abcdef123456789"[..12] == "abcdef123456";
  }

  /** After policies for `a` and then `b`, traffic of `a` obeys its own policy
      exactly when the ids differ within 12 characters; otherwise that of `b`. */
  lemma {:induction false} TwoContainers(t: Table, a: string, ipA: string, policyA: Policy, b: string, ipB: string, policyB: Policy, p: Packet, depth: nat)
    requires DOCKER_USER in t && ipA != ipB && p.source == ipA && depth >= 1
    ensures
      var u := Install(Install(t, a, ipA, Compile(policyA)), b, ipB, Compile(policyB));
      var ruling := if Prefix12(a) == Prefix12(b) then policyB else policyA;
      |u[DOCKER_USER]| >= 2 && Evaluate(u, u[DOCKER_USER], p, depth)
        == if Forbids(ruling, p) then Dropped else Evaluate(u, u[DOCKER_USER][2..], p, depth)
  {
    ChainNamesCollide(a, b);
    var u := Install(Install(t, a, ipA, Compile(policyA)), b, ipB, Compile(policyB));
    ChainMeansPolicy(u, if Prefix12(a) == Prefix12(b) then policyB else policyA, p, depth - 1);
    var d := u[DOCKER_USER];
    assert JumpRule(a, ipA) != JumpRule(b, ipB);
    assert d[0] == JumpRule(b, ipB) && d[1] == JumpRule(a, ipA);
    assert d[1..][1..] == d[2..];
  }
}
