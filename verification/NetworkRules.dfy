/** Per-container network policy, compiled into an iptables chain that
    DOCKER-USER jumps to for the container's source address. */
module NetworkRules {
  import opened Basics

  const DOCKER_USER: string := "DOCKER-USER"
  const CHAIN_PREFIX: string := "INDEXIFY-SB-"

  /** `allow_internet_access` is optional and defaults to true. */
  datatype Policy = Policy(allowInternet: Option<bool>, allowOut: seq<string>, denyOut: seq<string>)

  predicate AllowsInternet(p: Policy)
  {
    p.allowInternet.None? || p.allowInternet.value
  }

  // ---------------------------------------------------------------
  // The rule table
  // ---------------------------------------------------------------

  datatype Match = Any | Established | From(ip: string) | To(dest: string)

  datatype Target = Return | Accept | Drop | Jump(chain: string)

  datatype Rule = Rule(guard: Match, target: Target)

  type Table = map<string, seq<Rule>>

  /** A packet: its source, the destination specifications it falls under, and
      whether it belongs to an established connection. */
  datatype Packet = Packet(source: string, dests: set<string>, established: bool)

  datatype Verdict = Fallthrough | Accepted | Dropped

  predicate Matches(m: Match, p: Packet)
  {
    match m
    case Any => true
    case Established => p.established
    case From(ip) => p.source == ip
    case To(dest) => dest in p.dests
  }

  /** First-match traversal of a chain. A jumped-to chain that falls through
      resumes at the next rule; `depth` bounds the nesting of jumps. */
  function Evaluate(t: Table, rules: seq<Rule>, p: Packet, depth: nat): Verdict
    decreases depth, |rules|
  {
    if rules == [] then Fallthrough
    else if !Matches(rules[0].guard, p) then Evaluate(t, rules[1..], p, depth)
    else match rules[0].target
      case Return => Fallthrough
      case Accept => Accepted
      case Drop => Dropped
      case Jump(c) =>
        var inner := if c in t && depth > 0 then Evaluate(t, t[c], p, depth - 1) else Fallthrough;
        if inner == Fallthrough then Evaluate(t, rules[1..], p, depth) else inner
  }

  /** Some chain of the table jumps to `c`. */
  ghost predicate Referenced(t: Table, c: string)
  {
    exists k | k in t :: Mentions(t[k], c)
  }

  predicate Mentions(rules: seq<Rule>, c: string)
  {
    exists i | 0 <= i < |rules| :: rules[i].target == Jump(c)
  }

  function RemoveFirst(rules: seq<Rule>, r: Rule): (rest: seq<Rule>)
    ensures r !in rules ==> rest == rules
    ensures r in rules ==> |rest| == |rules| - 1
  {
    if rules == [] then []
    else if rules[0] == r then rules[1..]
    else [rules[0]] + RemoveFirst(rules[1..], r)
  }

  // ---------------------------------------------------------------
  // Compilation
  // ---------------------------------------------------------------

  /** At most 12 characters of the container id. */
  function ChainName(containerId: string): (name: string)
    ensures name != DOCKER_USER
  {
    var name := CHAIN_PREFIX + if |containerId| > 12 then containerId[..12] else containerId;
    assert name[0] == 'I';
    name
  }

  function JumpRule(containerId: string, ip: string): Rule
  {
    Rule(From(ip), Jump(ChainName(containerId)))
  }

  function DestRules(dests: seq<string>, target: Target): (rules: seq<Rule>)
    ensures |rules| == |dests|
    ensures forall i | 0 <= i < |dests| :: rules[i] == Rule(To(dests[i]), target)
  {
    seq(|dests|, i requires 0 <= i < |dests| => Rule(To(dests[i]), target))
  }

  function Compile(p: Policy): seq<Rule>
  {
    [Rule(Established, Return)]
    + DestRules(p.allowOut, Return)
    + DestRules(p.denyOut, Drop)
    + [Rule(Any, if AllowsInternet(p) then Return else Drop)]
  }

  predicate Under(dests: seq<string>, p: Packet)
  {
    exists d | d in dests :: d in p.dests
  }

  /** The meaning of a policy: established traffic and allowed destinations pass;
      the rest is dropped when denied or when there is no internet access. */
  predicate Forbids(policy: Policy, p: Packet)
  {
    !p.established && !Under(policy.allowOut, p) && (Under(policy.denyOut, p) || !AllowsInternet(policy))
  }

  lemma {:induction false} DestRulesMean(t: Table, dests: seq<string>, target: Target, rest: seq<Rule>, p: Packet, depth: nat)
    requires target.Return? || target.Drop?
    ensures Evaluate(t, DestRules(dests, target) + rest, p, depth)
         == if Under(dests, p) then (if target.Drop? then Dropped else Fallthrough) else Evaluate(t, rest, p, depth)
  {
    if dests == [] {
      assert DestRules(dests, target) + rest == rest;
    } else {
      DestRulesMean(t, dests[1..], target, rest, p, depth);
      assert (DestRules(dests, target) + rest)[1..] == DestRules(dests[1..], target) + rest;
      assert Under(dests, p) == (dests[0] in p.dests || Under(dests[1..], p)) by {
        assert dests == [dests[0]] + dests[1..];
      }
    }
  }

  /** The compiled chain means the policy, for every policy and every packet, and
      whatever the rest of the table holds. */
  lemma {:induction false} ChainMeansPolicy(t: Table, policy: Policy, p: Packet, depth: nat)
    ensures Evaluate(t, Compile(policy), p, depth) == if Forbids(policy, p) then Dropped else Fallthrough
  {
    var last := [Rule(Any, if AllowsInternet(policy) then Return else Drop)];
    var deny := DestRules(policy.denyOut, Drop) + last;
    var allow := DestRules(policy.allowOut, Return) + deny;
    assert Compile(policy) == [Rule(Established, Return)] + allow;
    assert Compile(policy)[1..] == allow;
    DestRulesMean(t, policy.allowOut, Return, deny, p, depth);
    DestRulesMean(t, policy.denyOut, Drop, last, p, depth);
  }

  // ---------------------------------------------------------------
  // Effect of apply and remove on the table
  // ---------------------------------------------------------------

  /** iptables accepts a rule only when it can parse its address. */
  predicate Parses(valid: string -> bool, r: Rule)
  {
    match r.guard
    case From(ip) => valid(ip)
    case To(dest) => valid(dest)
    case _ => true
  }

  predicate AllParse(valid: string -> bool, rules: seq<Rule>, n: nat)
    requires n <= |rules|
  {
    forall i | 0 <= i < n :: Parses(valid, rules[i])
  }

  /** `n` rules are appended before the first one that iptables rejects. */
  predicate StopsAt(valid: string -> bool, rules: seq<Rule>, n: nat)
  {
    && n <= |rules|
    && AllParse(valid, rules, n)
    && (n < |rules| ==> !Parses(valid, rules[n]))
  }

  function Taken(valid: string -> bool, rules: seq<Rule>, from: nat := 0): (n: nat)
    requires from <= |rules| && AllParse(valid, rules, from)
    ensures StopsAt(valid, rules, n)
    decreases |rules| - from
  {
    if from == |rules| || !Parses(valid, rules[from]) then from else Taken(valid, rules, from + 1)
  }

  function Install(t: Table, id: string, ip: string, rules: seq<Rule>): Table
    requires DOCKER_USER in t
  {
    t[ChainName(id) := rules][DOCKER_USER := [JumpRule(id, ip)] + RemoveFirst(t[DOCKER_USER], JumpRule(id, ip))]
  }

  function Apply(t: Table, valid: string -> bool, id: string, ip: string, policy: Policy): (Table, bool)
  {
    if DOCKER_USER !in t || !valid(ip) then (Unhook(t[ChainName(id) := []], id, ip), false)
    else
      var rules := Compile(policy);
      var n := Taken(valid, rules);
      (Install(t, id, ip, rules[..n]), n == |rules|)
  }

  function Unhook(t: Table, id: string, ip: string): Table
  {
    if DOCKER_USER in t then t[DOCKER_USER := RemoveFirst(t[DOCKER_USER], JumpRule(id, ip))] else t
  }

  /** The chain is deleted unless another rule still jumps to it. */
  ghost function Remove(t: Table, id: string, ip: string): Table
  {
    var u := Unhook(t, id, ip);
    var c := ChainName(id);
    if c !in u then u else if Referenced(u[c := []], c) then u[c := []] else u - {c}
  }

  function Erase(rules: seq<Rule>, r: Rule): (rest: seq<Rule>)
    ensures forall x | x in rest :: x in rules && x != r
  {
    if rules == [] then []
    else if rules[0] == r then Erase(rules[1..], r)
    else [rules[0]] + Erase(rules[1..], r)
  }

  lemma {:induction false} EraseRemoved(rules: seq<Rule>, r: Rule)
    ensures Erase(RemoveFirst(rules, r), r) == Erase(rules, r)
    ensures Erase([r] + rules, r) == Erase(rules, r)
  {
    assert ([r] + rules)[1..] == rules;
    if rules != [] && rules[0] != r {
      EraseRemoved(rules[1..], r);
      assert ([rules[0]] + RemoveFirst(rules[1..], r))[1..] == RemoveFirst(rules[1..], r);
    }
  }

  /** The tables differ at most in the container's chain and in copies of its jump. */
  predicate Related(t: Table, u: Table, id: string, ip: string)
  {
    && t.Keys + {ChainName(id)} == u.Keys + {ChainName(id)}
    && (forall c | c in t && c != ChainName(id) && c != DOCKER_USER :: u[c] == t[c])
    && (DOCKER_USER in t ==> Erase(t[DOCKER_USER], JumpRule(id, ip)) == Erase(u[DOCKER_USER], JumpRule(id, ip)))
  }

  // ---------------------------------------------------------------
  // The command sequence
  // ---------------------------------------------------------------

  /** The kernel's table behind the `iptables` command. A call whose ordinal is in
      `faults` fails without effect, whatever its arguments. */
  class Iptables {
    var chains: Table
    var calls: nat
    const valid: string -> bool
    const faults: set<nat>

    constructor (chains: Table, valid: string -> bool, faults: set<nat>)
      ensures this.chains == chains && this.calls == 0 && this.valid == valid && this.faults == faults
    {
      this.chains, this.calls, this.valid, this.faults := chains, 0, valid, faults;
    }

    /** `-N`: refused when the chain exists. */
    method NewChain(c: string) returns (ok: bool)
      modifies this
      ensures ok ==> c !in old(chains) && chains == old(chains)[c := []]
      ensures !ok ==> chains == old(chains)
      ensures faults == {} ==> ok == (c !in old(chains))
    {
      ok := calls !in faults && c !in chains;
      calls := calls + 1;
      if ok {
        chains := chains[c := []];
      }
    }

    /** `-F`: refused when the chain is missing. */
    method Flush(c: string) returns (ok: bool)
      modifies this
      ensures ok ==> c in old(chains) && chains == old(chains)[c := []]
      ensures !ok ==> chains == old(chains)
      ensures faults == {} ==> ok == (c in old(chains))
    {
      ok := calls !in faults && c in chains;
      calls := calls + 1;
      if ok {
        chains := chains[c := []];
      }
    }

    /** `-D`: removes the first equal rule, refused when there is none. */
    method Delete(c: string, r: Rule) returns (ok: bool)
      modifies this
      ensures ok ==> c in old(chains) && r in old(chains)[c] && chains == old(chains)[c := RemoveFirst(old(chains)[c], r)]
      ensures !ok ==> chains == old(chains)
      ensures faults == {} ==> ok == (c in old(chains) && r in old(chains)[c])
    {
      ok := calls !in faults && c in chains && r in chains[c];
      calls := calls + 1;
      if ok {
        chains := chains[c := RemoveFirst(chains[c], r)];
      }
    }

    /** `-I`: prepends; refused when the chain or the jump target is missing. */
    method Insert(c: string, r: Rule) returns (ok: bool)
      modifies this
      ensures ok ==> c in old(chains) && chains == old(chains)[c := [r] + old(chains)[c]]
      ensures !ok ==> chains == old(chains)
      ensures faults == {} ==> ok == (c in old(chains) && Parses(valid, r) && (r.target.Jump? ==> r.target.chain in old(chains)))
    {
      ok := calls !in faults && c in chains && Parses(valid, r) && (r.target.Jump? ==> r.target.chain in chains);
      calls := calls + 1;
      if ok {
        chains := chains[c := [r] + chains[c]];
      }
    }

    /** `-A` of a rule that does not jump. */
    method Append(c: string, r: Rule) returns (ok: bool)
      requires !r.target.Jump?
      modifies this
      ensures ok ==> c in old(chains) && chains == old(chains)[c := old(chains)[c] + [r]]
      ensures !ok ==> chains == old(chains)
      ensures faults == {} ==> ok == (c in old(chains) && Parses(valid, r))
    {
      ok := calls !in faults && c in chains && Parses(valid, r);
      calls := calls + 1;
      if ok {
        chains := chains[c := chains[c] + [r]];
      }
    }

    /** `-X`: refused unless the chain is empty and nothing jumps to it. */
    method DeleteChain(c: string) returns (ok: bool)
      modifies this
      ensures ok ==> c in old(chains) && old(chains)[c] == [] && !Referenced(old(chains), c) && chains == old(chains) - {c}
      ensures !ok ==> chains == old(chains)
      ensures faults == {} ==> ok == (c in old(chains) && old(chains)[c] == [] && !Referenced(old(chains), c))
    {
      ok := calls !in faults && c in chains && chains[c] == [] && !(exists k | k in chains :: Mentions(chains[k], c));
      calls := calls + 1;
      if ok {
        chains := chains - {c};
      }
    }

    /** `n` rules of the intended chain `rules` are in place. */
    ghost predicate Filled(c: string, rules: seq<Rule>, n: nat, before: Table)
      reads this
    {
      && n <= |rules|
      && chains == before[c := rules[..n]]
      && (faults == {} ==> AllParse(valid, rules, n))
    }

    method AppendNext(c: string, r: Rule, ghost rules: seq<Rule>, ghost n: nat, ghost before: Table) returns (ok: bool)
      requires n < |rules| && r == rules[n] && !r.target.Jump? && Filled(c, rules, n, before)
      modifies this
      ensures Filled(c, rules, if ok then n + 1 else n, before)
      ensures faults == {} && !ok ==> !Parses(valid, r)
    {
      assert rules[..n + 1] == rules[..n] + [r];
      ok := Append(c, r);
    }

    /** One `-A` per destination, stopping at the first failure. */
    method AppendAll(c: string, dests: seq<string>, target: Target,
                     ghost rules: seq<Rule>, ghost from: nat, ghost before: Table)
      returns (ok: bool, ghost n: nat)
      requires !target.Jump? && Filled(c, rules, from, before)
      requires from + |dests| < |rules| && rules[from..from + |dests|] == DestRules(dests, target)
      modifies this
      ensures Filled(c, rules, n, before)
      ensures if ok then n == from + |dests| else n < from + |dests|
      ensures faults == {} && !ok ==> !Parses(valid, rules[n])
    {
      var i := 0;
      while i < |dests|
        invariant 0 <= i <= |dests|
        invariant Filled(c, rules, from + i, before)
      {
        assert rules[from + i] == DestRules(dests, target)[i];
        ok := AppendNext(c, Rule(To(dests[i]), target), rules, from + i, before);
        n := from + i;
        if !ok {
          return;
        }
        i := i + 1;
      }
      ok, n := true, from + |dests|;
    }

    method ResetChain(c: string) returns (ok: bool)
      modifies this
      ensures ok ==> chains == old(chains)[c := []]
      ensures !ok ==> chains == old(chains) || (c !in old(chains) && chains == old(chains)[c := []])
      ensures faults == {} ==> ok
    {
      var _ := NewChain(c);
      ok := Flush(c);
    }

    /** Create or flush the chain and hook it in front of DOCKER-USER. */
    method OpenChain(id: string, ip: string) returns (ok: bool)
      modifies this
      ensures ok ==> Opened(old(chains), chains, id, ip)
      ensures !ok ==> Related(old(chains), chains, id, ip)
      ensures !ok && ChainName(id) in chains ==> chains[ChainName(id)] == [] || (ChainName(id) in old(chains) && chains == old(chains))
      ensures faults == {} ==> ok == (DOCKER_USER in old(chains) && valid(ip))
      ensures faults == {} && ok ==> chains == Install(old(chains), id, ip, [])
      ensures faults == {} && !ok ==> chains == Unhook(old(chains)[ChainName(id) := []], id, ip)
    {
      ok := ResetChain(ChainName(id));
      if ok {
        ok := Hook(id, ip);
      }
    }

    method Hook(id: string, ip: string) returns (ok: bool)
      requires ChainName(id) in chains && chains[ChainName(id)] == []
      modifies this
      ensures ok ==> Opened(old(chains), chains, id, ip)
      ensures Related(old(chains), chains, id, ip)
      ensures ChainName(id) in chains && chains[ChainName(id)] == []
      ensures faults == {} ==> ok == (DOCKER_USER in old(chains) && valid(ip))
      ensures faults == {} && ok ==> chains == Install(old(chains), id, ip, [])
      ensures faults == {} && !ok ==> chains == Unhook(old(chains), id, ip)
    {
      if DOCKER_USER in chains {
        EraseRemoved(chains[DOCKER_USER], JumpRule(id, ip));
        EraseRemoved(RemoveFirst(chains[DOCKER_USER], JumpRule(id, ip)), JumpRule(id, ip));
      }
      DeleteJump(id, ip);
      ok := Insert(DOCKER_USER, JumpRule(id, ip));
    }

    /** The rules of the chain, in the order of `apply_rules`. */
    method FillChain(c: string, policy: Policy) returns (ok: bool, ghost n: nat)
      requires c in chains && chains[c] == []
      modifies this
      ensures n <= |Compile(policy)| && ok == (n == |Compile(policy)|)
      ensures chains == old(chains)[c := Compile(policy)[..n]]
      ensures faults == {} ==> StopsAt(valid, Compile(policy), n)
    {
      ghost var rules, before, a := Compile(policy), chains, 1 + |policy.allowOut|;
      CompileParts(policy);
      assert chains == before[c := rules[..0]];
      n := 0;
      ok := AppendNext(c, Rule(Established, Return), rules, 0, before);
      if !ok {
        return;
      }
      ok, n := AppendAll(c, policy.allowOut, Return, rules, 1, before);
      if !ok {
        return;
      }
      ok, n := AppendAll(c, policy.denyOut, Drop, rules, a, before);
      if !ok {
        return;
      }
      ok := AppendNext(c, Rule(Any, if AllowsInternet(policy) then Return else Drop), rules, n, before);
      if ok {
        n := n + 1;
      }
    }

    /** Whatever commands fail, success means the policy is in force. */
    method ApplyRules(id: string, ip: string, policy: Policy) returns (ok: bool)
      modifies this
      ensures Related(old(chains), chains, id, ip)
      ensures ok ==> Enforces(chains, id, ip, Compile(policy))
      ensures ChainName(id) in chains ==>
                chains[ChainName(id)] <= Compile(policy) || (ChainName(id) in old(chains) && chains == old(chains))
      ensures faults == {} ==> (chains, ok) == Apply(old(chains), valid, id, ip, policy)
    {
      ok := OpenChain(id, ip);
      if !ok {
        return;
      }
      ghost var n;
      ok, n := FillChain(ChainName(id), policy);
      if faults == {} {
        StopsOnce(valid, Compile(policy), n, Taken(valid, Compile(policy)));
        assert chains == Install(old(chains), id, ip, Compile(policy)[..n]);
      }
    }

    method DeleteJump(id: string, ip: string)
      modifies this
      ensures chains == old(chains) || chains == Unhook(old(chains), id, ip)
      ensures faults == {} ==> chains == Unhook(old(chains), id, ip)
    {
      var _ := Delete(DOCKER_USER, JumpRule(id, ip));
    }

    /** Failures are logged and ignored, so the later commands always run. */
    method RemoveRules(id: string, ip: string)
      modifies this
      ensures Related(old(chains), chains, id, ip)
      ensures faults == {} ==> chains == Remove(old(chains), id, ip)
    {
      UnhookRelates(chains, id, ip);
      DeleteJump(id, ip);
      var chain := ChainName(id);
      var _ := Flush(chain);
      var _ := DeleteChain(chain);
    }
  }

  lemma {:induction false} UnhookRelates(t: Table, id: string, ip: string)
    ensures Related(t, Unhook(t, id, ip), id, ip)
  {
    if DOCKER_USER in t {
      EraseRemoved(t[DOCKER_USER], JumpRule(id, ip));
    }
  }

  /** Where the established rule, the allows and the denies sit in the chain. */
  lemma {:induction false} CompileParts(policy: Policy)
    ensures
      var rules, a, d := Compile(policy), 1 + |policy.allowOut|, 1 + |policy.allowOut| + |policy.denyOut|;
      && |rules| == d + 1
      && rules[0] == Rule(Established, Return)
      && rules[1..a] == DestRules(policy.allowOut, Return)
      && rules[a..d] == DestRules(policy.denyOut, Drop)
      && rules[d] == Rule(Any, if AllowsInternet(policy) then Return else Drop)
  {
  }

  lemma {:induction false} StopsOnce(valid: string -> bool, rules: seq<Rule>, m: nat, n: nat)
    requires StopsAt(valid, rules, m) && StopsAt(valid, rules, n)
    ensures m == n
  {
  }

  /** The chain holds `rules` and DOCKER-USER starts with the container's jump. */
  predicate Enforces(t: Table, id: string, ip: string, rules: seq<Rule>)
  {
    && ChainName(id) in t && t[ChainName(id)] == rules
    && DOCKER_USER in t && t[DOCKER_USER] != [] && t[DOCKER_USER][0] == JumpRule(id, ip)
  }

  /** An empty chain behind a jump at the head of DOCKER-USER; at most one older
      copy of the jump is gone. */
  predicate Opened(t: Table, u: Table, id: string, ip: string)
  {
    && Related(t, u, id, ip)
    && DOCKER_USER in t && DOCKER_USER in u && ChainName(id) in u
    && u[ChainName(id)] == []
    && (u[DOCKER_USER] == [JumpRule(id, ip)] + t[DOCKER_USER]
        || u[DOCKER_USER] == [JumpRule(id, ip)] + RemoveFirst(t[DOCKER_USER], JumpRule(id, ip)))
  }
}
