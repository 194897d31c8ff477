/** Any sequence of policy applies and removes over a fleet of containers. */
module NetworkFleet {
  import opened Basics
  import opened NetworkRules
  import opened NetworkPolicies

  datatype Op = Set(id: string, policy: Policy) | Unset(id: string)

  /** The host: container addresses and what iptables can parse. */
  datatype Host = Host(ids: set<string>, ip: string -> string, valid: string -> bool)

  predicate DistinctHost(h: Host)
  {
    && (forall a, b | a in h.ids && b in h.ids && a != b :: Prefix12(a) != Prefix12(b) && h.ip(a) != h.ip(b))
    && (forall a | a in h.ids :: h.valid(h.ip(a)))
  }

  /** A table without chains, or references to chains, of the host's containers. */
  ghost predicate CleanTable(h: Host, t: Table)
  {
    && DOCKER_USER in t
    && forall a | a in h.ids :: ChainName(a) !in t && !Referenced(t, ChainName(a))
  }

  predicate OverHost(h: Host, ops: seq<Op>)
  {
    forall i | 0 <= i < |ops| :: ops[i].id in h.ids && (ops[i].Set? ==> Parseable(h, ops[i].policy))
  }

  predicate Parseable(h: Host, policy: Policy)
  {
    (forall d | d in policy.allowOut :: h.valid(d)) && forall d | d in policy.denyOut :: h.valid(d)
  }

  ghost function Perform(h: Host, t: Table, op: Op): Table
  {
    match op
    case Set(id, policy) => Apply(t, h.valid, id, h.ip(id), policy).0
    case Unset(id) => Remove(t, id, h.ip(id))
  }

  ghost function Run(h: Host, t: Table, ops: seq<Op>): Table
  {
    if ops == [] then t else Perform(h, Run(h, t, ops[..|ops| - 1]), ops[|ops| - 1])
  }

  /** The policy of the container's most recent operation. */
  function LastPolicy(ops: seq<Op>, id: string): Option<Policy>
  {
    if ops == [] then None
    else
      var op := ops[|ops| - 1];
      if op.id != id then LastPolicy(ops[..|ops| - 1], id) else if op.Set? then Some(op.policy) else None
  }

  // ---------------------------------------------------------------
  // The table as an overlay of the active policies
  // ---------------------------------------------------------------

  datatype Entry = Entry(id: string, policy: Policy)

  function Without(order: seq<Entry>, id: string): seq<Entry>
  {
    if order == [] then []
    else if order[0].id == id then Without(order[1..], id)
    else [order[0]] + Without(order[1..], id)
  }

  /** Active policies, most recently applied first. */
  function Active(ops: seq<Op>): seq<Entry>
  {
    if ops == [] then []
    else
      var op := ops[|ops| - 1];
      var others := Without(Active(ops[..|ops| - 1]), op.id);
      if op.Set? then [Entry(op.id, op.policy)] + others else others
  }

  /** A container's chain and jump on top of a table. */
  function Stack(t: Table, id: string, ip: string, rules: seq<Rule>): Table
    requires DOCKER_USER in t
  {
    t[ChainName(id) := rules][DOCKER_USER := [JumpRule(id, ip)] + t[DOCKER_USER]]
  }

  function Overlay(h: Host, t: Table, order: seq<Entry>): (u: Table)
    requires DOCKER_USER in t
    ensures DOCKER_USER in u
  {
    if order == [] then t
    else
      var e, u := order[0], Overlay(h, t, order[1..]);
      Stack(u, e.id, h.ip(e.id), Compile(e.policy))
  }

  predicate Lacks(order: seq<Entry>, id: string)
  {
    forall e | e in order :: e.id != id
  }

  predicate Listed(h: Host, order: seq<Entry>)
  {
    order == [] || (order[0].id in h.ids && Lacks(order[1..], order[0].id) && Listed(h, order[1..]))
  }

  lemma {:induction false} WithoutLists(h: Host, order: seq<Entry>, id: string)
    requires Listed(h, order)
    ensures Listed(h, Without(order, id)) && Lacks(Without(order, id), id)
    ensures forall e :: e in Without(order, id) <==> e in order && e.id != id
    ensures Lacks(order, id) ==> Without(order, id) == order
  {
    if order != [] {
      WithoutLists(h, order[1..], id);
      assert ([order[0]] + Without(order[1..], id))[1..] == Without(order[1..], id);
    }
  }

  lemma {:induction false} ActiveLists(h: Host, ops: seq<Op>)
    requires OverHost(h, ops)
    ensures Listed(h, Active(ops))
  {
    if ops != [] {
      var op, before := ops[|ops| - 1], Active(ops[..|ops| - 1]);
      ActiveLists(h, ops[..|ops| - 1]);
      WithoutLists(h, before, op.id);
      if op.Set? {
        assert ([Entry(op.id, op.policy)] + Without(before, op.id))[1..] == Without(before, op.id);
      }
    }
  }

  /** A container without an active policy leaves no trace in the overlay. */
  lemma {:induction false} NoTrace(h: Host, t: Table, order: seq<Entry>, id: string)
    requires DistinctHost(h) && CleanTable(h, t) && Listed(h, order) && Lacks(order, id) && id in h.ids
    ensures var u := Overlay(h, t, order); ChainName(id) !in u && !Referenced(u, ChainName(id))
    ensures JumpRule(id, h.ip(id)) !in Overlay(h, t, order)[DOCKER_USER]
  {
    var c := ChainName(id);
    var u := Overlay(h, t, order);
    if order != [] {
      var e := order[0];
      NoTrace(h, t, order[1..], id);
      ChainNamesCollide(e.id, id);
      CompiledJumpsNowhere(e.policy, c);
      var v := Overlay(h, t, order[1..]);
      forall k | k in u
        ensures !Mentions(u[k], c)
      {
        if k == DOCKER_USER {
          MentionsCons(JumpRule(e.id, h.ip(e.id)), v[k], c);
        }
      }
    }
    Unmentioned(u[DOCKER_USER], JumpRule(id, h.ip(id)));
  }

  lemma {:induction false} Unmentioned(rules: seq<Rule>, r: Rule)
    requires r.target.Jump? && !Mentions(rules, r.target.chain)
    ensures r !in rules
  {
  }

  lemma {:induction false} MentionsCons(r: Rule, rules: seq<Rule>, c: string)
    ensures Mentions([r] + rules, c) <==> r.target == Jump(c) || Mentions(rules, c)
  {
    var all := [r] + rules;
    assert all[0] == r;
    if i :| 0 <= i < |rules| && rules[i].target == Jump(c) {
      assert all[i + 1] == rules[i];
    }
  }

  lemma {:induction false} CompiledJumpsNowhere(policy: Policy, c: string)
    ensures !Mentions(Compile(policy), c)
  {
  }

  /** Unhooking a container and dropping its chain is the overlay of the others. */
  lemma {:induction false} Peel(h: Host, t: Table, order: seq<Entry>, id: string)
    requires DistinctHost(h) && CleanTable(h, t) && Listed(h, order) && id in h.ids
    ensures Unhook(Overlay(h, t, order), id, h.ip(id)) - {ChainName(id)} == Overlay(h, t, Without(order, id))
  {
    if Lacks(order, id) {
      WithoutLists(h, order, id);
      NoTrace(h, t, order, id);
    } else {
      var e, rest := order[0], order[1..];
      var v := Overlay(h, t, rest);
      if e.id == id {
        WithoutLists(h, rest, id);
        NoTrace(h, t, rest, id);
        StackedOwn(v, id, h.ip(id), Compile(e.policy));
      } else {
        Peel(h, t, rest, id);
        ChainNamesCollide(e.id, id);
        OverlayCons(h, t, e, Without(rest, id));
        StackedUnhook(v, Overlay(h, t, Without(rest, id)), e.id, h.ip(e.id), Compile(e.policy), id, h.ip(id));
      }
    }
  }

  lemma {:induction false} OverlayCons(h: Host, t: Table, e: Entry, rest: seq<Entry>)
    requires DOCKER_USER in t
    ensures Overlay(h, t, [e] + rest) == Stack(Overlay(h, t, rest), e.id, h.ip(e.id), Compile(e.policy))
  {
    assert ([e] + rest)[1..] == rest;
  }

  lemma {:induction false} StackedOwn(v: Table, id: string, ip: string, rules: seq<Rule>)
    requires DOCKER_USER in v && ChainName(id) !in v
    ensures Unhook(Stack(v, id, ip, rules), id, ip) - {ChainName(id)} == v
  {
    assert ([JumpRule(id, ip)] + v[DOCKER_USER])[1..] == v[DOCKER_USER];
  }

  lemma {:induction false} StackedUnhook(v: Table, w: Table, other: string, otherIp: string, rules: seq<Rule>, id: string, ip: string)
    requires DOCKER_USER in v && ChainName(other) != ChainName(id)
    requires w == Unhook(v, id, ip) - {ChainName(id)}
    ensures Unhook(Stack(v, other, otherIp, rules), id, ip) - {ChainName(id)} == Stack(w, other, otherIp, rules)
  {
    var hook, d := JumpRule(other, otherIp), v[DOCKER_USER];
    assert ([hook] + d)[1..] == d;
  }

  /** One operation turns the overlay of the active policies into the next one. */
  lemma {:induction false} PerformOverlays(h: Host, t: Table, order: seq<Entry>, op: Op)
    requires DistinctHost(h) && CleanTable(h, t) && Listed(h, order) && OverHost(h, [op])
    ensures Perform(h, Overlay(h, t, order), op)
         == Overlay(h, t, (if op.Set? then [Entry(op.id, op.policy)] else []) + Without(order, op.id))
  {
    var u, others := Overlay(h, t, order), Without(order, op.id);
    var w, c := Overlay(h, t, others), ChainName(op.id);
    assert [op][0] == op;
    Peel(h, t, order, op.id);
    WithoutLists(h, order, op.id);
    NoTrace(h, t, others, op.id);
    if op.Set? {
      AllEntriesParse(h.valid, op.policy);
      InstallIsStack(u, op.id, h.ip(op.id), w, Compile(op.policy));
      assert ([Entry(op.id, op.policy)] + others)[1..] == others;
    } else {
      assert [] + others == others;
      RemoveIsDrop(u, op.id, h.ip(op.id), w);
    }
  }

  lemma {:induction false} InstallIsStack(u: Table, id: string, ip: string, w: Table, rules: seq<Rule>)
    requires DOCKER_USER in u && w == Unhook(u, id, ip) - {ChainName(id)}
    ensures Install(u, id, ip, rules[..|rules|]) == Stack(w, id, ip, rules)
  {
    assert rules[..|rules|] == rules;
  }

  lemma {:induction false} RemoveIsDrop(u: Table, id: string, ip: string, w: Table)
    requires w == Unhook(u, id, ip) - {ChainName(id)} && !Referenced(w, ChainName(id))
    ensures Remove(u, id, ip) == w
  {
    var c, v := ChainName(id), Unhook(u, id, ip);
    if c in v {
      var flushed := v[c := []];
      forall k | k in flushed
        ensures !Mentions(flushed[k], c)
      {
        assert k != c ==> k in w && w[k] == v[k];
      }
    }
  }

  /** After any operations the table is exactly the overlay of the policies whose
      containers were last set, in order of recency, on the original table. */
  lemma {:induction false} TableIsOverlay(h: Host, t: Table, ops: seq<Op>)
    requires DistinctHost(h) && CleanTable(h, t) && OverHost(h, ops)
    ensures Run(h, t, ops) == Overlay(h, t, Active(ops))
  {
    if ops != [] {
      var before, op := ops[..|ops| - 1], ops[|ops| - 1];
      TableIsOverlay(h, t, before);
      ActiveLists(h, before);
      PerformOverlays(h, t, Active(before), op);
      assert [] + Without(Active(before), op.id) == Without(Active(before), op.id);
    }
  }

  lemma {:induction false} ActiveIsLast(h: Host, ops: seq<Op>, id: string)
    requires OverHost(h, ops)
    ensures LastPolicy(ops, id).None? ==> Lacks(Active(ops), id)
    ensures LastPolicy(ops, id).Some? ==> Entry(id, LastPolicy(ops, id).value) in Active(ops)
  {
    if ops != [] {
      var before, op := ops[..|ops| - 1], ops[|ops| - 1];
      ActiveIsLast(h, before, id);
      ActiveLists(h, before);
      WithoutLists(h, Active(before), op.id);
    }
  }

  lemma {:induction false} OverlayHolds(h: Host, t: Table, order: seq<Entry>, e: Entry)
    requires DistinctHost(h) && DOCKER_USER in t && Listed(h, order) && e in order
    ensures e.id in h.ids
    ensures ChainName(e.id) in Overlay(h, t, order) && Overlay(h, t, order)[ChainName(e.id)] == Compile(e.policy)
  {
    if e != order[0] {
      assert e in order[1..];
      OverlayHolds(h, t, order[1..], e);
      ChainNamesCollide(e.id, order[0].id);
    }
  }

  /** Jumps of other containers do not match the packet. */
  lemma {:induction false} OtherJumpsSkipped(h: Host, t: Table, u: Table, order: seq<Entry>, id: string, p: Packet, depth: nat)
    requires DistinctHost(h) && DOCKER_USER in t && Listed(h, order) && id in h.ids && p.source == h.ip(id)
    requires Lacks(order, id)
    ensures Evaluate(u, Overlay(h, t, order)[DOCKER_USER], p, depth) == Evaluate(u, t[DOCKER_USER], p, depth)
  {
    if order != [] {
      OtherJumpsSkipped(h, t, u, order[1..], id, p, depth);
      var d := Overlay(h, t, order)[DOCKER_USER];
      assert d[1..] == Overlay(h, t, order[1..])[DOCKER_USER];
      assert order[0] in order;
    }
  }

  lemma {:induction false} OwnJumpDecides(h: Host, t: Table, u: Table, order: seq<Entry>, e: Entry, p: Packet, depth: nat)
    requires DistinctHost(h) && DOCKER_USER in t && Listed(h, order) && e in order && e.id in h.ids
    requires p.source == h.ip(e.id) && depth >= 1
    requires ChainName(e.id) in u && u[ChainName(e.id)] == Compile(e.policy)
    ensures Evaluate(u, Overlay(h, t, order)[DOCKER_USER], p, depth)
         == if Forbids(e.policy, p) then Dropped else Evaluate(u, t[DOCKER_USER], p, depth)
  {
    var d := Overlay(h, t, order)[DOCKER_USER];
    assert d[1..] == Overlay(h, t, order[1..])[DOCKER_USER];
    if e == order[0] {
      ChainMeansPolicy(u, e.policy, p, depth - 1);
      OtherJumpsSkipped(h, t, u, order[1..], e.id, p, depth);
    } else {
      assert e in order[1..];
      OwnJumpDecides(h, t, u, order[1..], e, p, depth);
    }
  }

  lemma {:induction false} FleetVerdict(h: Host, t: Table, ops: seq<Op>, id: string, p: Packet, depth: nat)
    requires DistinctHost(h) && CleanTable(h, t) && OverHost(h, ops)
    requires id in h.ids && p.source == h.ip(id) && depth >= 1
    ensures
      var u := Run(h, t, ops);
      DOCKER_USER in u && Evaluate(u, u[DOCKER_USER], p, depth)
        == match LastPolicy(ops, id)
           case Some(policy) => if Forbids(policy, p) then Dropped else Evaluate(u, t[DOCKER_USER], p, depth)
           case None => Evaluate(u, t[DOCKER_USER], p, depth)
  {
    var u, order := Run(h, t, ops), Active(ops);
    TableIsOverlay(h, t, ops);
    ActiveLists(h, ops);
    ActiveIsLast(h, ops, id);
    match LastPolicy(ops, id)
    case Some(policy) =>
      OverlayHolds(h, t, order, Entry(id, policy));
      OwnJumpDecides(h, t, u, order, Entry(id, policy), p, depth);
    case None =>
      OtherJumpsSkipped(h, t, u, order, id, p, depth);
  }

  // ---------------------------------------------------------------
  // The original rules are untouched
  // ---------------------------------------------------------------

  predicate JumpsWithin(rules: seq<Rule>, inner: set<string>)
  {
    forall r | r in rules && r.target.Jump? :: r.target.chain in inner
  }

  /** The chains that the rules of DOCKER-USER lead to exist and do not lead back to
      it: iptables refuses dangling jumps and loops. */
  ghost predicate LoopFree(t: Table)
  {
    DOCKER_USER in t && exists inner: set<string> :: Closed(t, inner)
  }

  predicate Closed(t: Table, inner: set<string>)
    requires DOCKER_USER in t
  {
    && inner <= t.Keys && DOCKER_USER !in inner
    && JumpsWithin(t[DOCKER_USER], inner)
    && forall c | c in inner :: JumpsWithin(t[c], inner)
  }

  lemma {:induction false} OverlayKeepsOthers(h: Host, t: Table, order: seq<Entry>, c: string)
    requires CleanTable(h, t) && Listed(h, order) && c in t && c != DOCKER_USER
    ensures c in Overlay(h, t, order) && Overlay(h, t, order)[c] == t[c]
  {
    if order != [] {
      OverlayKeepsOthers(h, t, order[1..], c);
    }
  }

  lemma {:induction false} SameInside(t: Table, u: Table, inner: set<string>, rules: seq<Rule>, p: Packet, depth: nat)
    requires DOCKER_USER in t && Closed(t, inner) && JumpsWithin(rules, inner)
    requires forall c | c in inner :: c in u && u[c] == t[c]
    ensures Evaluate(u, rules, p, depth) == Evaluate(t, rules, p, depth)
    decreases depth, |rules|
  {
    if rules != [] {
      assert rules[0] in rules;
      SameInside(t, u, inner, rules[1..], p, depth);
      if rules[0].target.Jump? && depth > 0 {
        SameInside(t, u, inner, t[rules[0].target.chain], p, depth - 1);
      }
    }
  }

  /** After any operations, in whatever order, on any containers of the host, a
      container's packet is dropped when its last policy forbids it, and otherwise
      meets the verdict DOCKER-USER had for it in the original table. */
  lemma {:induction false} FleetEnforced(h: Host, t: Table, ops: seq<Op>, id: string, p: Packet, depth: nat)
    requires DistinctHost(h) && CleanTable(h, t) && LoopFree(t) && OverHost(h, ops)
    requires id in h.ids && p.source == h.ip(id) && depth >= 1
    ensures
      var u := Run(h, t, ops);
      var original := Evaluate(t, t[DOCKER_USER], p, depth);
      DOCKER_USER in u && Evaluate(u, u[DOCKER_USER], p, depth)
        == match LastPolicy(ops, id)
           case Some(policy) => if Forbids(policy, p) then Dropped else original
           case None => original
  {
    var u := Run(h, t, ops);
    FleetVerdict(h, t, ops, id, p, depth);
    TableIsOverlay(h, t, ops);
    ActiveLists(h, ops);
    var inner :| Closed(t, inner);
    forall c | c in inner
      ensures c in u && u[c] == t[c]
    {
      OverlayKeepsOthers(h, t, Active(ops), c);
    }
    SameInside(t, u, inner, t[DOCKER_USER], p, depth);
  }

  /** Once every container is gone the table is the original one. */
  lemma {:induction false} FleetLeavesNoTrace(h: Host, t: Table, ops: seq<Op>)
    requires DistinctHost(h) && CleanTable(h, t) && OverHost(h, ops)
    requires forall id | id in h.ids :: LastPolicy(ops, id).None?
    ensures Run(h, t, ops) == t
  {
    TableIsOverlay(h, t, ops);
    ActiveLists(h, ops);
    if Active(ops) != [] {
      ActiveIsLast(h, ops, Active(ops)[0].id);
      assert false;
    }
  }
}
