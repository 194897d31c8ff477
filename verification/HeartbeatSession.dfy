/** Connection state, cursors, backoff and progress of the heartbeat machine. */
module HeartbeatSession {
  import opened StateReporter
  import opened ConnectionSession
  import opened Heartbeat

  // ---------------------------------------------------------------
  // Connection state and backoff
  // ---------------------------------------------------------------

  function Pow2(k: nat): nat
  {
    if k == 0 then 1 else 2 * Pow2(k - 1)
  }

  function Min(a: nat, b: nat): nat
  {
    if a <= b then a else b
  }

  predicate Draining(phase: Phase)
  {
    phase.DrainResponses? || phase.DrainOutcomes? || phase.DrainLogEntries?
  }

  /** Ready means healthy with nothing outstanding; Registering, once some
      heartbeat came back, means that a full state is owed to the server. */
  predicate Consistent(c: Session, resolved: bool)
  {
    && (c.conn.Ready? ==> c.healthy && !c.sendFullState)
    && (c.conn.Registering? && resolved ==> c.sendFullState)
    && (c.conn.Unhealthy? ==> !c.healthy)
  }

  predicate Connected(c: Session)
  {
    c.conn.Ready? && c.healthy && !c.sendFullState
  }

  predicate SessionInv(s: State)
  {
    && (if Draining(s.phase) then !s.session.sendFullState && (s.session.conn.Unhealthy? ==> !s.session.healthy)
        else Consistent(s.session, s.resolved))
    && (!s.round.first && !s.phase.Head? && !s.phase.Backoff? ==> Connected(s.session))
    && (s.phase.Idle? ==> Connected(s.session))
    && (s.phase.Backoff? ==> s.session.conn.Unhealthy? && s.failures > 0)
    && s.session.retrySecs == Min(Pow2(if s.phase.Backoff? then s.failures - 1 else s.failures), MAX_RETRY_SECS)
  }

  lemma {:induction false} SessionStep(s: State, e: Event)
    requires SessionInv(s)
    ensures SessionInv(Step(s, e))
  {
    match e
    case Tick => SessionTick(s);
    case Rpc(x) => if s.phase.AwaitReply? { SessionRpc(s, x); }
    case Arrival(_, _) =>
    case CommandApplied =>
    case ResultApplied =>
  }

  lemma {:induction false} SessionTick(s: State)
    requires SessionInv(s)
    ensures SessionInv(Advance(s))
  {
    if s.phase.Backoff? {
      assert Pow2(s.failures) == 2 * Pow2(s.failures - 1);
    }
  }

  lemma {:induction false} SessionRpc(s: State, x: Exchange)
    requires s.phase.AwaitReply?
    requires SessionInv(s)
    ensures SessionInv(Resolve(s, x))
  {
  }

  lemma {:induction false} SessionInvariant(events: seq<Event>)
    ensures SessionInv(Run(INIT, events))
  {
    if events != [] {
      var init := events[..|events| - 1];
      SessionInvariant(init);
      SessionStep(Run(INIT, init), events[|events| - 1]);
    }
  }

  /** The connection state at every outer-loop head, and the delay before the
      next attempt after `failures` consecutive failed heartbeats. */
  lemma {:induction false} ConnectionAtHead(events: seq<Event>)
    requires Run(INIT, events).phase.Head?
    ensures var s := Run(INIT, events);
            && (s.session.conn.Ready? ==> s.session.healthy && !s.session.sendFullState)
            && (s.session.conn.Registering? && s.resolved ==> s.session.sendFullState)
            && s.session.retrySecs == Min(Pow2(s.failures), 5)
  {
    SessionInvariant(events);
  }

  /** Between the head of the outer loop and the reply to its first fragment. */
  predicate BeforeReply(s: State)
  {
    s.round.first
    && (s.phase.CollectResponses? || s.phase.CollectOutcomes? || s.phase.CollectLogEntries? || s.phase.AwaitReply?)
  }

  /** What the outer loop decided at its head is still true of the session. */
  predicate RoundInv(s: State)
  {
    BeforeReply(s) ==>
      && s.round.fullState == s.session.sendFullState
      && s.round.forRegistration == (s.session.sendFullState && s.session.conn.Registering?)
  }

  lemma {:induction false} RoundInvariant(events: seq<Event>)
    ensures RoundInv(Run(INIT, events))
  {
    if events != [] {
      RoundInvariant(events[..|events| - 1]);
    }
  }

  /** On every run, at every step: both cursors restart at zero exactly when a reply
      arrives while a full state is owed to a server the dataplane is registering
      with; otherwise they change only by the poll loops' own advances. */
  lemma {:induction false} CursorsExactly(events: seq<Event>, e: Event)
    ensures
      var s, t := Run(INIT, events), Step(Run(INIT, events), e);
      var restart := e.Rpc? && e.exchange.Answered? && s.phase.AwaitReply?
                     && s.session.sendFullState && s.session.conn == Registering;
      && t.session.commandCursor == (if restart then 0 else s.session.commandCursor + if e.CommandApplied? then 1 else 0)
      && t.session.resultCursor == (if restart then 0 else s.session.resultCursor + if e.ResultApplied? then 1 else 0)
  {
    RoundInvariant(events);
    SessionInvariant(events);
  }

  /** On every run, what a reply to the request in flight means for the client: it
      drains unless the server does not know it, and was not told its full state, or
      has noticed a falling acknowledgement; a failure leaves what is owed as it is. */
  lemma {:induction false} ReplyOutcome(events: seq<Event>, x: Exchange)
    requires Run(INIT, events).phase.AwaitReply?
    ensures
      var s, t := Run(INIT, events), Step(Run(INIT, events), Rpc(x));
      var refused := x.Answered? && s.round.first && (!(x.known || s.session.sendFullState) || x.ackRegressed);
      && (refused ==> t.phase.Head? && t.session.conn == Registering && t.session.sendFullState)
      && (x.Answered? && !refused ==> t.phase.DrainResponses? && t.session.conn == s.session.conn && !t.session.sendFullState)
      && (!x.Answered? ==> t.phase.Backoff? && t.session.conn == Unhealthy && !t.session.healthy
                           && t.session.sendFullState == s.session.sendFullState)
  {
    RoundInvariant(events);
  }

  /** On every run, what the server takes from a request in flight: all of it when the
      request arrives and the executor is known or told its full state, even if the
      reply is lost; nothing when the request is lost or the executor unknown. The
      reply itself removes nothing from a buffer. */
  lemma {:induction false} RequestOutcome(events: seq<Event>, x: Exchange, c: Category)
    requires Run(INIT, events).phase.AwaitReply?
    ensures
      var s := Run(INIT, events);
      var l, m := GetLane(s.lanes, c), GetLane(Step(s, Rpc(x)).lanes, c);
      var taken := (x.ReplyLost? || x.Answered?) && (x.known || (s.round.first && s.session.sendFullState));
      && m.pending == l.pending && m.batch == l.batch
      && (taken ==> m.ingested == l.ingested + BatchSpan(l))
      && (!taken && !x.IngestError? ==> m == l)
  {
    RoundInvariant(events);
  }

  /** However a round ended, the next one begins: at once after a refusal, and after
      the wait or the backoff otherwise; it starts with a first fragment and all that
      the buffers hold. */
  lemma {:induction false} NextRoundBegins(s: State)
    requires s.phase.Head? || s.phase.Idle? || s.phase.Backoff?
    ensures var t := if s.phase.Head? then Advance(s) else Advance(Advance(s));
            t.phase.CollectResponses? && t.round.first && t.lanes == s.lanes
            && t.round.fullState == s.session.sendFullState
  {
  }

  /** The cursors fall only when a first fragment carrying the full state, sent
      while registering, is answered; then both restart at zero. */
  lemma {:induction false} CursorsFallOnlyOnReregistration(s: State, e: Event)
    requires Step(s, e).session.commandCursor < s.session.commandCursor
             || Step(s, e).session.resultCursor < s.session.resultCursor
    ensures s.phase.AwaitReply? && e.Rpc? && e.exchange.Answered?
    ensures s.round.first && s.round.fullState && s.round.forRegistration
    ensures Step(s, e).session.commandCursor == 0 && Step(s, e).session.resultCursor == 0
  {
  }

  // ---------------------------------------------------------------
  // Progress
  // ---------------------------------------------------------------

  /** One fragment that is accepted while no report arrives. */
  const QUIET_FRAGMENT: seq<Event> := TICKS + [Rpc(Answered(true, false))] + TICKS

  function QuietFragments(n: nat): seq<Event>
  {
    if n == 0 then [] else QUIET_FRAGMENT + QuietFragments(n - 1)
  }

  function Max(a: nat, b: nat): nat
  {
    if a <= b then b else a
  }

  function Longest(ls: Lanes): nat
  {
    Max(|ls.responses.pending|, Max(|ls.outcomes.pending|, |ls.entries.pending|))
  }

  /** The state one quiet fragment leads to. It is an out-parameter so that its
      users reason about it without unfolding the run that produced it. */
  lemma {:induction false} QuietFragmentEffect(s: State) returns (t: State)
    requires s.phase.CollectResponses?
    ensures t.lanes == DrainAll(IngestAll(CollectAll(s.lanes)))
    ensures t.phase == if MoreToSend(t.lanes) then CollectResponses else Idle
    ensures forall m: nat :: Run(s, QuietFragments(m + 1)) == Run(t, QuietFragments(m))
  {
    var reply := Rpc(Answered(true, false));
    CollectPhases(s);
    RunAppend(s, TICKS, reply);
    t := Run(Run(s, TICKS + [reply]), TICKS);
    DrainPhases(Run(s, TICKS + [reply]));
    RunConcat(s, TICKS + [reply], TICKS);
    forall m: nat ensures Run(s, QuietFragments(m + 1)) == Run(t, QuietFragments(m)) {
      RunConcat(s, QUIET_FRAGMENT, QuietFragments(m));
    }
  }

  /** A lane after its batch was sent and drained. */
  function Sent(l: Lane, base: nat): Lane
  {
    var c := CollectLane(l, base);
    DrainLane(IngestLane(c, BatchSpan(c)))
  }

  /** At least one report left the buffer, if there was one. */
  predicate Shortened(before: Lane, after: Lane)
  {
    |after.pending| <= if before.pending == [] then 0 else |before.pending| - 1
  }

  lemma {:induction false} SentShortens(l: Lane, base: nat)
    ensures Shortened(l, Sent(l, base))
    ensures Sent(l, base).hasRemaining == (Sent(l, base).pending != [])
  {
  }

  function SentLanes(ls: Lanes): Lanes
  {
    var a := TotalLen(CollectLane(ls.responses, 0).batch);
    var b := TotalLen(CollectLane(ls.outcomes, a).batch);
    Lanes(Sent(ls.responses, 0), Sent(ls.outcomes, a), Sent(ls.entries, a + b))
  }

  lemma {:induction false} LanesShorten(before: Lanes, after: Lanes)
    requires Shortened(before.responses, after.responses)
    requires Shortened(before.outcomes, after.outcomes)
    requires Shortened(before.entries, after.entries)
    ensures Longest(after) <= (if Longest(before) == 0 then 0 else Longest(before) - 1)
  {
  }

  lemma {:induction false} SentLanesShorten(ls: Lanes)
    ensures forall c: Category :: Shortened(GetLane(ls, c), GetLane(SentLanes(ls), c))
    ensures Longest(SentLanes(ls)) <= (if Longest(ls) == 0 then 0 else Longest(ls) - 1)
    ensures MoreToSend(SentLanes(ls)) == (Longest(SentLanes(ls)) > 0)
  {
    var a := TotalLen(CollectLane(ls.responses, 0).batch);
    var b := TotalLen(CollectLane(ls.outcomes, a).batch);
    SentShortens(ls.responses, 0);
    SentShortens(ls.outcomes, a);
    SentShortens(ls.entries, a + b);
    LanesShorten(ls, SentLanes(ls));
  }

  lemma {:induction false} SentLanesCompose(ls: Lanes)
    ensures DrainAll(IngestAll(CollectAll(ls))) == SentLanes(ls)
  {
  }

  lemma {:induction false} QuietFragmentProgress(s: State) returns (t: State)
    requires s.phase.CollectResponses?
    ensures forall c: Category :: Shortened(GetLane(s.lanes, c), GetLane(t.lanes, c))
    ensures Longest(t.lanes) <= (if Longest(s.lanes) == 0 then 0 else Longest(s.lanes) - 1)
    ensures t.phase == if Longest(t.lanes) > 0 then CollectResponses else Idle
    ensures forall m: nat :: Run(s, QuietFragments(m + 1)) == Run(t, QuietFragments(m))
  {
    t := QuietFragmentEffect(s);
    SentLanesCompose(s.lanes);
    SentLanesShorten(s.lanes);
  }

  /** With no arrivals and every request accepted, the fragment loop ends with
      all three buffers empty after at most max(1, longest buffer) requests. */
  lemma {:induction false} QuietLoopDrains(s: State) returns (n: nat)
    requires s.phase.CollectResponses?
    ensures 1 <= n <= Max(1, Longest(s.lanes))
    ensures Run(s, QuietFragments(n)).phase.Idle?
    ensures Longest(Run(s, QuietFragments(n)).lanes) == 0
    decreases Longest(s.lanes)
  {
    var t := QuietFragmentProgress(s);
    if t.phase.Idle? {
      n := 1;
      assert Run(t, QuietFragments(0)) == t;
    } else {
      var m := QuietLoopDrains(t);
      n := m + 1;
    }
  }
}
