/** Delivery of reports over every run of the heartbeat machine: what the client
    keeps, what the server has, and when the two agree. */
module ReportDelivery {
  import opened StateReporter
  import opened ConnectionSession
  import opened Heartbeat

  /** Where a lane stands relative to the request in progress: no batch taken,
      batch cloned into the request, batch about to be drained. */
  datatype Stage = Free | InFlight | Granted

  function LaneStage(phase: Phase, category: Category): Stage
  {
    match phase
    case CollectOutcomes => if category.Responses? then InFlight else Free
    case CollectLogEntries => if category.LogEntries? then Free else InFlight
    case AwaitReply => InFlight
    case DrainResponses => Granted
    case DrainOutcomes => if category.Responses? then Free else Granted
    case DrainLogEntries => if category.LogEntries? then Granted else Free
    case _ => Free
  }

  /** Nothing is lost or reordered on the client: the drained reports followed by
      the buffer are the accepted reports, the batch in flight is the front of
      the buffer, and only accepted reports are ever ingested. */
  ghost predicate Conserved(l: Lane, stage: Stage)
  {
    && l.drained + l.pending == l.accepted
    && |l.pending| <= STATE_REPORT_MAX_PENDING_ITEMS
    && (!stage.Free? ==> l.batch <= l.pending)
    && (forall i | i in l.ingested :: i < |l.accepted|)
  }

  /** Every drained report was ingested, and so was a batch about to be drained. */
  ghost predicate Covered(l: Lane, stage: Stage)
  {
    && (forall i: nat | i < |l.drained| :: i in l.ingested)
    && (stage.Granted? ==> forall i: nat | i < |l.drained| + |l.batch| :: i in l.ingested)
  }

  /** The ingested positions are an initial segment of the accepted reports, so a
      report ingested twice lies in a re-sent prefix. */
  ghost predicate Prefix(l: Lane)
  {
    forall i: nat, j: nat | i < j && j in l.ingested :: i in l.ingested
  }

  /** An Ok on a later fragment from a server that has forgotten the executor:
      the server drops the reports, and the client does not look at `sendState`. */
  predicate Forgotten(s: State, e: Event)
  {
    e.Rpc? && e.exchange.Answered? && s.phase == AwaitReply && !s.round.first && !e.exchange.known
  }

  // ---------------------------------------------------------------
  // One lane: every step of the machine acts on a lane by one of these
  // ---------------------------------------------------------------

  datatype LaneOp = Keep | Push(item: Report) | Collect(base: nat) | Ingest(positions: set<nat>) | Drain

  function Apply(l: Lane, op: LaneOp): Lane
  {
    match op
    case Keep => l
    case Push(item) => PushItem(l, item)
    case Collect(base) => CollectLane(l, base)
    case Ingest(positions) => IngestLane(l, positions)
    case Drain => DrainLane(l)
  }

  function TickOp(phase: Phase, ls: Lanes, c: Category): LaneOp
  {
    match phase
    case CollectResponses => if c.Responses? then Collect(0) else Keep
    case CollectOutcomes => if c.Outcomes? then Collect(TotalLen(ls.responses.batch)) else Keep
    case CollectLogEntries =>
      if c.LogEntries? then Collect(TotalLen(ls.responses.batch) + TotalLen(ls.outcomes.batch)) else Keep
    case DrainResponses => if c.Responses? then Drain else Keep
    case DrainOutcomes => if c.Outcomes? then Drain else Keep
    case DrainLogEntries => if c.LogEntries? then Drain else Keep
    case _ => Keep
  }

  function RpcOp(ls: Lanes, r: Round, x: Exchange, c: Category): LaneOp
  {
    match x
    case Undelivered => Keep
    case IngestError(a, b, d) => Ingest(match c case Responses => a case Outcomes => b case LogEntries => d)
    case _ => if Recognised(r, x.known) then Ingest(BatchSpan(GetLane(ls, c))) else Keep
  }

  function StepOp(s: State, e: Event, c: Category): LaneOp
  {
    match e
    case Arrival(to, item) => if to == c then Push(item) else Keep
    case Tick => TickOp(s.phase, s.lanes, c)
    case Rpc(x) => if s.phase == AwaitReply then RpcOp(s.lanes, s.round, x, c) else Keep
    case _ => Keep
  }

  /** Which stage changes go with an operation. */
  predicate Fits(op: LaneOp, from: Stage, to: Stage)
  {
    match op
    case Keep => from == to || to.Free? || (from.InFlight? && to.Granted?)
    case Push(_) => from == to
    case Collect(_) => from.Free? && to.InFlight?
    case Ingest(_) => from.InFlight?
    case Drain => from.Granted? && to.Free?
  }

  lemma {:induction false} StepOnLane(s: State, e: Event, c: Category)
    ensures GetLane(Step(s, e).lanes, c) == Apply(GetLane(s.lanes, c), StepOp(s, e, c))
    ensures Fits(StepOp(s, e, c), LaneStage(s.phase, c), LaneStage(Step(s, e).phase, c))
  {
    match e
    case Tick => TickOnLane(s, c);
    case Rpc(x) =>
    case Arrival(_, _) =>
    case CommandApplied =>
    case ResultApplied =>
  }

  lemma {:induction false} TickOnLane(s: State, c: Category)
    ensures GetLane(Advance(s).lanes, c) == Apply(GetLane(s.lanes, c), TickOp(s.phase, s.lanes, c))
    ensures Fits(TickOp(s.phase, s.lanes, c), LaneStage(s.phase, c), LaneStage(Advance(s).phase, c))
  {
    TickFits(s, c);
    match c
    case Responses =>
    case Outcomes =>
    case LogEntries =>
  }

  lemma {:induction false} TickFits(s: State, c: Category)
    ensures Fits(TickOp(s.phase, s.lanes, c), LaneStage(s.phase, c), LaneStage(Advance(s).phase, c))
  {
    match s.phase
    case Head =>
    case CollectResponses =>
    case CollectOutcomes =>
    case CollectLogEntries =>
    case AwaitReply =>
    case DrainResponses =>
    case DrainOutcomes =>
    case DrainLogEntries =>
    case Backoff =>
    case Idle =>
  }

  /** A batch is granted without being ingested only by a forgotten fragment, and
      granted after ingestion only when all of it was ingested. */
  lemma {:induction false} GrantOnLane(s: State, e: Event, c: Category)
    requires LaneStage(s.phase, c).InFlight? && LaneStage(Step(s, e).phase, c).Granted?
    ensures StepOp(s, e, c).Keep? <==> Forgotten(s, e)
    ensures StepOp(s, e, c).Keep? || StepOp(s, e, c) == Ingest(BatchSpan(GetLane(s.lanes, c)))
  {
  }

  lemma {:induction false} OpConserves(l: Lane, from: Stage, op: LaneOp, to: Stage)
    requires Conserved(l, from)
    requires Fits(op, from, to)
    ensures Conserved(Apply(l, op), to)
  {
    match op
    case Push(item) => assert l.drained + (l.pending + [item]) == l.accepted + [item];
    case Drain => assert l.pending == l.pending[..|l.batch|] + l.pending[|l.batch|..];
    case _ =>
  }

  lemma {:induction false} OpCovers(l: Lane, from: Stage, op: LaneOp, to: Stage)
    requires Conserved(l, from)
    requires Covered(l, from)
    requires Fits(op, from, to)
    requires from.InFlight? && to.Granted? ==> op.Keep? || op == Ingest(BatchSpan(l))
    ensures Covered(Apply(l, op), to)
            <==> (op.Keep? && from.InFlight? && to.Granted? ==> BatchSpan(l) <= l.ingested)
  {
    if op.Keep? && from.InFlight? && to.Granted? && BatchSpan(l) <= l.ingested {
      forall i: nat | i < |l.drained| + |l.batch| ensures i in l.ingested {
        if i >= |l.drained| { assert i in BatchSpan(l); }
      }
    }
  }

  /** The server takes a batch position and leaves out an earlier one it does not
      have yet. */
  predicate SkipsOne(l: Lane, positions: set<nat>)
  {
    exists i, j | i in BatchSpan(l) && j in positions * BatchSpan(l) :: i < j && i !in positions && i !in l.ingested
  }

  /** Taking part of a batch keeps the prefix shape exactly when nothing is skipped. */
  lemma {:induction false} IngestKeepsPrefix(l: Lane, from: Stage, positions: set<nat>)
    requires Covered(l, from) && Prefix(l)
    ensures Prefix(IngestLane(l, positions)) <==> !SkipsOne(l, positions)
  {
    var t := IngestLane(l, positions);
    if SkipsOne(l, positions) {
      var i, j :| i in BatchSpan(l) && j in positions * BatchSpan(l) && i < j && i !in positions && i !in l.ingested;
      assert j in t.ingested && i !in t.ingested;
    } else {
      forall i: nat, j: nat | i < j && j in t.ingested
        ensures i in t.ingested
      {
        if j !in l.ingested && i >= |l.drained| {
          assert i in BatchSpan(l);
        }
      }
    }
  }

  // ---------------------------------------------------------------
  // One step
  // ---------------------------------------------------------------

  lemma {:induction false} StepConserves(s: State, e: Event, c: Category)
    requires Conserved(GetLane(s.lanes, c), LaneStage(s.phase, c))
    ensures Conserved(GetLane(Step(s, e).lanes, c), LaneStage(Step(s, e).phase, c))
  {
    StepOnLane(s, e, c);
    OpConserves(GetLane(s.lanes, c), LaneStage(s.phase, c), StepOp(s, e, c), LaneStage(Step(s, e).phase, c));
  }

  /** A step keeps every drained report ingested exactly when it is not a
      forgotten fragment carrying something the server never ingested. */
  lemma {:induction false} StepCovers(s: State, e: Event, c: Category)
    requires Conserved(GetLane(s.lanes, c), LaneStage(s.phase, c))
    requires Covered(GetLane(s.lanes, c), LaneStage(s.phase, c))
    ensures Covered(GetLane(Step(s, e).lanes, c), LaneStage(Step(s, e).phase, c))
            <==> (Forgotten(s, e) ==> BatchSpan(GetLane(s.lanes, c)) <= GetLane(s.lanes, c).ingested)
  {
    StepOnLane(s, e, c);
    var from, to := LaneStage(s.phase, c), LaneStage(Step(s, e).phase, c);
    if from.InFlight? && to.Granted? { GrantOnLane(s, e, c); }
    OpCovers(GetLane(s.lanes, c), from, StepOp(s, e, c), to);
  }

  // ---------------------------------------------------------------
  // Every run
  // ---------------------------------------------------------------

  ghost predicate NoFragmentForgotten(events: seq<Event>)
  {
    forall k: nat | k < |events| :: !Forgotten(Run(INIT, events[..k]), events[k])
  }

  /** A failed request of which the server took a report and skipped an earlier one. */
  predicate Holed(s: State, e: Event, c: Category)
  {
    e.Rpc? && s.phase == AwaitReply && StepOp(s, e, c).Ingest? && SkipsOne(GetLane(s.lanes, c), StepOp(s, e, c).positions)
  }

  /** Everything drained is ingested, and the ingested reports are a prefix. */
  ghost predicate Sound(s: State, c: Category)
  {
    Covered(GetLane(s.lanes, c), LaneStage(s.phase, c)) && Prefix(GetLane(s.lanes, c))
  }

  /** The two ways to lose that: a forgotten fragment with something new in it, and
      a partial ingestion that skips a report. */
  predicate Breaks(s: State, e: Event, c: Category)
  {
    || (Forgotten(s, e) && !(BatchSpan(GetLane(s.lanes, c)) <= GetLane(s.lanes, c).ingested))
    || Holed(s, e, c)
  }

  lemma {:induction false} StepSound(s: State, e: Event, c: Category)
    requires Conserved(GetLane(s.lanes, c), LaneStage(s.phase, c))
    requires Sound(s, c)
    ensures Sound(Step(s, e), c) <==> !Breaks(s, e, c)
  {
    var l := GetLane(s.lanes, c);
    StepCovers(s, e, c);
    StepOnLane(s, e, c);
    if StepOp(s, e, c).Ingest? {
      IngestKeepsPrefix(l, LaneStage(s.phase, c), StepOp(s, e, c).positions);
    }
  }

  ghost predicate AlwaysSound(events: seq<Event>, c: Category)
  {
    Sound(Run(INIT, events), c) && (events == [] || AlwaysSound(events[..|events| - 1], c))
  }

  ghost predicate NeverBreaks(events: seq<Event>, c: Category)
  {
    if events == [] then true
    else
      var init := events[..|events| - 1];
      NeverBreaks(init, c) && !Breaks(Run(INIT, init), events[|events| - 1], c)
  }

  /** Reports are conserved in arrival order on every run whatsoever. */
  lemma {:induction false} ReportsConserved(events: seq<Event>, c: Category)
    ensures var s := Run(INIT, events); Conserved(GetLane(s.lanes, c), LaneStage(s.phase, c))
  {
    if events != [] {
      var init := events[..|events| - 1];
      ReportsConserved(init, c);
      StepConserves(Run(INIT, init), events[|events| - 1], c);
    }
  }

  lemma {:induction false} NoFragmentForgottenPrefix(events: seq<Event>, n: nat)
    requires NoFragmentForgotten(events)
    requires n <= |events|
    ensures NoFragmentForgotten(events[..n])
  {
    forall k: nat | k < n ensures !Forgotten(Run(INIT, events[..n][..k]), events[..n][k]) {
      assert events[..n][..k] == events[..k];
    }
  }

  /** At-least-once: on every run in which no later fragment was answered by a
      server that had forgotten the executor, everything drained was ingested. */
  lemma {:induction false} DrainedReportsIngested(events: seq<Event>, c: Category)
    requires NoFragmentForgotten(events)
    ensures var s := Run(INIT, events); Covered(GetLane(s.lanes, c), LaneStage(s.phase, c))
  {
    if events != [] {
      var n := |events| - 1;
      NoFragmentForgottenPrefix(events, n);
      DrainedReportsIngested(events[..n], c);
      ReportsConserved(events[..n], c);
      StepCovers(Run(INIT, events[..n]), events[n], c);
    }
  }

  /** A run is sound throughout exactly when none of its steps breaks it. */
  lemma {:induction false} SoundExactly(events: seq<Event>, c: Category)
    ensures AlwaysSound(events, c) <==> NeverBreaks(events, c)
  {
    if events != [] {
      var init, last := events[..|events| - 1], events[|events| - 1];
      SoundExactly(init, c);
      if AlwaysSound(init, c) {
        ReportsConserved(init, c);
        StepSound(Run(INIT, init), last, c);
      }
    }
  }

  /** On every run without such a step the server holds an initial segment of the
      accepted reports, at least as long as the drained part. */
  lemma {:induction false} IngestedIsPrefix(events: seq<Event>, c: Category)
    requires NeverBreaks(events, c)
    ensures var l := GetLane(Run(INIT, events).lanes, c);
            Prefix(l) && (forall i: nat | i < |l.drained| :: i in l.ingested)
  {
    SoundExactly(events, c);
  }

  // ---------------------------------------------------------------
  // Where the guarantees end
  // ---------------------------------------------------------------

  /** The responses lane after one answered fragment. */
  function AfterFragment(l: Lane, known: bool): Lane
  {
    var sent := CollectLane(l, 0);
    DrainLane(if known then IngestLane(sent, BatchSpan(sent)) else sent)
  }

  /** The state after one answered fragment, when nothing arrives meanwhile. */
  lemma {:induction false} AnsweredFragment(s: State, known: bool) returns (t: State, events: seq<Event>)
    requires s.phase.CollectResponses?
    requires s.round.first ==> known
    ensures t == Run(s, events)
    ensures t.lanes.responses == AfterFragment(s.lanes.responses, known)
    ensures t.lanes.responses.hasRemaining ==> t.phase.CollectResponses?
    ensures !t.round.first
  {
    var reply := Rpc(Answered(known, false));
    CollectPhases(s);
    RunAppend(s, TICKS, reply);
    DrainPhases(Run(s, TICKS + [reply]));
    RunConcat(s, TICKS + [reply], TICKS);
    t, events := Run(Run(s, TICKS + [reply]), TICKS), TICKS + [reply] + TICKS;
  }

  /** The state after a fragment of which the server took some responses and then
      failed. */
  lemma {:induction false} FailedFragment(s: State, positions: set<nat>) returns (t: State, events: seq<Event>)
    requires s.phase.CollectResponses?
    ensures t == Run(s, events)
    ensures t.lanes.responses == IngestLane(CollectLane(s.lanes.responses, 0), positions)
    ensures t.phase.Backoff?
  {
    var failure := Rpc(IngestError(positions, {}, {}));
    CollectPhases(s);
    RunAppend(s, TICKS, failure);
    t, events := Run(s, TICKS + [failure]), TICKS + [failure];
  }

  /** A lane into which the given reports have arrived. */
  function LaneOf(items: seq<Report>): Lane
  {
    Lane(items, [], false, items, [], {}, [])
  }

  lemma {:induction false} BeginWithTwo(r: Report) returns (s: State, events: seq<Event>)
    ensures s == Run(INIT, events)
    ensures s.phase.CollectResponses? && s.round.first
    ensures s.lanes.responses == LaneOf([r, r])
  {
    var e := Arrival(Responses, r);
    RunAppend(INIT, [], e);
    RunAppend(INIT, [e], e);
    RunAppend(INIT, [e, e], Tick);
    assert [] + [e] == [e] && [e] + [e] == [e, e] && [r] + [r] == [r, r];
    events := [e, e] + [Tick];
    s := Advance(Step(Step(INIT, e), e));
  }

  lemma {:induction false} FirstOfTwo(big: Report)
    requires big.encodedLen == STATE_REPORT_MAX_MESSAGE_SIZE
    ensures AfterFragment(LaneOf([big, big]), true)
         == Lane([big], [], true, [big, big], [big], {0}, [Delivery(0, [big], {0})])
  {
    assert [big, big][..1] == [big] && [big, big][1..] == [big];
    assert BatchLen(0, [big, big]) == 1;
    var sent := CollectLane(LaneOf([big, big]), 0);
    assert sent == Lane([big, big], [big], true, [big, big], [], {}, []);
    IngestOne(sent, big);
  }

  lemma {:induction false} IngestOne(l: Lane, big: Report)
    requires l == Lane([big, big], [big], true, [big, big], [], {}, [])
    ensures IngestLane(l, BatchSpan(l)) == Lane([big, big], [big], true, [big, big], [], {0}, [Delivery(0, [big], {0})])
  {
    assert BatchSpan(l) == {0};
    assert {0} * {0} == {0};
  }

  lemma {:induction false} SecondOfTwo(big: Report, log: seq<Delivery>)
    requires big.encodedLen == STATE_REPORT_MAX_MESSAGE_SIZE
    ensures AfterFragment(Lane([big], [], true, [big, big], [big], {0}, log), false)
         == Lane([], [], false, [big, big], [big, big], {0}, log)
  {
    assert BatchLen(0, [big]) == 1;
    assert [big][..1] == [big] && [big] + [big] == [big, big];
  }

  /** A report can be lost: two reports that need two fragments, a server that
      forgets the executor in between, and the second report is drained although
      the server never ingested it. */
  lemma {:induction false} ForgottenFragmentLosesReport() returns (events: seq<Event>)
    ensures var l := Run(INIT, events).lanes.responses;
            |l.accepted| == |l.drained| == 2 && l.ingested == {0}
  {
    var big := Report("", STATE_REPORT_MAX_MESSAGE_SIZE);
    var s, start := BeginWithTwo(big);
    FirstOfTwo(big);
    var t, es := AnsweredFragment(s, true);
    SecondOfTwo(big, t.lanes.responses.deliveries);
    var u, fs := AnsweredFragment(t, false);
    RunConcat(INIT, start, es);
    RunConcat(INIT, start + es, fs);
    events := start + es + fs;
  }

  lemma {:induction false} BatchOfTwo(small: Report)
    requires small.encodedLen == 1
    ensures BatchLen(0, [small, small]) == 2
  {
    TotalLenNext([small, small], 0);
    TotalLenNext([small, small], 1);
    assert [small, small][..0] == [] && [small, small][..2] == [small, small];
    BatchIsUnique(0, [small, small], 2);
  }

  /** Two reports in one request of which the server takes the second. */
  lemma {:induction false} HoleOfTwo(small: Report)
    requires small.encodedLen == 1
    ensures IngestLane(CollectLane(LaneOf([small, small]), 0), {1})
         == Lane([small, small], [small, small], false, [small, small], [], {1}, [Delivery(0, [small, small], {1})])
  {
    BatchOfTwo(small);
    var sent := CollectLane(LaneOf([small, small]), 0);
    assert [small, small][..2] == [small, small];
    assert sent == Lane([small, small], [small, small], false, [small, small], [], {}, []);
    assert {1} * BatchSpan(sent) == {1};
  }

  /** A server that takes the second of two reports before failing leaves a hole:
      the ingested reports are not a prefix of the accepted ones. */
  lemma {:induction false} PartialIngestLeavesHole() returns (s: State, events: seq<Event>)
    ensures s == Run(INIT, events) && s.phase.Backoff?
    ensures var l := s.lanes.responses;
            |l.accepted| == 2 && l.ingested == {1} && !Prefix(l)
    ensures s.lanes.responses == IngestLane(CollectLane(LaneOf([Report("", 1), Report("", 1)]), 0), {1})
  {
    var small := Report("", 1);
    var begun, start := BeginWithTwo(small);
    HoleOfTwo(small);
    var more;
    s, more := FailedFragment(begun, {1});
    RunConcat(INIT, start, more);
    events := start + more;
    assert 1 in s.lanes.responses.ingested && 0 !in s.lanes.responses.ingested;
  }
}
