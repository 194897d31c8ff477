/** The dataplane's heartbeat loop and the delivery of reports to the server,
    as a step system. Every await point of the loop is a phase, so arriving
    reports and the poll loops' cursor updates can fall between any two steps. */
module Heartbeat {
  import opened StateReporter
  import opened ConnectionSession

  // ---------------------------------------------------------------
  // Lanes: one per report category
  // ---------------------------------------------------------------

  /** One request as the server processed it: the reports it carried, the position
      in `accepted` of the first of them, and the positions the server took. */
  datatype Delivery = Delivery(start: nat, items: seq<Report>, taken: set<nat>)

  /** A report buffer, the batch cloned from it, and the history of the category:
      every accepted report, every drained one, the positions in `accepted` of the
      reports the server has ingested, and the log of its deliveries. */
  datatype Lane = Lane(
    pending: seq<Report>,
    batch: seq<Report>,
    hasRemaining: bool,
    accepted: seq<Report>,
    drained: seq<Report>,
    ingested: set<nat>,
    deliveries: seq<Delivery>)

  const INIT_LANE := Lane([], [], false, [], [], {}, [])

  datatype Category = Responses | Outcomes | LogEntries

  function PushItem(l: Lane, item: Report): Lane
  {
    if |l.pending| >= STATE_REPORT_MAX_PENDING_ITEMS then l
    else l.(pending := Accept(l.pending, item), accepted := l.accepted + [item])
  }

  function CollectLane(l: Lane, base: nat): Lane
  {
    var count := BatchLen(base, l.pending);
    l.(batch := l.pending[..count], hasRemaining := count < |l.pending|)
  }

  /** The positions from `lo` up to but not including `hi`. */
  function Span(lo: nat, hi: nat): (r: set<nat>)
    ensures forall i: nat :: i in r <==> lo <= i < hi
  {
    if hi <= lo then {} else Span(lo, hi - 1) + {hi - 1}
  }

  /** The positions in `accepted` that the cloned batch occupies. */
  function BatchSpan(l: Lane): set<nat>
  {
    Span(|l.drained|, |l.drained| + |l.batch|)
  }

  /** The server ingests those batch items whose position is in `positions`. */
  function IngestLane(l: Lane, positions: set<nat>): Lane
  {
    var taken := positions * BatchSpan(l);
    l.(ingested := l.ingested + taken, deliveries := l.deliveries + [Delivery(|l.drained|, l.batch, taken)])
  }

  function DrainLane(l: Lane): Lane
  {
    var n := if |l.batch| <= |l.pending| then |l.batch| else |l.pending|;
    l.(pending := l.pending[n..], drained := l.drained + l.pending[..n], batch := [])
  }

  // ---------------------------------------------------------------
  // The machine
  // ---------------------------------------------------------------

  datatype Phase =
    | Head
    | CollectResponses | CollectOutcomes | CollectLogEntries
    | AwaitReply
    | DrainResponses | DrainOutcomes | DrainLogEntries
    | Backoff
    | Idle

  /** What becomes of one heartbeat request. `known` says whether the server
      still had the executor registered when the request arrived. */
  datatype Exchange =
    | Undelivered
    | ReplyLost(known: bool)
    | IngestError(responses: set<nat>, outcomes: set<nat>, entries: set<nat>)
    | Answered(known: bool, ackRegressed: bool)

  datatype Event =
    | Arrival(category: Category, item: Report)
    | CommandApplied
    | ResultApplied
    | Tick
    | Rpc(exchange: Exchange)

  datatype Lanes = Lanes(responses: Lane, outcomes: Lane, entries: Lane)

  const INIT_LANES := Lanes(INIT_LANE, INIT_LANE, INIT_LANE)

  function GetLane(ls: Lanes, category: Category): Lane
  {
    match category
    case Responses => ls.responses
    case Outcomes => ls.outcomes
    case LogEntries => ls.entries
  }

  /** `failures` counts the consecutive failed heartbeats and `resolved` records
      that some heartbeat came back; both are history. */
  datatype State = State(
    phase: Phase,
    session: Session,
    lanes: Lanes,
    round: Round,
    failures: nat,
    resolved: bool)

  const INIT := State(Head, INIT_SESSION, INIT_LANES, Round(true, false, false), 0, false)

  /** A request that carries the full state makes the executor known. */
  predicate Recognised(r: Round, known: bool)
  {
    known || (r.first && r.fullState)
  }

  predicate SendState(r: Round, known: bool, ackRegressed: bool)
  {
    !Recognised(r, known) || ackRegressed
  }

  function IngestAll(ls: Lanes): Lanes
  {
    Lanes(IngestLane(ls.responses, BatchSpan(ls.responses)),
          IngestLane(ls.outcomes, BatchSpan(ls.outcomes)),
          IngestLane(ls.entries, BatchSpan(ls.entries)))
  }

  /** What the server takes out of a request. */
  function LanesAfterRpc(ls: Lanes, r: Round, x: Exchange): Lanes
  {
    match x
    case Undelivered => ls
    case IngestError(a, b, c) =>
      Lanes(IngestLane(ls.responses, a), IngestLane(ls.outcomes, b), IngestLane(ls.entries, c))
    case _ => if Recognised(r, x.known) then IngestAll(ls) else ls
  }

  /** The outcome of the RPC in flight. */
  function Resolve(s: State, x: Exchange): State
  {
    var lanes := LanesAfterRpc(s.lanes, s.round, x);
    if x.Answered? then
      var sendState := SendState(s.round, x.known, x.ackRegressed);
      State(if s.round.first && sendState then Head else DrainResponses,
            OnAnswer(s.session, s.round.first, s.round.fullState, s.round.forRegistration, sendState),
            lanes, s.round, 0, true)
    else
      State(Backoff, OnFailure(s.session), lanes, s.round, s.failures + 1, true)
  }

  predicate MoreToSend(ls: Lanes)
  {
    ls.responses.hasRemaining || ls.outcomes.hasRemaining || ls.entries.hasRemaining
  }

  function NextPhase(phase: Phase, ls: Lanes): Phase
  {
    match phase
    case Head => CollectResponses
    case CollectResponses => CollectOutcomes
    case CollectOutcomes => CollectLogEntries
    case CollectLogEntries => AwaitReply
    case AwaitReply => AwaitReply
    case DrainResponses => DrainOutcomes
    case DrainOutcomes => DrainLogEntries
    case DrainLogEntries => if MoreToSend(ls) then CollectResponses else Idle
    case Backoff => Head
    case Idle => Head
  }

  /** Each collect starts from the size of the batches before it. */
  function NextLanes(phase: Phase, ls: Lanes): Lanes
  {
    match phase
    case CollectResponses => ls.(responses := CollectLane(ls.responses, 0))
    case CollectOutcomes => ls.(outcomes := CollectLane(ls.outcomes, TotalLen(ls.responses.batch)))
    case CollectLogEntries =>
      ls.(entries := CollectLane(ls.entries, TotalLen(ls.responses.batch) + TotalLen(ls.outcomes.batch)))
    case DrainResponses => ls.(responses := DrainLane(ls.responses))
    case DrainOutcomes => ls.(outcomes := DrainLane(ls.outcomes))
    case DrainLogEntries => ls.(entries := DrainLane(ls.entries))
    case _ => ls
  }

  function NextSession(phase: Phase, c: Session, first: bool): Session
  {
    match phase
    case DrainLogEntries => OnDrained(c, first)
    case Backoff => OnBackoff(c)
    case _ => c
  }

  function NextRound(phase: Phase, c: Session, r: Round): Round
  {
    match phase
    case Head => Round(true, c.sendFullState, c.sendFullState && c.conn == Registering)
    case DrainLogEntries => r.(first := false)
    case _ => r
  }

  /** Execution up to the next await. */
  function Advance(s: State): State
  {
    State(NextPhase(s.phase, s.lanes),
          NextSession(s.phase, s.session, s.round.first),
          NextLanes(s.phase, s.lanes),
          NextRound(s.phase, s.session, s.round),
          s.failures,
          s.resolved)
  }

  function Arrive(ls: Lanes, category: Category, item: Report): Lanes
  {
    match category
    case Responses => ls.(responses := PushItem(ls.responses, item))
    case Outcomes => ls.(outcomes := PushItem(ls.outcomes, item))
    case LogEntries => ls.(entries := PushItem(ls.entries, item))
  }

  function Step(s: State, e: Event): State
  {
    match e
    case Arrival(category, item) => s.(lanes := Arrive(s.lanes, category, item))
    case CommandApplied => s.(session := s.session.(commandCursor := s.session.commandCursor + 1))
    case ResultApplied => s.(session := s.session.(resultCursor := s.session.resultCursor + 1))
    case Tick => Advance(s)
    case Rpc(x) => if s.phase == AwaitReply then Resolve(s, x) else s
  }

  function Run(s: State, events: seq<Event>): State
  {
    if events == [] then s else Step(Run(s, events[..|events| - 1]), events[|events| - 1])
  }

  lemma {:induction false} RunAppend(s: State, events: seq<Event>, e: Event)
    ensures Run(s, events + [e]) == Step(Run(s, events), e)
  {
    assert (events + [e])[..|events|] == events;
  }

  lemma {:induction false} RunConcat(s: State, a: seq<Event>, b: seq<Event>)
    ensures Run(s, a + b) == Run(Run(s, a), b)
  {
    if b == [] {
      assert a + b == a;
    } else {
      var init := b[..|b| - 1];
      RunConcat(s, a, init);
      assert (a + b)[..|a + b| - 1] == a + init;
    }
  }

  // ---------------------------------------------------------------
  // Uninterrupted stretches of the loop
  // ---------------------------------------------------------------

  const TICKS: seq<Event> := [Tick, Tick, Tick]

  function CollectAll(ls: Lanes): Lanes
  {
    NextLanes(CollectLogEntries, NextLanes(CollectOutcomes, NextLanes(CollectResponses, ls)))
  }

  function DrainAll(ls: Lanes): Lanes
  {
    Lanes(DrainLane(ls.responses), DrainLane(ls.outcomes), DrainLane(ls.entries))
  }

  lemma {:induction false} CollectPhases(s: State)
    requires s.phase.CollectResponses?
    ensures Run(s, TICKS) == s.(phase := AwaitReply, lanes := CollectAll(s.lanes))
  {
    assert TICKS[..2] == [Tick, Tick] && TICKS[..2][..1] == [Tick] && [Tick][..0] == [];
    assert Run(s, [Tick]) == Advance(s);
    assert Run(s, [Tick, Tick]) == Advance(Advance(s));
  }

  lemma {:induction false} DrainPhases(s: State)
    requires s.phase.DrainResponses?
    ensures Run(s, TICKS).lanes == DrainAll(s.lanes)
    ensures !Run(s, TICKS).round.first
    ensures Run(s, TICKS).phase == if MoreToSend(DrainAll(s.lanes)) then CollectResponses else Idle
  {
    assert TICKS[..2] == [Tick, Tick] && TICKS[..2][..1] == [Tick] && [Tick][..0] == [];
    assert Run(s, [Tick]) == Advance(s);
    assert Run(s, [Tick, Tick]) == Advance(Advance(s));
  }
}
