/** Which reports the server is handed more than once. */
module ReportDuplicates {
  import opened StateReporter
  import opened ConnectionSession
  import opened Heartbeat
  import opened ReportDelivery

  /** The positions taken by some delivery of the log. */
  function TakenBy(log: seq<Delivery>): set<nat>
  {
    if log == [] then {} else TakenBy(log[..|log| - 1]) + log[|log| - 1].taken
  }

  lemma {:induction false} TakenByAppend(log: seq<Delivery>, d: Delivery)
    ensures TakenBy(log + [d]) == TakenBy(log) + d.taken
  {
    assert (log + [d])[..|log|] == log;
  }

  // ---------------------------------------------------------------
  // The log, on every run
  // ---------------------------------------------------------------

  /** A delivery carries a stretch of the accepted reports, in order, and the server
      takes nothing outside it. */
  predicate Genuine(l: Lane, d: Delivery)
  {
    && d.start <= |l.drained|
    && d.start + |d.items| <= |l.accepted|
    && d.items == l.accepted[d.start..d.start + |d.items|]
    && d.taken <= Span(d.start, d.start + |d.items|)
  }

  predicate StartsAscend(log: seq<Delivery>)
  {
    forall m, n | 0 <= m < n < |log| :: log[m].start <= log[n].start
  }

  ghost predicate Logged(l: Lane)
  {
    && l.ingested == TakenBy(l.deliveries)
    && (forall d | d in l.deliveries :: Genuine(l, d))
    && StartsAscend(l.deliveries)
  }

  lemma {:induction false} IngestLogs(l: Lane, from: Stage, positions: set<nat>)
    requires Logged(l) && Conserved(l, from) && from.InFlight?
    ensures Logged(IngestLane(l, positions))
  {
    var t := IngestLane(l, positions);
    var d := Delivery(|l.drained|, l.batch, positions * BatchSpan(l));
    TakenByAppend(l.deliveries, d);
    assert l.accepted[d.start..d.start + |d.items|] == l.batch;
    forall x | x in t.deliveries
      ensures Genuine(t, x)
    {
      assert x == d || (x in l.deliveries && Genuine(l, x));
    }
    forall m, n | 0 <= m < n < |t.deliveries|
      ensures t.deliveries[m].start <= t.deliveries[n].start
    {
      assert t.deliveries[m] == l.deliveries[m] && Genuine(l, l.deliveries[m]);
    }
  }

  lemma {:induction false} OpLogs(l: Lane, from: Stage, op: LaneOp, to: Stage)
    requires Logged(l) && Conserved(l, from) && Fits(op, from, to)
    ensures Logged(Apply(l, op))
  {
    match op
    case Ingest(positions) => IngestLogs(l, from, positions);
    case Push(item) =>
      var t := PushItem(l, item);
      forall d | d in l.deliveries
        ensures Genuine(t, d)
      {
        assert Genuine(l, d);
        assert t.accepted[d.start..d.start + |d.items|] == l.accepted[d.start..d.start + |d.items|];
      }
    case _ =>
      var t := Apply(l, op);
      forall d | d in l.deliveries
        ensures Genuine(t, d)
      {
        assert Genuine(l, d);
      }
  }

  /** On every run, whatever fails: the ingested reports are those the log says, each
      delivery carries a stretch of the accepted reports, and a later delivery never
      starts before an earlier one. */
  lemma {:induction false} DeliveriesLogged(events: seq<Event>, c: Category)
    ensures Logged(GetLane(Run(INIT, events).lanes, c))
  {
    if events != [] {
      var init, last := events[..|events| - 1], events[|events| - 1];
      var s := Run(INIT, init);
      DeliveriesLogged(init, c);
      ReportsConserved(init, c);
      StepOnLane(s, last, c);
      OpLogs(GetLane(s.lanes, c), LaneStage(s.phase, c), StepOp(s, last, c), LaneStage(Step(s, last).phase, c));
    }
  }

  // ---------------------------------------------------------------
  // Duplicates
  // ---------------------------------------------------------------

  /** What the delivery repeats is an initial segment of what it delivers. */
  predicate RepeatsFront(before: set<nat>, d: Delivery)
  {
    forall i, j | i in d.taken && j in d.taken && i < j && j in before :: i in before
  }

  /** Everything before the delivery was ingested earlier: it starts no later than
      where the ingested reports end. */
  ghost predicate Adjoins(before: set<nat>, d: Delivery)
  {
    forall i: nat | i < d.start :: i in before
  }

  /** Every delivery of the log, against those before it. */
  ghost predicate Resends(log: seq<Delivery>)
  {
    forall n | 0 <= n < |log| :: RepeatsFront(TakenBy(log[..n]), log[n]) && Adjoins(TakenBy(log[..n]), log[n])
  }

  ghost predicate RepeatsFronts(log: seq<Delivery>)
  {
    forall n | 0 <= n < |log| :: RepeatsFront(TakenBy(log[..n]), log[n])
  }

  lemma {:induction false} IngestResends(l: Lane, from: Stage, positions: set<nat>)
    requires Logged(l) && Covered(l, from) && Prefix(l) && Resends(l.deliveries)
    ensures Resends(IngestLane(l, positions).deliveries)
  {
    var log := IngestLane(l, positions).deliveries;
    forall n | 0 <= n < |log|
      ensures RepeatsFront(TakenBy(log[..n]), log[n]) && Adjoins(TakenBy(log[..n]), log[n])
    {
      if n < |l.deliveries| {
        assert log[..n] == l.deliveries[..n];
      } else {
        assert log[..n] == l.deliveries;
      }
    }
  }

  /** Duplicates are re-sent prefixes: on every run that stays sound, what a
      delivery repeats is an initial segment of it, and no delivery leaves a gap
      after what was ingested before. */
  lemma {:induction false} DuplicatesAreResentPrefixes(events: seq<Event>, c: Category)
    requires NeverBreaks(events, c)
    ensures Resends(GetLane(Run(INIT, events).lanes, c).deliveries)
  {
    if events != [] {
      var init, last := events[..|events| - 1], events[|events| - 1];
      var s := Run(INIT, init);
      DuplicatesAreResentPrefixes(init, c);
      SoundExactly(init, c);
      DeliveriesLogged(init, c);
      StepOnLane(s, last, c);
      var op := StepOp(s, last, c);
      if op.Ingest? {
        IngestResends(GetLane(s.lanes, c), LaneStage(s.phase, c), op.positions);
      }
    }
  }

  // ---------------------------------------------------------------
  // Without partial ingestion
  // ---------------------------------------------------------------

  predicate Whole(d: Delivery)
  {
    d.taken == Span(d.start, d.start + |d.items|)
  }

  predicate AllWhole(log: seq<Delivery>)
  {
    forall d | d in log :: Whole(d)
  }

  lemma {:induction false} TakenOf(log: seq<Delivery>, j: nat) returns (m: nat)
    requires j in TakenBy(log)
    ensures m < |log| && j in log[m].taken
  {
    m := |log| - 1;
    if j !in log[m].taken {
      m := TakenOf(log[..m], j);
    }
  }

  lemma {:induction false} TakenIn(log: seq<Delivery>, m: nat, i: nat)
    requires m < |log| && i in log[m].taken
    ensures i in TakenBy(log)
  {
    if m < |log| - 1 {
      TakenIn(log[..|log| - 1], m, i);
    }
  }

  /** When requests are ingested whole or not at all, what a delivery repeats is an
      initial segment of it even if fragments were forgotten in between. */
  lemma {:induction false} WholeDeliveriesRepeatFronts(events: seq<Event>, c: Category)
    requires AllWhole(GetLane(Run(INIT, events).lanes, c).deliveries)
    ensures RepeatsFronts(GetLane(Run(INIT, events).lanes, c).deliveries)
  {
    DeliveriesLogged(events, c);
    var l := GetLane(Run(INIT, events).lanes, c);
    var log := l.deliveries;
    forall n | 0 <= n < |log|
      ensures RepeatsFront(TakenBy(log[..n]), log[n])
    {
      WholeRepeatsFront(log, n);
    }
  }

  lemma {:induction false} WholeRepeatsFront(log: seq<Delivery>, n: nat)
    requires AllWhole(log) && StartsAscend(log) && n < |log|
    ensures RepeatsFront(TakenBy(log[..n]), log[n])
  {
    forall i, j | i in log[n].taken && j in log[n].taken && i < j && j in TakenBy(log[..n])
      ensures i in TakenBy(log[..n])
    {
      var m := TakenOf(log[..n], j);
      assert Whole(log[m]) && Whole(log[n]) && log[m].start <= log[n].start;
      TakenIn(log[..n], m, i);
    }
  }

  // ---------------------------------------------------------------
  // A hole makes a duplicate in the middle
  // ---------------------------------------------------------------

  /** After a partial ingestion that skipped the first of two reports, the next
      request delivers both: it repeats the second and not the first. */
  lemma {:induction false} HoleMakesDuplicateInside() returns (events: seq<Event>)
    ensures var l := Run(INIT, events).lanes.responses;
            |l.deliveries| == 2 && !RepeatsFront(TakenBy(l.deliveries[..1]), l.deliveries[1])
  {
    var s, start := PartialIngestLeavesHole();
    HoleOfTwo(Report("", 1));
    var again, back := Retries(s);
    RunConcat(INIT, start, back);
    var t, more := AnsweredFragment(again, true);
    RunConcat(INIT, start + back, more);
    events := start + back + more;
    SecondDelivery(again.lanes.responses, t.lanes.responses);
  }

  /** After a failure: the backoff ends and the next round begins. */
  lemma {:induction false} Retries(s: State) returns (t: State, events: seq<Event>)
    requires s.phase.Backoff?
    ensures t == Run(s, events) && t.phase.CollectResponses? && t.lanes == s.lanes
  {
    RunAppend(s, [], Tick);
    RunAppend(s, [Tick], Tick);
    assert [] + [Tick] == [Tick];
    t, events := Advance(Advance(s)), [Tick] + [Tick];
  }

  lemma {:induction false} SecondDelivery(l: Lane, t: Lane)
    requires l.pending == [Report("", 1), Report("", 1)] && l.drained == []
    requires l.deliveries == [Delivery(0, [Report("", 1), Report("", 1)], {1})]
    requires t == AfterFragment(l, true)
    ensures |t.deliveries| == 2 && !RepeatsFront(TakenBy(t.deliveries[..1]), t.deliveries[1])
  {
    BatchOfTwo(Report("", 1));
    var d := t.deliveries[1];
    assert t.deliveries[..1] == l.deliveries && l.deliveries[..0] == [];
    TakenByAppend([], l.deliveries[0]);
    assert [] + [l.deliveries[0]] == l.deliveries;
    assert 0 in d.taken && 1 in d.taken;
  }
}
