/** Executor liveness over whole runs. A lapse pass is split where the source
    releases the queue lock: it takes the lapsed executors out of the queue in
    one step and deregisters them one by one in later steps. */
module LivenessRuns {
  import opened Basics
  import opened ExecutorLiveness

  /** `lapsing` are the executors taken out of the queue and not yet handled.
      `retried` is history: when the deregistration of an executor last failed, if it
      has not been heard from since. */
  datatype State = State(m: Manager, now: nat, lapsing: seq<ExecutorId>, retried: map<ExecutorId, nat>)

  const INIT := State(INIT_MANAGER, 0, [], map[])

  datatype Event =
    | Elapse(millis: nat)
    | Heartbeat(id: ExecutorId, fullState: Option<nat>)
    | Stopped(id: ExecutorId, fullState: Option<nat>, persisted: bool)
    | Poll(id: ExecutorId)
    | LapseScan(lapsed: seq<ExecutorId>)
    | LapseNext(persisted: bool)

  /** A heartbeat refreshes the deadline first and registers a full state next. */
  ghost function Beat(m: Manager, id: ExecutorId, fullState: Option<nat>, now: nat): Manager
  {
    var touched := Touch(m, id, now);
    if fullState.Some? then Register(touched, id, fullState.value) else touched
  }

  /** The order in which a scan pops the lapsed executors. */
  ghost predicate IsScan(q: Queue, now: nat, lapsed: seq<ExecutorId>)
  {
    && (forall id :: id in lapsed <==> Expired(q, id, now))
    && (forall i, j | 0 <= i < j < |lapsed| :: lapsed[i] != lapsed[j])
  }

  ghost function Step(s: State, e: Event): State
  {
    match e
    case Elapse(millis) => s.(now := s.now + millis)
    case Heartbeat(id, fullState) => s.(m := Beat(s.m, id, fullState, s.now), retried := s.retried - {id})
    case Stopped(id, fullState, persisted) =>
      s.(m := Deregister(Beat(s.m, id, fullState, s.now), id, persisted, s.now), retried := s.retried - {id})
    case Poll(id) => s.(m := Touch(s.m, id, s.now), retried := s.retried - {id})
    case LapseScan(lapsed) =>
      if s.lapsing == [] && IsScan(s.m.queue, s.now, lapsed)
      then s.(m := Scan(s.m, s.now), lapsing := lapsed) else s
    case LapseNext(persisted) =>
      if s.lapsing == [] then s
      else
        var id := s.lapsing[0];
        s.(m := Lapse(s.m, id, persisted, s.now),
           lapsing := s.lapsing[1..],
           retried := if Blocked(s.m, id, persisted) then s.retried[id := s.now] else s.retried - {id})
  }

  ghost function Run(s: State, events: seq<Event>): State
  {
    if events == [] then s else Step(Run(s, events[..|events| - 1]), events[|events| - 1])
  }

  // ---------------------------------------------------------------
  // Every run: tracking, wake-ups and tombstones
  // ---------------------------------------------------------------

  /** Where an executor's registration stands according to the journal. */
  datatype Phase = Out | In | Buried | Bad

  function PhaseOf(journal: seq<Record>, id: ExecutorId): Phase
  {
    if journal == [] then Out
    else
      var before := PhaseOf(journal[..|journal| - 1], id);
      match journal[|journal| - 1]
      case Registered(x) => if x != id then before else if before.Out? then In else Bad
      case Tombstoned(x) => if x != id then before else if before.In? then Buried else Bad
      case Forgotten(x) => if x != id then before else if before.Buried? then Out else Bad
  }

  /** Every registered executor has a deadline or is about to be handled by the
      lapse pass in progress. */
  predicate Tracked(s: State)
  {
    forall id | id in s.m.runtime :: id in s.m.queue || id in s.lapsing
  }

  /** The published wake-up is the earliest deadline. */
  predicate WakesInTime(m: Manager)
  {
    && (forall id | id in m.queue :: m.wakeup <= m.queue[id].at)
    && (m.queue != map[] ==> exists id | id in m.queue :: m.queue[id].at == m.wakeup)
  }

  /** Registration periods alternate with exactly one tombstone each, written
      before the runtime record is dropped. */
  ghost predicate Journaled(m: Manager)
  {
    forall id :: PhaseOf(m.journal, id) == if id in m.runtime then In else Out
  }

  lemma {:induction false} PhaseAppend(journal: seq<Record>, r: Record, id: ExecutorId)
    ensures PhaseOf(journal + [r], id) ==
            (var before := PhaseOf(journal, id);
             match r
             case Registered(x) => if x != id then before else if before.Out? then In else Bad
             case Tombstoned(x) => if x != id then before else if before.In? then Buried else Bad
             case Forgotten(x) => if x != id then before else if before.Buried? then Out else Bad)
  {
    assert (journal + [r])[..|journal|] == journal;
  }

  lemma {:induction false} RegisterJournals(m: Manager, id: ExecutorId, clock: nat)
    requires Journaled(m)
    ensures Journaled(Register(m, id, clock))
  {
    forall x ensures PhaseOf(Register(m, id, clock).journal, x) == if x in Register(m, id, clock).runtime then In else Out {
      PhaseAppend(m.journal, Registered(id), x);
    }
  }

  lemma {:induction false} DeregisterJournals(m: Manager, id: ExecutorId, persisted: bool, now: nat)
    requires Journaled(m)
    ensures Journaled(Deregister(m, id, persisted, now))
  {
    var t := Deregister(m, id, persisted, now);
    if t.journal != m.journal {
      var mid := m.journal + [Tombstoned(id)];
      assert t.journal == mid + [Forgotten(id)];
      forall x ensures PhaseOf(t.journal, x) == if x in t.runtime then In else Out {
        PhaseAppend(m.journal, Tombstoned(id), x);
        PhaseAppend(mid, Forgotten(id), x);
      }
    }
  }

  lemma {:induction false} StepJournals(s: State, e: Event)
    requires Journaled(s.m)
    ensures Journaled(Step(s, e).m)
  {
    match e
    case Heartbeat(id, fullState) =>
      if fullState.Some? { RegisterJournals(Touch(s.m, id, s.now), id, fullState.value); }
    case Stopped(id, fullState, persisted) =>
      if fullState.Some? { RegisterJournals(Touch(s.m, id, s.now), id, fullState.value); }
      DeregisterJournals(Beat(s.m, id, fullState, s.now), id, persisted, s.now);
    case LapseNext(persisted) =>
      if s.lapsing != [] { DeregisterJournals(s.m, s.lapsing[0], persisted, s.now); }
    case _ =>
  }

  lemma {:induction false} StepTracks(s: State, e: Event)
    requires Tracked(s)
    ensures Tracked(Step(s, e))
  {
  }

  lemma {:induction false} StepWakes(s: State, e: Event)
    requires s.m.queue != map[] ==> WakesInTime(s.m)
    ensures Step(s, e).m.queue != map[] ==> WakesInTime(Step(s, e).m)
  {
  }

  /** Holds after any run, whatever the interleaving. */
  lemma {:induction false} RegistrationsTracked(events: seq<Event>)
    ensures var s := Run(INIT, events);
            Tracked(s) && Journaled(s.m) && (s.m.queue != map[] ==> WakesInTime(s.m))
  {
    if events != [] {
      var init := events[..|events| - 1];
      RegistrationsTracked(init);
      StepJournals(Run(INIT, init), events[|events| - 1]);
      StepTracks(Run(INIT, init), events[|events| - 1]);
      StepWakes(Run(INIT, init), events[|events| - 1]);
    }
  }

  // ---------------------------------------------------------------
  // Every run: the deadlines
  // ---------------------------------------------------------------

  /** Thirty seconds after the executor was last heard from, or one second after its
      deregistration last failed. */
  predicate DeadlineExact(s: State, id: ExecutorId)
    requires id in s.m.queue
  {
    if id in s.retried then s.m.queue[id].at == s.retried[id] + 1_000
    else id in s.m.lastHeard && s.m.lastHeard[id] + 30_000 == s.m.queue[id].at
  }

  predicate AllDeadlinesExact(s: State)
  {
    forall id | id in s.m.queue :: DeadlineExact(s, id)
  }

  lemma {:induction false} StepDeadline(s: State, e: Event, id: ExecutorId)
    requires id in s.m.queue ==> DeadlineExact(s, id)
    requires id in Step(s, e).m.queue
    ensures DeadlineExact(Step(s, e), id)
  {
  }

  lemma {:induction false} StepDeadlines(s: State, e: Event)
    requires AllDeadlinesExact(s)
    ensures AllDeadlinesExact(Step(s, e))
  {
    var t := Step(s, e);
    forall id | id in t.m.queue
      ensures DeadlineExact(t, id)
    {
      StepDeadline(s, e, id);
    }
  }

  /** On every run each queued deadline is exactly that. */
  lemma {:induction false} DeadlinesExact(events: seq<Event>)
    ensures AllDeadlinesExact(Run(INIT, events))
  {
    if events != [] {
      DeadlinesExact(events[..|events| - 1]);
      StepDeadlines(Run(INIT, events[..|events| - 1]), events[|events| - 1]);
    }
  }

  /** A scan takes exactly the queued executors whose deadline that is has come; a
      registered executor that nobody has heard from for 30 s is among them, or the
      pass before has already taken it, or its deregistration failed less than a
      second ago. */
  lemma {:induction false} ScanTakesSilentExecutors(events: seq<Event>, lapsed: seq<ExecutorId>, id: ExecutorId)
    requires IsScan(Run(INIT, events).m.queue, Run(INIT, events).now, lapsed)
    requires id in Run(INIT, events).m.runtime
    ensures var s := Run(INIT, events);
            && (id in lapsed ==> if id in s.retried then s.retried[id] + 1_000 <= s.now
                                 else id in s.m.lastHeard && s.m.lastHeard[id] + 30_000 <= s.now)
            && (id in s.retried && s.retried[id] + 1_000 <= s.now ==> id in lapsed || id in s.lapsing)
            && (id !in s.retried && id in s.m.lastHeard && s.m.lastHeard[id] + 30_000 <= s.now ==> id in lapsed || id in s.lapsing)
  {
    DeadlinesExact(events);
    RegistrationsTracked(events);
    var s := Run(INIT, events);
    if id in s.m.queue {
      assert DeadlineExact(s, id);
    }
  }

  /** What each event does to the registration of an executor: a heartbeat with the
      full state registers it or renews its clock, an explicit stop and the turn of a
      lapse pass remove it unless the tombstone could not be written, and nothing else
      touches it. */
  lemma {:induction false} RegistrationExactly(s: State, e: Event, id: ExecutorId)
    ensures
      var before, after := s.m.runtime, Step(s, e).m.runtime;
      var turn := e.LapseNext? && s.lapsing != [] && s.lapsing[0] == id;
      && (e.Heartbeat? && e.id == id && e.fullState.Some? ==> id in after && after[id] == e.fullState.value)
      && (((e.Stopped? && e.id == id) || turn) && e.persisted ==> id !in after && id !in Step(s, e).m.queue)
      && (e.Stopped? && e.id == id && !e.persisted ==>
            (id in after <==> id in before || e.fullState.Some?) && (id in after ==> id in Step(s, e).m.queue))
      && (turn && !e.persisted ==> (id in after <==> id in before) && (id in before ==> after[id] == before[id]))
      && (!turn && !(e.Stopped? && e.id == id) && !(e.Heartbeat? && e.id == id && e.fullState.Some?) ==>
            (id in after <==> id in before) && (id in before ==> after[id] == before[id]))
  {
  }

  /** When the last deadline goes, the monitor sleeps for a day. */
  lemma {:induction false} EmptyQueueSleeps(s: State, e: Event)
    requires s.m.queue != map[] && Step(s, e).m.queue == map[]
    ensures Step(s, e).m.wakeup == s.now + 24 * 60 * 60 * 1_000
  {
  }

  function Count(journal: seq<Record>, r: Record): nat
  {
    if journal == [] then 0
    else Count(journal[..|journal| - 1], r) + if journal[|journal| - 1] == r then 1 else 0
  }

  lemma {:induction false} PhaseCounts(journal: seq<Record>, id: ExecutorId)
    requires !PhaseOf(journal, id).Bad?
    ensures Count(journal, Registered(id))
         == Count(journal, Tombstoned(id)) + (if PhaseOf(journal, id).In? then 1 else 0)
    ensures Count(journal, Registered(id))
         == Count(journal, Forgotten(id)) + (if PhaseOf(journal, id).Out? then 0 else 1)
  {
    if journal != [] {
      PhaseCounts(journal[..|journal| - 1], id);
    }
  }

  /** A record out of turn spoils the journal for good. */
  lemma {:induction false} InTurnThroughout(journal: seq<Record>, id: ExecutorId, k: nat)
    requires !PhaseOf(journal, id).Bad? && k <= |journal|
    ensures !PhaseOf(journal[..k], id).Bad?
  {
    if k == |journal| {
      assert journal[..k] == journal;
    } else {
      assert journal[..|journal| - 1][..k] == journal[..k];
      InTurnThroughout(journal[..|journal| - 1], id, k);
    }
  }

  /** On every run the journal of an executor is registered, tombstoned, forgotten,
      registered, and so on, in this order and never out of turn: every period but
      the current one has ended with exactly one tombstone, written before the
      runtime record was dropped. */
  lemma {:induction false} OneTombstonePerRegistration(events: seq<Event>, id: ExecutorId)
    ensures var m := Run(INIT, events).m;
            && Count(m.journal, Registered(id)) == Count(m.journal, Tombstoned(id)) + (if id in m.runtime then 1 else 0)
            && PhaseOf(m.journal, id) == (if id in m.runtime then In else Out)
            && forall k: nat | k <= |m.journal| :: !PhaseOf(m.journal[..k], id).Bad?
  {
    RegistrationsTracked(events);
    var journal := Run(INIT, events).m.journal;
    PhaseCounts(journal, id);
    forall k: nat | k <= |journal|
      ensures !PhaseOf(journal[..k], id).Bad?
    {
      InTurnThroughout(journal, id, k);
    }
  }

  // ---------------------------------------------------------------
  // Who is deregistered by a lapse pass
  // ---------------------------------------------------------------

  /** No deadline comes before the executor has been silent for the timeout, and
      every executor being lapsed has been. */
  predicate Honoured(s: State)
  {
    && (forall id | id in s.m.queue ::
          id in s.m.lastHeard && s.m.lastHeard[id] + EXECUTOR_TIMEOUT <= s.m.queue[id].at)
    && (forall id | id in s.lapsing ::
          id in s.m.lastHeard && s.m.lastHeard[id] + EXECUTOR_TIMEOUT <= s.now)
  }

  /** An executor is heard from after the pass took it out of the queue and before
      the pass gets to it. */
  predicate Overtaken(s: State, e: Event)
  {
    (e.Heartbeat? || e.Stopped? || e.Poll?) && e.id in s.lapsing
  }

  /** A step keeps the timeout honoured exactly when no executor overtakes the
      lapse pass that is about to deregister it. */
  lemma {:induction false} StepHonours(s: State, e: Event)
    requires Honoured(s)
    ensures Honoured(Step(s, e)) <==> !Overtaken(s, e)
  {
    match e
    case Heartbeat(_, _) => HeardHonours(s, e);
    case Stopped(_, _, _) => HeardHonours(s, e);
    case Poll(_) => HeardHonours(s, e);
    case Elapse(_) =>
    case LapseScan(_) =>
    case LapseNext(_) =>
      if s.lapsing != [] {
        assert s.lapsing[0] in s.lapsing;
        assert forall id :: id in s.lapsing[1..] ==> id in s.lapsing;
      }
  }

  lemma {:induction false} HeardHonours(s: State, e: Event)
    requires Honoured(s) && (e.Heartbeat? || e.Stopped? || e.Poll?)
    ensures Honoured(Step(s, e)) <==> e.id !in s.lapsing
  {
    var t := Step(s, e);
    assert t.now == s.now && t.lapsing == s.lapsing && t.m.lastHeard == s.m.lastHeard[e.id := s.now];
  }

  ghost predicate NeverOvertaken(events: seq<Event>)
  {
    forall k: nat | k < |events| :: !Overtaken(Run(INIT, events[..k]), events[k])
  }

  lemma {:induction false} TimeoutHonoured(events: seq<Event>)
    requires NeverOvertaken(events)
    ensures Honoured(Run(INIT, events))
  {
    if events != [] {
      var n := |events| - 1;
      assert NeverOvertaken(events[..n]) by {
        forall k: nat | k < n ensures !Overtaken(Run(INIT, events[..n][..k]), events[..n][k]) {
          assert events[..n][..k] == events[..k];
        }
      }
      TimeoutHonoured(events[..n]);
      StepHonours(Run(INIT, events[..n]), events[n]);
    }
  }

  lemma {:induction false} LapseRemovesFirst(s: State, persisted: bool, id: ExecutorId)
    requires id in s.m.runtime && id !in Step(s, LapseNext(persisted)).m.runtime
    ensures id in s.lapsing
  {
  }

  /** When nobody overtakes a pass, a lapse step removes a registration only after
      the full timeout of silence. */
  lemma {:induction false} OnlySilentExecutorsLapse(events: seq<Event>, persisted: bool, id: ExecutorId)
    requires NeverOvertaken(events)
    requires var s := Run(INIT, events); id in s.m.runtime && id !in Step(s, LapseNext(persisted)).m.runtime
    ensures var s := Run(INIT, events);
            id in s.m.lastHeard && s.m.lastHeard[id] + EXECUTOR_TIMEOUT <= s.now
  {
    TimeoutHonoured(events);
    LapseRemovesFirst(Run(INIT, events), persisted, id);
  }

  predicate About(e: Event, id: ExecutorId)
  {
    (e.Heartbeat? || e.Stopped? || e.Poll?) && e.id == id
  }

  predicate IsTurn(s: State, e: Event, id: ExecutorId)
  {
    e.LapseNext? && s.lapsing != [] && s.lapsing[0] == id
  }

  /** Nothing about the executor happens, and the pass does not get to it. */
  ghost predicate Bypassed(s: State, events: seq<Event>, id: ExecutorId)
  {
    if events == [] then true
    else
      var init, last := events[..|events| - 1], events[|events| - 1];
      Bypassed(s, init, id) && !About(last, id) && !IsTurn(Run(s, init), last, id)
  }

  predicate Doomed(s: State, id: ExecutorId, heard: nat)
  {
    id in s.lapsing && id in s.m.runtime && id in s.m.lastHeard && s.m.lastHeard[id] == heard
  }

  lemma {:induction false} DoomedStep(s: State, e: Event, id: ExecutorId, heard: nat)
    requires Doomed(s, id, heard) && !About(e, id) && !IsTurn(s, e, id)
    ensures Doomed(Step(s, e), id, heard)
  {
  }

  lemma {:induction false} StaysDoomed(s: State, events: seq<Event>, id: ExecutorId, heard: nat)
    requires Doomed(s, id, heard) && Bypassed(s, events, id)
    ensures Doomed(Run(s, events), id, heard)
  {
    if events != [] {
      StaysDoomed(s, events[..|events| - 1], id, heard);
      DoomedStep(Run(s, events[..|events| - 1]), events[|events| - 1], id, heard);
    }
  }

  /** An executor that overtakes the pass, wherever it stands in it, is deregistered
      when its turn comes, however short ago it was heard from, or gets one second
      instead of thirty; whatever the others do meanwhile. */
  lemma {:induction false} OvertakenExecutorLapses(s: State, e: Event, events: seq<Event>, persisted: bool)
    requires (e.Heartbeat? || e.Poll?) && Overtaken(s, e) && e.id in Step(s, e).m.runtime
    requires Bypassed(Step(s, e), events, e.id)
    requires IsTurn(Run(Step(s, e), events), LapseNext(persisted), e.id)
    ensures var t := Step(Run(Step(s, e), events), LapseNext(persisted));
            && e.id in t.m.lastHeard && t.m.lastHeard[e.id] == s.now
            && (persisted ==> e.id !in t.m.runtime && e.id !in t.m.queue)
            && (!persisted ==> e.id in t.m.queue && t.m.queue[e.id].at == t.now + REQUEUE_DELAY)
  {
    StaysDoomed(Step(s, e), events, e.id, s.now);
  }

  lemma {:induction false} OvertakingIsReachable(id: ExecutorId) returns (events: seq<Event>)
    ensures var s := Run(INIT, events); s.lapsing == [id] && id in s.m.runtime
  {
    events := [Heartbeat(id, Some(0)), Elapse(EXECUTOR_TIMEOUT), LapseScan([id])];
    assert events[..2] == [events[0], events[1]] && events[..2][..1] == [events[0]] && [events[0]][..0] == [];
    var s1 := Step(INIT, events[0]);
    var s2 := Step(s1, events[1]);
    assert Run(INIT, [events[0]]) == s1;
    assert Run(INIT, events[..2]) == s2;
    assert s2.m.queue == map[id := ReverseInstant(EXECUTOR_TIMEOUT)];
    assert IsScan(s2.m.queue, s2.now, [id]);
  }
}
