/** The heartbeat loop in its own form: nested loops over mutable buffers and
    shared cursors. A script of events stands for the scheduler, the report
    producers, the poll loops and the network; the loop is proved to follow the
    step system of module Heartbeat on every script. */
module HeartbeatLoop {
  import opened StateReporter
  import opened ConnectionSession
  import opened Heartbeat

  /** The states the step system goes through on a script. */
  ghost predicate IsTrace(script: seq<Event>, trace: seq<State>)
  {
    && |trace| == |script| + 1
    && forall i: nat | i < |script| :: Linked(script, trace, i)
  }

  ghost predicate Linked(script: seq<Event>, trace: seq<State>, i: nat)
    requires i < |script| && |trace| == |script| + 1
  {
    trace[i + 1] == Step(trace[i], script[i])
  }

  ghost function TraceOf(script: seq<Event>): (trace: seq<State>)
    ensures IsTrace(script, trace)
    ensures trace[0] == INIT && trace[|script|] == Run(INIT, script)
  {
    if script == [] then [INIT] else
      var init := script[..|script| - 1];
      var trace := TraceOf(init) + [Run(INIT, script)];
      assert forall i: nat | i < |init| :: Linked(init, TraceOf(init), i) ==> Linked(script, trace, i);
      trace
  }

  lemma {:induction false} TickLink(script: seq<Event>, trace: seq<State>, pos: nat)
    requires IsTrace(script, trace)
    requires pos < |script| && script[pos].Tick?
    ensures trace[pos + 1] == Advance(trace[pos])
  {
    assert Linked(script, trace, pos);
  }

  lemma {:induction false} RpcLink(script: seq<Event>, trace: seq<State>, pos: nat)
    requires IsTrace(script, trace)
    requires pos < |script| && script[pos].Rpc?
    requires trace[pos].phase.AwaitReply?
    ensures trace[pos + 1] == Resolve(trace[pos], script[pos].exchange)
  {
    assert Linked(script, trace, pos);
  }

  /** The loop's own position is not affected by reports and acknowledgements. */
  predicate SamePosition(s: State, t: State)
  {
    && s.phase == t.phase && s.round == t.round
    && s.session.sendFullState == t.session.sendFullState
    && s.session.retrySecs == t.session.retrySecs
    && SameBatch(s.lanes.responses, t.lanes.responses)
    && SameBatch(s.lanes.outcomes, t.lanes.outcomes)
    && SameBatch(s.lanes.entries, t.lanes.entries)
  }

  predicate SameBatch(l: Lane, m: Lane)
  {
    l.batch == m.batch && l.hasRemaining == m.hasRemaining
  }

  /** Where a fragment leaves the loop, and what it made of the session. */
  ghost predicate FragmentEnd(s: State, t: State, failed: bool, serverNeedsState: bool, more: bool)
  {
    && t.phase == (if failed then Backoff else if serverNeedsState then Head else if more then CollectResponses else Idle)
    && t.session.sendFullState == (if failed then s.session.sendFullState else serverNeedsState)
    && t.session.retrySecs == (if failed then s.session.retrySecs else MIN_RETRY_SECS)
    && (!failed && !serverNeedsState ==> t.round == s.round.(first := false))
  }

  /** The fields of `ServiceRuntime` that the loop and its environment share. */
  class ServiceRuntime {
    const responses: PendingBuffer
    const outcomes: PendingBuffer
    const activities: PendingBuffer
    var conn: ConnectionState
    var heartbeatHealthy: bool
    var lastAppliedCommandSeq: nat
    var lastAppliedResultSeq: nat

    ghost predicate Valid()
    {
      responses != outcomes && responses != activities && outcomes != activities
    }

    constructor ()
      ensures Valid() && Mirrors(INIT)
      ensures fresh(responses) && fresh(outcomes) && fresh(activities)
    {
      responses := new PendingBuffer();
      outcomes := new PendingBuffer();
      activities := new PendingBuffer();
      conn := Registering;
      heartbeatHealthy := false;
      lastAppliedCommandSeq := 0;
      lastAppliedResultSeq := 0;
    }

    ghost predicate Mirrors(s: State)
      reads this, responses, outcomes, activities
    {
      MirrorsBuffers(s.lanes) && MirrorsSession(s.session)
    }

    ghost predicate MirrorsBuffers(ls: Lanes)
      reads responses, outcomes, activities
    {
      && responses.items == ls.responses.pending
      && outcomes.items == ls.outcomes.pending
      && activities.items == ls.entries.pending
    }

    ghost predicate MirrorsSession(c: Session)
      reads this
    {
      && conn == c.conn
      && heartbeatHealthy == c.healthy
      && lastAppliedCommandSeq == c.commandCursor
      && lastAppliedResultSeq == c.resultCursor
    }

    /** One event that is not addressed to the loop. */
    method Interfere(e: Event, ghost s: State)
      requires Valid()
      requires Mirrors(s)
      requires if s.phase.AwaitReply? then !e.Rpc? else !e.Tick?
      modifies this, responses, outcomes, activities
      ensures Mirrors(Step(s, e))
      ensures SamePosition(s, Step(s, e))
    {
      match e {
        case Arrival(category, item) =>
          match category {
            case Responses => responses.Push(item);
            case Outcomes => outcomes.Push(item);
            case LogEntries => activities.Push(item);
          }
        case CommandApplied => lastAppliedCommandSeq := lastAppliedCommandSeq + 1;
        case ResultApplied => lastAppliedResultSeq := lastAppliedResultSeq + 1;
        case Tick =>
        case Rpc(_) =>
      }
    }

    /** Suspend until the event the loop waits for; meanwhile reports arrive and
        the poll loops advance their cursors. */
    method Await(script: seq<Event>, start: nat, rpc: bool, ghost trace: seq<State>) returns (pos: nat)
      requires Valid()
      requires IsTrace(script, trace)
      requires start <= |script| && Mirrors(trace[start])
      requires trace[start].phase.AwaitReply? == rpc
      modifies this, responses, outcomes, activities
      ensures start <= pos <= |script| && Mirrors(trace[pos])
      ensures pos < |script| ==> if rpc then script[pos].Rpc? else script[pos].Tick?
      ensures SamePosition(trace[start], trace[pos])
    {
      pos := start;
      while pos < |script| && !(if rpc then script[pos].Rpc? else script[pos].Tick?)
        invariant start <= pos <= |script| && Mirrors(trace[pos])
        invariant SamePosition(trace[start], trace[pos])
      {
        assert Linked(script, trace, pos);
        Interfere(script[pos], trace[pos]);
        pos := pos + 1;
      }
    }

    /** Collect from one buffer, starting from the size of the earlier batches.
        `done` is false when the script ended first. */
    method CollectStage(script: seq<Event>, start: nat, category: Category, base: nat, ghost trace: seq<State>)
      returns (done: bool, pos: nat, batch: seq<Report>, hasRemaining: bool)
      requires Valid()
      requires IsTrace(script, trace)
      requires start <= |script| && Mirrors(trace[start])
      requires trace[start].phase == CollectPhase(category)
      requires base == CollectBase(category, trace[start].lanes)
      modifies this, responses, outcomes, activities
      ensures start <= pos <= |script| && Mirrors(trace[pos])
      ensures !done ==> pos == |script|
      ensures done ==> start < pos && Collected(trace[start], trace[pos], category, batch, hasRemaining)
    {
      done, batch, hasRemaining := false, [], false;
      pos := Await(script, start, false, trace);
      if pos == |script| { return; }
      TickLink(script, trace, pos);
      var count;
      match category {
        case Responses => batch, count, hasRemaining := responses.Collect(base);
        case Outcomes => batch, count, hasRemaining := outcomes.Collect(base);
        case LogEntries => batch, count, hasRemaining := activities.Collect(base);
      }
      done, pos := true, pos + 1;
    }

    /** The three chained collects of one fragment. */
    method CollectFragment(script: seq<Event>, start: nat, ghost trace: seq<State>)
      returns (done: bool, pos: nat, counts: (nat, nat, nat), more: bool)
      requires Valid()
      requires IsTrace(script, trace)
      requires start <= |script| && Mirrors(trace[start])
      requires trace[start].phase.CollectResponses?
      modifies this, responses, outcomes, activities
      ensures start <= pos <= |script| && Mirrors(trace[pos])
      ensures !done ==> pos == |script|
      ensures done ==> start < pos && InRpc(trace[start], trace[pos], counts, more)
    {
      counts, more := (0, 0, 0), false;
      var resp, out, log, respRemaining, outRemaining, logRemaining;
      done, pos, resp, respRemaining := CollectStage(script, start, Responses, 0, trace);
      if !done { return; }
      done, pos, out, outRemaining := CollectStage(script, pos, Outcomes, TotalLen(resp), trace);
      if !done { return; }
      done, pos, log, logRemaining := CollectStage(script, pos, LogEntries, TotalLen(resp) + TotalLen(out), trace);
      counts, more := (|resp|, |out|, |log|), respRemaining || outRemaining || logRemaining;
    }

    /** Drain one buffer by the number of items that were sent from it. After the
        last buffer of a first fragment the connection is ready. */
    method DrainStage(script: seq<Event>, start: nat, category: Category, count: nat, first: bool, ghost trace: seq<State>)
      returns (done: bool, pos: nat)
      requires Valid()
      requires IsTrace(script, trace)
      requires start <= |script| && Mirrors(trace[start])
      requires trace[start].phase == DrainPhase(category)
      requires count == |GetLane(trace[start].lanes, category).batch|
      requires first == trace[start].round.first
      modifies this, responses, outcomes, activities
      ensures start <= pos <= |script| && Mirrors(trace[pos])
      ensures !done ==> pos == |script|
      ensures done ==> start < pos && Drained(trace[start], trace[pos], category)
    {
      done := false;
      pos := Await(script, start, false, trace);
      if pos == |script| { return; }
      TickLink(script, trace, pos);
      match category {
        case Responses => responses.DrainSent(count);
        case Outcomes => outcomes.DrainSent(count);
        case LogEntries =>
          activities.DrainSent(count);
          if first {
            heartbeatHealthy, conn := true, Ready;
          }
      }
      done, pos := true, pos + 1;
    }

    /** The three drains of an accepted fragment. */
    method DrainFragment(script: seq<Event>, start: nat, counts: (nat, nat, nat), first: bool, ghost trace: seq<State>)
      returns (done: bool, pos: nat)
      requires Valid()
      requires IsTrace(script, trace)
      requires start <= |script| && Mirrors(trace[start])
      requires trace[start].phase.DrainResponses?
      requires counts == BatchCounts(trace[start].lanes)
      requires first == trace[start].round.first
      modifies this, responses, outcomes, activities
      ensures start <= pos <= |script| && Mirrors(trace[pos])
      ensures !done ==> pos == |script|
      ensures done ==> start < pos && Accepted(trace[start], trace[pos])
    {
      done, pos := DrainStage(script, start, Responses, counts.0, first, trace);
      if !done { return; }
      done, pos := DrainStage(script, pos, Outcomes, counts.1, first, trace);
      if !done { return; }
      done, pos := DrainStage(script, pos, LogEntries, counts.2, first, trace);
    }

    /** The reply of one request, as the loop sees it: an error, or an answer
        whose `sendState` flag it reads only on the first fragment. */
    method HandleReply(exchange: Exchange, round: Round, ghost s: State)
      returns (failed: bool, serverNeedsState: bool)
      requires MirrorsSession(s.session)
      requires s.phase.AwaitReply? && s.round == round
      modifies this
      ensures MirrorsSession(Resolve(s, exchange).session)
      ensures failed == !exchange.Answered?
      ensures serverNeedsState == (exchange.Answered? && round.first && SendState(round, exchange.known, exchange.ackRegressed))
    {
      failed, serverNeedsState := false, false;
      if exchange.Answered? {
        if round.first && round.fullState && round.forRegistration {
          lastAppliedCommandSeq := 0;
          lastAppliedResultSeq := 0;
        }
        serverNeedsState := if round.first then SendState(round, exchange.known, exchange.ackRegressed) else false;
        if serverNeedsState {
          conn := Registering;
        }
      } else {
        heartbeatHealthy := false;
        conn := Unhealthy;
        failed := true;
      }
    }

    /** One fragment: collect, send, and drain what was accepted. */
    method SendFragment(script: seq<Event>, start: nat, round: Round, ghost trace: seq<State>)
      returns (done: bool, pos: nat, failed: bool, serverNeedsState: bool, more: bool)
      requires Valid()
      requires IsTrace(script, trace)
      requires start <= |script| && Mirrors(trace[start])
      requires trace[start].phase.CollectResponses? && trace[start].round == round
      modifies this, responses, outcomes, activities
      ensures start <= pos <= |script| && Mirrors(trace[pos])
      ensures if done then start < pos else pos == |script|
      ensures done ==> FragmentEnd(trace[start], trace[pos], failed, serverNeedsState, more)
    {
      failed, serverNeedsState := false, false;
      var counts;
      done, pos, counts, more := CollectFragment(script, start, trace);
      if !done { return; }
      pos := Await(script, pos, true, trace);
      if pos == |script| { done := false; return; }
      RpcLink(script, trace, pos);
      failed, serverNeedsState := HandleReply(script[pos].exchange, round, trace[pos]);
      pos := pos + 1;
      if failed || serverNeedsState { return; }
      done, pos := DrainFragment(script, pos, counts, round.first, trace);
    }

    /** The fragment loop of one heartbeat: send fragments until the buffers are
        drained, an error occurs, or the server asks for the full state. */
    method SendFragments(script: seq<Event>, start: nat, fullState: bool, forRegistration: bool, ghost trace: seq<State>)
      returns (done: bool, pos: nat, heartbeatFailed: bool, sendFullState: bool, answered: bool)
      requires Valid()
      requires IsTrace(script, trace)
      requires start <= |script| && Mirrors(trace[start])
      requires trace[start].phase.CollectResponses?
      requires trace[start].round == Round(true, fullState, forRegistration)
      requires trace[start].session.sendFullState == fullState
      modifies this, responses, outcomes, activities
      ensures start <= pos <= |script| && Mirrors(trace[pos])
      ensures !done ==> pos == |script|
      ensures done ==> start < pos
      ensures done ==> trace[pos].phase == if heartbeatFailed then Backoff else if sendFullState then Head else Idle
      ensures done ==> trace[pos].session.sendFullState == sendFullState
      ensures done ==> trace[pos].session.retrySecs == if answered then MIN_RETRY_SECS else trace[start].session.retrySecs
    {
      done, pos, heartbeatFailed, sendFullState, answered := true, start, false, fullState, false;
      var round := Round(true, fullState, forRegistration);
      while true
        invariant start <= pos <= |script| && Mirrors(trace[pos])
        invariant trace[pos].phase.CollectResponses?
        invariant trace[pos].round == round
        invariant trace[pos].session.sendFullState == sendFullState
        invariant trace[pos].session.retrySecs == if answered then MIN_RETRY_SECS else trace[start].session.retrySecs
        invariant done && !heartbeatFailed
        decreases |script| - pos
      {
        var serverNeedsState, more;
        done, pos, heartbeatFailed, serverNeedsState, more := SendFragment(script, pos, round, trace);
        if !done || heartbeatFailed { return; }
        answered := true;
        sendFullState := serverNeedsState;
        if serverNeedsState { return; }
        round := round.(first := false);
        if !more { return; }
      }
    }

    /** The whole heartbeat loop. It stops where the script stops, as it does when
        it is cancelled at an await. */
    method RunHeartbeatLoop(script: seq<Event>)
      requires Valid()
      requires Mirrors(INIT)
      modifies this, responses, outcomes, activities
      ensures Mirrors(Run(INIT, script))
    {
      ghost var trace := TraceOf(script);
      var retrySecs := MIN_RETRY_SECS;
      var sendFullState := false;
      var pos := 0;
      while true
        invariant 0 <= pos <= |script| && Mirrors(trace[pos])
        invariant trace[pos].phase.Head?
        invariant trace[pos].session.sendFullState == sendFullState
        invariant trace[pos].session.retrySecs == retrySecs
        decreases |script| - pos
      {
        pos := Await(script, pos, false, trace);
        if pos == |script| { return; }
        var forRegistration := sendFullState && conn == Registering;
        TickLink(script, trace, pos);
        pos := pos + 1;

        var done, heartbeatFailed, answered;
        done, pos, heartbeatFailed, sendFullState, answered :=
          SendFragments(script, pos, sendFullState, forRegistration, trace);
        if !done { return; }
        if answered {
          retrySecs := MIN_RETRY_SECS;
        }
        if !heartbeatFailed && sendFullState {
          continue;
        }
        pos := Await(script, pos, false, trace);
        if pos == |script| { return; }
        TickLink(script, trace, pos);
        pos := pos + 1;
        if heartbeatFailed {
          retrySecs := if retrySecs * BACKOFF_MULTIPLIER <= MAX_RETRY_SECS
                       then retrySecs * BACKOFF_MULTIPLIER else MAX_RETRY_SECS;
        }
      }
    }
  }

  // ---------------------------------------------------------------
  // What the loop's local variables say about the state
  // ---------------------------------------------------------------

  function CollectPhase(category: Category): Phase
  {
    match category
    case Responses => CollectResponses
    case Outcomes => CollectOutcomes
    case LogEntries => CollectLogEntries
  }

  function DrainPhase(category: Category): Phase
  {
    match category
    case Responses => DrainResponses
    case Outcomes => DrainOutcomes
    case LogEntries => DrainLogEntries
  }

  function CollectBase(category: Category, ls: Lanes): nat
  {
    match category
    case Responses => 0
    case Outcomes => TotalLen(ls.responses.batch)
    case LogEntries => TotalLen(ls.responses.batch) + TotalLen(ls.outcomes.batch)
  }

  function BatchCounts(ls: Lanes): (nat, nat, nat)
  {
    (|ls.responses.batch|, |ls.outcomes.batch|, |ls.entries.batch|)
  }

  predicate SameLocals(s: State, t: State)
  {
    && t.round == s.round
    && t.session.sendFullState == s.session.sendFullState
    && t.session.retrySecs == s.session.retrySecs
  }

  ghost predicate Collected(s: State, t: State, category: Category, batch: seq<Report>, hasRemaining: bool)
  {
    && t.phase == NextPhase(CollectPhase(category), s.lanes)
    && SameLocals(s, t)
    && GetLane(t.lanes, category).batch == batch
    && GetLane(t.lanes, category).hasRemaining == hasRemaining
    && forall c: Category | c != category :: SameBatch(GetLane(s.lanes, c), GetLane(t.lanes, c))
  }

  /** The request of a fragment is out. */
  ghost predicate InRpc(s: State, t: State, counts: (nat, nat, nat), more: bool)
  {
    && t.phase.AwaitReply?
    && SameLocals(s, t)
    && counts == BatchCounts(t.lanes)
    && more == MoreToSend(t.lanes)
  }

  ghost predicate Drained(s: State, t: State, category: Category)
  {
    && t.phase == NextPhase(s.phase, s.lanes)
    && t.session.sendFullState == s.session.sendFullState
    && t.session.retrySecs == s.session.retrySecs
    && t.round == (if category.LogEntries? then s.round.(first := false) else s.round)
    && MoreToSend(t.lanes) == MoreToSend(s.lanes)
    && forall c: Category | c != category :: SameBatch(GetLane(s.lanes, c), GetLane(t.lanes, c))
  }

  /** All three buffers of an accepted fragment were drained. */
  ghost predicate Accepted(s: State, t: State)
  {
    && t.phase == (if MoreToSend(s.lanes) then CollectResponses else Idle)
    && t.session.sendFullState == s.session.sendFullState
    && t.session.retrySecs == s.session.retrySecs
    && t.round == s.round.(first := false)
  }
}
