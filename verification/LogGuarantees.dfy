/** What every run of the log processor keeps, and when records are lost. */
module LogGuarantees {
  import opened LogProcessor

  function BatchLimit(cfg: Config): nat
  {
    if cfg.maxBatchSize == 0 then 1 else cfg.maxBatchSize
  }

  /** The marks of all messages are covered by the records enqueued. */
  predicate MarksCovered(requests: seq<Request>, count: nat)
  {
    forall r | r in requests :: r.mark <= count
  }

  predicate Barrier<R>(s: State<R>)
  {
    forall r | r in s.replies :: r.request.mark <= |Handed(s.batches)|
  }

  predicate BoundedBatch<R>(cfg: Config, b: Batch<R>)
  {
    && b.records != []
    && (b.cause == Full ==> |b.records| == BatchLimit(cfg))
    && (b.cause == Timer ==> |b.records| < BatchLimit(cfg))
  }

  ghost predicate Bounded<R>(cfg: Config, batches: seq<Batch<R>>)
  {
    forall b | b in batches :: BoundedBatch(cfg, b)
  }

  /** What the worker's place says about its buffer. */
  predicate PhaseInv<R>(cfg: Config, s: State<R>)
  {
    match s.phase
    case Selecting => |s.buffer| < BatchLimit(cfg)
    case Draining(req) => req.mark <= |s.inlet.enqueued|
    case Closing(req, _, at) => s.buffer == [] && |Handed(s.batches)| == at && req.mark <= at
    case Stopped => true
  }

  ghost predicate Inv<R>(cfg: Config, s: State<R>)
  {
    && RecordsKept(s)
    && RequestsKept(s)
    && MarksCovered(s.inlet.requests, |s.inlet.enqueued|)
    && Barrier(s)
    && Bounded(cfg, s.batches)
    && PhaseInv(cfg, s)
  }

  lemma {:induction false} ProduceKeeps<R>(cfg: Config, s: State<R>, e: Event<R>)
    requires Inv(cfg, s) && External(e)
    ensures Inv(cfg, Step(cfg, s, e))
  {
    var t := Step(cfg, s, e);
    if e.Emit? && t != s {
      assert Handed(s.batches) + s.buffer + (s.inlet.channel + [e.record])
          == (Handed(s.batches) + s.buffer + s.inlet.channel) + [e.record];
    } else if e.Ask? && t != s {
      var req := Request(e.kind, |s.inlet.enqueued|);
      var done := Answered(s.replies) + InService(s.phase);
      assert done + (s.inlet.requests + [req]) == (done + s.inlet.requests) + [req];
    }
  }

  lemma {:induction false} TakeRecordKeeps<R>(s: State<R>)
    requires RecordsKept(s) && s.inlet.channel != []
    ensures RecordsKept(TakeRecord(s))
  {
    var head, tail := [s.inlet.channel[0]], s.inlet.channel[1..];
    assert s.inlet.channel == head + tail;
    assert Handed(s.batches) + (s.buffer + head) + tail == Handed(s.batches) + s.buffer + (head + tail);
  }

  lemma {:induction false} ExportKeeps<R>(cfg: Config, s: State<R>, cause: Cause)
    requires RecordsKept(s) && Barrier(s) && Bounded(cfg, s.batches)
    requires s.buffer == [] || BoundedBatch(cfg, Batch(s.buffer, cause))
    ensures var t := Exported(s, cause); RecordsKept(t) && Barrier(t) && Bounded(cfg, t.batches)
    ensures Handed(Exported(s, cause).batches) == Handed(s.batches) + s.buffer
  {
    HandedAppend(s.batches, s.buffer, cause);
    assert Handed(s.batches) + s.buffer + [] == Handed(s.batches) + s.buffer;
  }

  lemma {:induction false} ReceiveKeeps<R>(cfg: Config, s: State<R>)
    requires Inv(cfg, s) && s.phase.Selecting?
    ensures Inv(cfg, ReceiveStep(cfg, s))
  {
    if s.inlet.channel != [] {
      TakeRecordKeeps(s);
      var t := TakeRecord(s);
      if |t.buffer| >= cfg.maxBatchSize {
        ExportKeeps(cfg, t, Full);
      }
    }
  }

  lemma {:induction false} SelectKeeps<R>(cfg: Config, s: State<R>, e: Event<R>)
    requires Inv(cfg, s) && s.phase.Selecting? && !e.Receive?
    ensures Inv(cfg, Select(cfg, s, e))
  {
    match e
    case Tick => ExportKeeps(cfg, s, Timer);
    case Control =>
      if s.inlet.requests != [] {
        var head, tail := [s.inlet.requests[0]], s.inlet.requests[1..];
        assert s.inlet.requests == head + tail;
        assert Answered(s.replies) + [] + (head + tail) == Answered(s.replies) + head + tail;
      }
    case LogClosed => ExportKeeps(cfg, s, Closed);
    case _ =>
  }

  lemma {:induction false} DrainKeeps<R>(cfg: Config, s: State<R>, success: bool)
    requires Inv(cfg, s) && s.phase.Draining?
    ensures Inv(cfg, DrainStep(s, success))
  {
    if s.inlet.channel != [] {
      TakeRecordKeeps(s);
    } else {
      ExportKeeps(cfg, s, Asked);
      NothingHeld(Exported(s, Asked));
      if s.phase.request.kind == ForceFlush {
        FlushKeeps(cfg, s, Exported(s, Asked), success);
      } else {
        ShutdownKeeps(cfg, s, Exported(s, Asked), success);
      }
    }
  }

  lemma {:induction false} FlushBarrier<R>(s: State<R>, success: bool)
    requires Barrier(Exported(s, Asked)) && s.phase.Draining? && s.inlet.channel == [] && s.phase.request.kind == ForceFlush
    requires s.phase.request.mark <= |Handed(Exported(s, Asked).batches)|
    ensures Barrier(DrainStep(s, success))
  {
  }

  lemma {:induction false} FlushKeeps<R>(cfg: Config, s: State<R>, t: State<R>, success: bool)
    requires Inv(cfg, s) && s.phase.Draining? && s.inlet.channel == [] && s.phase.request.kind == ForceFlush
    requires t == Exported(s, Asked) && RecordsKept(t) && Barrier(t) && Bounded(cfg, t.batches)
    requires Handed(t.batches) == t.inlet.enqueued
    ensures Inv(cfg, DrainStep(s, success))
  {
    FlushBarrier(s, success);
    ReplyKeeps(s, DrainStep(s, success), Reply(s.phase.request, s.buffer == [] || success));
  }

  lemma {:induction false} ShutdownKeeps<R>(cfg: Config, s: State<R>, t: State<R>, success: bool)
    requires Inv(cfg, s) && s.phase.Draining? && s.inlet.channel == [] && s.phase.request.kind == Shutdown
    requires t == Exported(s, Asked) && RecordsKept(t) && Barrier(t) && Bounded(cfg, t.batches)
    requires Handed(t.batches) == t.inlet.enqueued
    ensures Inv(cfg, DrainStep(s, success))
  {
    assert InService(DrainStep(s, success).phase) == InService(s.phase);
  }

  /** With buffer and channel empty, and only then, everything is handed over. */
  lemma {:induction false} NothingHeld<R>(s: State<R>)
    requires RecordsKept(s)
    ensures Handed(s.batches) == s.inlet.enqueued <==> s.buffer == [] && s.inlet.channel == []
  {
    var h := Handed(s.batches);
    assert |h + s.buffer + s.inlet.channel| == |h| + |s.buffer| + |s.inlet.channel|;
    if s.buffer == [] && s.inlet.channel == [] {
      assert h + s.buffer + s.inlet.channel == h;
    }
  }

  /** A reply takes the message in service to the answered ones. */
  lemma {:induction false} ReplyKeeps<R>(s: State<R>, t: State<R>, r: Reply)
    requires RequestsKept(s) && InService(s.phase) != [] && InService(t.phase) == [] && t.inlet == s.inlet
    requires t.replies == s.replies + [r] && r.request == s.phase.request
    ensures RequestsKept(t)
  {
    var done := Answered(s.replies);
    AnsweredAppend(s.replies, r);
    assert done + [r.request] + [] == done + [r.request];
  }

  lemma {:induction false} FinishKeeps<R>(cfg: Config, s: State<R>, success: bool)
    requires Inv(cfg, s) && s.phase.Closing?
    ensures Inv(cfg, Step(cfg, s, Finish(success)))
  {
    ReplyKeeps(s, Step(cfg, s, Finish(success)), Reply(s.phase.request, s.phase.success && success));
  }

  lemma {:induction false} StepKeeps<R>(cfg: Config, s: State<R>, e: Event<R>)
    requires Inv(cfg, s)
    ensures Inv(cfg, Step(cfg, s, e))
  {
    if External(e) {
      ProduceKeeps(cfg, s, e);
    } else if s.phase.Selecting? {
      if e.Receive? {
        ReceiveKeeps(cfg, s);
      } else {
        SelectKeeps(cfg, s, e);
      }
    } else if s.phase.Draining? && e.Drain? {
      DrainKeeps(cfg, s, e.success);
    } else if s.phase.Closing? && e.Finish? {
      FinishKeeps(cfg, s, e.success);
    }
  }

  lemma {:induction false} RunKeeps<R>(cfg: Config, events: seq<Event<R>>)
    ensures Inv(cfg, Run(cfg, events))
  {
    if events != [] {
      RunKeeps(cfg, events[..|events| - 1]);
      StepKeeps(cfg, Run(cfg, events[..|events| - 1]), events[|events| - 1]);
    }
  }

  // ---------------------------------------------------------------
  // Main results
  // ---------------------------------------------------------------

  /** In every run the exporter has been handed a prefix of the enqueued records,
      each once and in order; the buffer and the channel are the rest. Control
      messages are answered in the order they were sent. */
  lemma {:induction false} RecordsExportedInOrder<R>(cfg: Config, events: seq<Event<R>>)
    ensures
      var s := Run(cfg, events);
      && Handed(s.batches) + s.buffer + s.inlet.channel == s.inlet.enqueued
      && Answered(s.replies) + InService(s.phase) + s.inlet.requests == s.inlet.asked
  {
    RunKeeps(cfg, events);
  }

  lemma {:induction false} HistoriesGrow<R>(cfg: Config, events: seq<Event<R>>, more: seq<Event<R>>)
    ensures
      var s, t := Run(cfg, events), Run(cfg, events + more);
      s.inlet.enqueued <= t.inlet.enqueued && s.inlet.asked <= t.inlet.asked
  {
    if more == [] {
      assert events + more == events;
    } else {
      var init, last := more[..|more| - 1], more[|more| - 1];
      HistoriesGrow(cfg, events, init);
      RunOne(cfg, events + init, last);
      assert events + more == (events + init) + [last];
      StepGrows(cfg, Run(cfg, events + init), last);
    }
  }

  lemma {:induction false} StepGrows<R>(cfg: Config, s: State<R>, e: Event<R>)
    ensures s.inlet.enqueued <= Step(cfg, s, e).inlet.enqueued && s.inlet.asked <= Step(cfg, s, e).inlet.asked
  {
  }

  lemma {:induction false} AnsweredAt(replies: seq<Reply>, n: nat)
    requires n < |replies|
    ensures |Answered(replies)| == |replies| && Answered(replies)[n] == replies[n].request
  {
    if n < |replies| - 1 {
      AnsweredAt(replies[..|replies| - 1], n);
    } else if n > 0 {
      AnsweredAt(replies[..|replies| - 1], n - 1);
    }
  }

  /** The n-th reply answers the n-th message, and comes after the records enqueued
      before that message were handed over. */
  lemma {:induction false} NthReply<R>(cfg: Config, s: State<R>, n: nat)
    requires Inv(cfg, s) && n < |s.replies|
    ensures n < |s.inlet.asked| && s.replies[n].request == s.inlet.asked[n]
    ensures s.inlet.asked[n].mark <= |Handed(s.batches)|
  {
    AnsweredAt(s.replies, n);
    assert s.replies[n] in s.replies;
    var done := Answered(s.replies);
    assert s.inlet.asked == done + (InService(s.phase) + s.inlet.requests);
  }

  /** A reply to a flush or shutdown means every record whose emit had returned
      before the request was made has been handed to the exporter: when a message is
      accepted after `events`, and has been answered some events later, the records
      enqueued by then are a prefix of those handed over. */
  lemma {:induction false} ReplyMeansHanded<R>(cfg: Config, events: seq<Event<R>>, kind: Kind, more: seq<Event<R>>)
    requires |Run(cfg, events + [Ask(kind)]).inlet.asked| > |Run(cfg, events).inlet.asked|
    requires |Run(cfg, events + [Ask(kind)] + more).replies| > |Run(cfg, events).inlet.asked|
    ensures Run(cfg, events).inlet.enqueued <= Handed(Run(cfg, events + [Ask(kind)] + more).batches)
  {
    var s, t := Run(cfg, events), Run(cfg, events + [Ask(kind)] + more);
    var n := |s.inlet.asked|;
    RunOne(cfg, events, Ask(kind));
    RunKeeps(cfg, events + [Ask(kind)] + more);
    HistoriesGrow(cfg, events + [Ask(kind)], more);
    NthReply(cfg, t, n);
    assert t.inlet.asked[n] == Request(kind, |s.inlet.enqueued|);
    assert Handed(t.batches) + (t.buffer + t.inlet.channel) == t.inlet.enqueued;
  }

  /** The channel never holds more than `max_queue_size` records. */
  lemma {:induction false} ChannelBounded<R>(cfg: Config, events: seq<Event<R>>)
    ensures |Run(cfg, events).inlet.channel| <= cfg.maxQueueSize
  {
    if events != [] {
      ChannelBounded(cfg, events[..|events| - 1]);
    }
  }

  /** An emit is accepted exactly when a handle is left, the worker lives and there is
      room; otherwise nothing changes. */
  lemma {:induction false} EmitExactly<R>(cfg: Config, s: State<R>, r: R)
    ensures
      var t := Step(cfg, s, Emit(r));
      if s.inlet.handles && !s.phase.Stopped? && |s.inlet.channel| < cfg.maxQueueSize
      then t.inlet.enqueued == s.inlet.enqueued + [r] && t.inlet.channel == s.inlet.channel + [r]
      else t == s
  {
  }

  /** A received record goes to the end of the buffer, and the buffer is handed over
      exactly when that fills it. */
  lemma {:induction false} ReceiveExactly<R>(cfg: Config, events: seq<Event<R>>)
    requires Run(cfg, events).phase.Selecting? && Run(cfg, events).inlet.channel != []
    ensures
      var s, t := Run(cfg, events), Step(cfg, Run(cfg, events), Receive);
      && t.inlet.channel == s.inlet.channel[1..]
      && Handed(t.batches) + t.buffer == Handed(s.batches) + s.buffer + [s.inlet.channel[0]]
      && (t.buffer == [] <==> |s.buffer| + 1 == BatchLimit(cfg))
      && (t.buffer != [] ==> t.batches == s.batches)
  {
    RunKeeps(cfg, events);
    var s := Run(cfg, events);
    var u := TakeRecord(s);
    HandedAppend(u.batches, u.buffer, Full);
    assert Handed(s.batches) + (s.buffer + [s.inlet.channel[0]]) == Handed(s.batches) + s.buffer + [s.inlet.channel[0]];
    assert Handed(u.batches) + u.buffer + [] == Handed(u.batches) + u.buffer;
  }

  /** After a timer tick nothing waits in the buffer: what is not in the channel has
      been handed over. */
  lemma {:induction false} TimerHandsOver<R>(cfg: Config, events: seq<Event<R>>)
    requires Run(cfg, events).phase.Selecting?
    ensures
      var t := Step(cfg, Run(cfg, events), Tick);
      t.buffer == [] && Handed(t.batches) + t.inlet.channel == Run(cfg, events).inlet.enqueued
  {
    RunKeeps(cfg, events);
    StepKeeps(cfg, Run(cfg, events), Tick);
    var t := Step(cfg, Run(cfg, events), Tick);
    assert Handed(t.batches) + [] == Handed(t.batches);
  }

  /** What the reply to a control message reports once its drain loop is done: a flush
      succeeds exactly when there was nothing to export or the export succeeded; a
      shutdown also needs the exporter's own shutdown to succeed. */
  lemma {:induction false} RepliesReportFailures<R>(cfg: Config, s: State<R>, exported: bool, closed: bool)
    requires s.phase.Draining? && s.inlet.channel == []
    ensures
      var t := Step(cfg, s, Drain(exported));
      if s.phase.request.kind == ForceFlush
      then t.replies == s.replies + [Reply(s.phase.request, s.buffer == [] || exported)]
      else t.replies == s.replies
           && Step(cfg, t, Finish(closed)).replies
              == s.replies + [Reply(s.phase.request, (s.buffer == [] || exported) && closed)]
  {
  }

  /** Batches are never empty; those sent because the buffer filled up have exactly
      max(1, max_batch_size) records and those sent by the timer have fewer. */
  lemma {:induction false} BatchesBounded<R>(cfg: Config, events: seq<Event<R>>, b: Batch<R>)
    requires b in Run(cfg, events).batches
    ensures b.records != []
    ensures b.cause == Full ==> |b.records| == BatchLimit(cfg)
    ensures b.cause == Timer ==> |b.records| < BatchLimit(cfg)
  {
    RunKeeps(cfg, events);
  }

  // ---------------------------------------------------------------
  // What is lost when the worker stops
  // ---------------------------------------------------------------

  /** Something the worker still held is not handed over by this exit. */
  predicate LosesRecords<R>(s: State<R>, e: Event<R>)
  {
    match e
    case Finish(_) => s.inlet.channel != []
    case ControlClosed => s.buffer != [] || s.inlet.channel != []
    case _ => false
  }

  /** The worker exits exactly at the end of a shutdown, or once every handle is gone
      and it notices that of a channel that is also empty. */
  lemma {:induction false} ExitsExactly<R>(cfg: Config, s: State<R>, e: Event<R>)
    requires !s.phase.Stopped?
    ensures Step(cfg, s, e).phase.Stopped?
      <==> (s.phase.Closing? && e.Finish?)
           || (s.phase.Selecting? && !s.inlet.handles && e.LogClosed? && s.inlet.channel == [])
           || (s.phase.Selecting? && !s.inlet.handles && e.ControlClosed? && s.inlet.requests == [])
  {
  }

  /** The exit at which a run stops hands over every enqueued record unless it ends
      a shutdown with records in the channel, or notices the closed control channel
      before the closed log channel with records in hand. */
  lemma {:induction false} ExitLossExact<R>(cfg: Config, events: seq<Event<R>>, e: Event<R>)
    requires !Run(cfg, events).phase.Stopped? && Step(cfg, Run(cfg, events), e).phase.Stopped?
    ensures
      var s, t := Run(cfg, events), Step(cfg, Run(cfg, events), e);
      (Handed(t.batches) == t.inlet.enqueued) <==> !LosesRecords(s, e)
  {
    var s, t := Run(cfg, events), Step(cfg, Run(cfg, events), e);
    RunKeeps(cfg, events);
    StepKeeps(cfg, s, e);
    NothingHeld(t);
  }

  /** Every record enqueued before a shutdown's drain loop ended is handed over; the
      records emitted while its export was under way are exactly what is left. */
  lemma {:induction false} ShutdownLeavesOnlyLateRecords<R>(cfg: Config, events: seq<Event<R>>)
    requires Run(cfg, events).phase.Closing?
    ensures
      var s := Run(cfg, events);
      && s.phase.request.mark <= s.phase.at <= |s.inlet.enqueued|
      && Handed(s.batches) == s.inlet.enqueued[..s.phase.at]
      && s.inlet.channel == s.inlet.enqueued[s.phase.at..]
  {
    RunKeeps(cfg, events);
    var s := Run(cfg, events);
    assert Handed(s.batches) + s.inlet.channel == s.inlet.enqueued by {
      assert Handed(s.batches) + [] == Handed(s.batches);
    }
  }

  /** Nothing is exported, accepted or answered after the worker has stopped. */
  lemma {:induction false} StoppedForGood<R>(cfg: Config, events: seq<Event<R>>, more: seq<Event<R>>)
    requires Run(cfg, events).phase.Stopped?
    ensures
      var s, t := Run(cfg, events), Run(cfg, events + more);
      t == s.(inlet := s.inlet.(handles := t.inlet.handles))
  {
    if more == [] {
      assert events + more == events;
    } else {
      var all := events + more;
      assert all[..|all| - 1] == events + more[..|more| - 1];
      StoppedForGood(cfg, events, more[..|more| - 1]);
    }
  }

  lemma {:induction false} RunOne<R>(cfg: Config, events: seq<Event<R>>, e: Event<R>)
    ensures Run(cfg, events + [e]) == Step(cfg, Run(cfg, events), e)
  {
    assert (events + [e])[..|events|] == events;
  }

  lemma {:induction false} Go<R>(cfg: Config, s: State<R>, events: seq<Event<R>>, e: Event<R>) returns (t: State<R>, more: seq<Event<R>>)
    requires s == Run(cfg, events)
    ensures t == Step(cfg, s, e) && t == Run(cfg, more)
  {
    RunOne(cfg, events, e);
    t, more := Step(cfg, s, e), events + [e];
  }

  /** Dropping every handle can lose a record that was accepted. */
  lemma {:induction false} DroppedHandlesLoseRecord<R>(cfg: Config, r: R) returns (events: seq<Event<R>>)
    requires cfg.maxQueueSize >= 1
    ensures var s := Run(cfg, events);
            s.phase.Stopped? && s.inlet.enqueued == [r] && Handed(s.batches) == []
  {
    var s;
    s, events := Go(cfg, Init(), [], Emit(r));
    s, events := Go(cfg, s, events, DropHandles);
    s, events := Go(cfg, s, events, ControlClosed);
  }

  /** A record emitted while a shutdown exports is accepted and lost, and the shutdown
      reports success. */
  lemma {:induction false} ShutdownLosesLateRecord<R>(cfg: Config, r: R) returns (events: seq<Event<R>>)
    requires cfg.maxQueueSize >= 1
    ensures var s := Run(cfg, events);
            && s.phase.Stopped? && s.inlet.enqueued == [r] && Handed(s.batches) == []
            && s.replies == [Reply(Request(Shutdown, 0), true)]
  {
    var s;
    s, events := Go(cfg, Init(), [], Ask(Shutdown));
    s, events := Go(cfg, s, events, Control);
    s, events := Go(cfg, s, events, Drain(true));
    s, events := Go(cfg, s, events, Emit(r));
    s, events := Go(cfg, s, events, Finish(true));
  }

  // ---------------------------------------------------------------
  // A control message is served once producers pause
  // ---------------------------------------------------------------

  function Drains<R>(s: State<R>, n: nat, success: bool): State<R>
    decreases n
  {
    if n == 0 || !s.phase.Draining? then s else Drains(DrainStep(s, success), n - 1, success)
  }

  /** The state in which the drain loop has moved the whole channel to the buffer. */
  function Emptied<R>(s: State<R>): State<R>
  {
    s.(inlet := s.inlet.(channel := []), buffer := s.buffer + s.inlet.channel)
  }

  lemma {:induction false} DrainsEmpty<R>(s: State<R>, success: bool)
    requires s.phase.Draining?
    ensures Drains(s, |s.inlet.channel| + 1, success) == DrainStep(Emptied(s), success)
    decreases |s.inlet.channel|
  {
    var t := DrainStep(s, success);
    if s.inlet.channel == [] {
      assert Emptied(s) == s;
      assert Drains(t, 0, success) == t;
    } else {
      DrainsEmpty(t, success);
      assert t.buffer + t.inlet.channel == s.buffer + s.inlet.channel;
      assert Emptied(t) == Emptied(s);
    }
  }

  /** With no new records, the drain loop ends after one turn per queued record,
      with everything enqueued handed over in at most one batch. */
  lemma {:induction false} DrainCompletes<R>(cfg: Config, s: State<R>, success: bool)
    requires Inv(cfg, s) && s.phase.Draining?
    ensures
      var t := Drains(s, |s.inlet.channel| + 1, success);
      && !t.phase.Draining?
      && t.inlet.channel == [] && t.inlet.enqueued == s.inlet.enqueued
      && t.batches == Export(s.batches, s.buffer + s.inlet.channel, Asked)
      && Handed(t.batches) == s.inlet.enqueued
      && (s.phase.request.kind == ForceFlush ==>
            t.phase.Selecting? && |t.replies| == |s.replies| + 1 && t.replies[|s.replies|].request == s.phase.request)
  {
    DrainsEmpty(s, success);
    HandedAppend(s.batches, s.buffer + s.inlet.channel, Asked);
    assert Handed(s.batches) + (s.buffer + s.inlet.channel) == s.inlet.enqueued;
  }

  /** The batch of a flush or shutdown exceeds the limit exactly when buffer and
      channel together do. */
  lemma {:induction false} FlushBatchExceeds<R>(cfg: Config, s: State<R>, success: bool)
    requires Inv(cfg, s) && s.phase.Draining?
    ensures
      var t := Drains(s, |s.inlet.channel| + 1, success);
      && |s.batches| <= |t.batches| <= |s.batches| + 1 && t.batches[..|s.batches|] == s.batches
      && (|t.batches| > |s.batches| && |t.batches[|s.batches|].records| > BatchLimit(cfg)
          <==> |s.buffer + s.inlet.channel| > BatchLimit(cfg))
  {
    DrainCompletes(cfg, s, success);
    ExportExtends(s.batches, s.buffer + s.inlet.channel, Asked);
  }

  lemma {:induction false} ExportExtends<R>(batches: seq<Batch<R>>, held: seq<R>, cause: Cause)
    ensures
      var t := Export(batches, held, cause);
      && t[..|batches|] == batches
      && |t| == |batches| + (if held == [] then 0 else 1)
      && (held != [] ==> t[|batches|] == Batch(held, cause))
  {
  }

  /** A flush that exports two records although `max_batch_size` is 1. */
  lemma {:induction false} FlushExceedsReachable<R>(a: R, b: R) returns (events: seq<Event<R>>)
    ensures var s := Run(Config(2, 1), events);
            s.batches == [Batch([a, b], Asked)] && |[a, b]| > BatchLimit(Config(2, 1))
  {
    var cfg := Config(2, 1);
    var s;
    s, events := Go(cfg, Init(), [], Emit(a));
    s, events := Go(cfg, s, events, Emit(b));
    s, events := Go(cfg, s, events, Ask(ForceFlush));
    s, events := Go(cfg, s, events, Control);
    assert s.inlet.channel == [a, b] && s.phase.Draining?;
    s, events := Go(cfg, s, events, Drain(true));
    s, events := Go(cfg, s, events, Drain(true));
    assert s.inlet.channel == [] && s.buffer == [a, b] && s.phase.Draining? && s.batches == [];
    s, events := Go(cfg, s, events, Drain(true));
  }
}
