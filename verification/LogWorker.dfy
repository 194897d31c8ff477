/** The worker loop as written: nested loops over a mutable buffer, driven by a
    script that decides what happens next at every await point. */
module LogWorker {
  import opened LogProcessor

  lemma {:induction false} RunNext<R>(cfg: Config, script: seq<Event<R>>, k: nat)
    requires k < |script|
    ensures Run(cfg, script[..k + 1]) == Step(cfg, Run(cfg, script[..k]), script[k])
  {
    assert script[..k + 1][..k] == script[..k];
  }

  class BatchWorker<R> {
    const cfg: Config
    var inlet: Inlet<R>
    var buffer: seq<R>
    var batches: seq<Batch<R>>
    var replies: seq<Reply>
    var live: bool
    ghost var phase: Phase

    ghost function View(): State<R>
      reads this
    {
      State(inlet, buffer, batches, replies, phase)
    }

    ghost predicate Follows(script: seq<Event<R>>, pos: nat)
      reads this
    {
      pos <= |script| && View() == Run(cfg, script[..pos]) && live == !phase.Stopped?
    }

    constructor (cfg: Config)
      ensures this.cfg == cfg && View() == Init() && live
    {
      this.cfg := cfg;
      inlet, buffer, batches, replies := Inlet([], [], [], [], true), [], [], [];
      live, phase := true, Selecting;
    }

    /** Producers act between any two steps of the worker. */
    method Produced(script: seq<Event<R>>, pos: nat)
      requires pos < |script| && External(script[pos]) && Follows(script, pos)
      modifies this`inlet
      ensures Follows(script, pos + 1)
    {
      RunNext(cfg, script, pos);
      inlet := Produce(cfg, inlet, live, script[pos]);
    }

    method ExportBatch(cause: Cause, success: bool) returns (ok: bool)
      modifies this`buffer, this`batches
      ensures buffer == [] && batches == Export(old(batches), old(buffer), cause)
      ensures ok == (old(buffer) == [] || success)
    {
      if |buffer| == 0 {
        return true;
      }
      batches := batches + [Batch(buffer, cause)];
      buffer := [];
      ok := success;
    }

    method PushFront()
      requires inlet.channel != []
      modifies this`buffer, this`inlet
      ensures View() == TakeRecord(old(View()))
    {
      buffer := buffer + [inlet.channel[0]];
      inlet := inlet.(channel := inlet.channel[1..]);
    }

    /** The drain loop: ends at the script's end, or when the channel is empty. */
    method DrainLoop(request: Request, script: seq<Event<R>>, pos: nat) returns (next: nat)
      requires Follows(script, pos) && phase == Draining(request)
      modifies this`buffer, this`inlet
      ensures Follows(script, next) && next >= pos
      ensures next < |script| ==> script[next].Drain? && |inlet.channel| == 0
    {
      next := pos;
      while next < |script| && !(script[next].Drain? && |inlet.channel| == 0)
        invariant Follows(script, next) && next >= pos
      {
        if External(script[next]) {
          Produced(script, next);
        } else {
          RunNext(cfg, script, next);
          if script[next].Drain? {
            PushFront();
          }
        }
        next := next + 1;
      }
    }

    /** Export what was drained; a flush is answered at once. */
    method EndDrain(request: Request, success: bool) returns (result: bool)
      requires phase == Draining(request) && |inlet.channel| == 0
      modifies this`buffer, this`batches, this`replies, this`phase
      ensures View() == DrainStep(old(View()), success)
      ensures if request.kind == ForceFlush then phase == Selecting else phase == Closing(request, result, |inlet.enqueued|)
    {
      result := ExportBatch(Asked, success);
      if request.kind == ForceFlush {
        replies, phase := replies + [Reply(request, result)], Selecting;
      } else {
        phase := Closing(request, result, |inlet.enqueued|);
      }
    }

    /** Serve one control message, up to the next select or the end of the worker. */
    method Serve(request: Request, script: seq<Event<R>>, pos: nat) returns (next: nat)
      requires Follows(script, pos) && phase == Draining(request)
      modifies this
      ensures Follows(script, next) && next >= pos
      ensures next < |script| ==> phase.Selecting? || phase.Stopped?
    {
      next := DrainLoop(request, script, pos);
      if next == |script| {
        return;
      }
      RunNext(cfg, script, next);
      var result := EndDrain(request, script[next].success);
      next := next + 1;
      if request.kind == Shutdown {
        next := Close(request, result, script, next);
      }
    }

    method Close(request: Request, result: bool, script: seq<Event<R>>, pos: nat) returns (next: nat)
      requires Follows(script, pos) && phase.Closing? && phase.request == request && phase.success == result
      modifies this
      ensures Follows(script, next) && next >= pos
      ensures next < |script| ==> phase.Stopped?
    {
      next := pos;
      ghost var closing := phase;
      while next < |script| && !script[next].Finish?
        invariant Follows(script, next) && next >= pos && phase == closing
      {
        if External(script[next]) {
          Produced(script, next);
        } else {
          RunNext(cfg, script, next);
        }
        next := next + 1;
      }
      if next < |script| {
        RunNext(cfg, script, next);
        replies := replies + [Reply(request, result && script[next].success)];
        live, phase := false, Stopped;
        next := next + 1;
      }
    }

    /** The branches of the select other than a control message. */
    method SelectOther(script: seq<Event<R>>, pos: nat)
      requires pos < |script| && Follows(script, pos) && phase.Selecting?
      requires !External(script[pos]) && !script[pos].Control?
      modifies this
      ensures Follows(script, pos + 1) && (phase.Selecting? || phase.Stopped?)
    {
      RunNext(cfg, script, pos);
      match script[pos]
      case Receive =>
        if |inlet.channel| > 0 {
          PushFront();
          if |buffer| >= cfg.maxBatchSize {
            var _ := ExportBatch(Full, true);
          }
        }
      case Tick =>
        if |buffer| > 0 {
          var _ := ExportBatch(Timer, true);
        }
      case LogClosed =>
        if !inlet.handles && |inlet.channel| == 0 {
          var _ := ExportBatch(Closed, true);
          live, phase := false, Stopped;
        }
      case ControlClosed =>
        if !inlet.handles && |inlet.requests| == 0 {
          live, phase := false, Stopped;
        }
      case _ =>
    }

    method SelectControl(script: seq<Event<R>>, pos: nat) returns (next: nat)
      requires pos < |script| && Follows(script, pos) && phase.Selecting? && script[pos].Control?
      modifies this
      ensures Follows(script, next) && next > pos
      ensures next < |script| ==> phase.Selecting? || phase.Stopped?
    {
      RunNext(cfg, script, pos);
      next := pos + 1;
      if |inlet.requests| > 0 {
        var request := inlet.requests[0];
        inlet, phase := inlet.(requests := inlet.requests[1..]), Draining(request);
        next := Serve(request, script, next);
      }
    }

    /** Whatever the script, the loop goes where the step system goes. */
    method WorkerLoop(script: seq<Event<R>>)
      requires View() == Init() && live
      modifies this
      ensures View() == Run(cfg, script)
    {
      var pos := 0;
      while pos < |script|
        invariant Follows(script, pos)
        invariant pos < |script| ==> phase.Selecting? || phase.Stopped?
        decreases |script| - pos
      {
        if External(script[pos]) {
          Produced(script, pos);
          pos := pos + 1;
        } else if !live {
          RunNext(cfg, script, pos);
          pos := pos + 1;
        } else if script[pos].Control? {
          pos := SelectControl(script, pos);
        } else {
          SelectOther(script, pos);
          pos := pos + 1;
        }
      }
      assert script[..pos] == script;
    }
  }
}
