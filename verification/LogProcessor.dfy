/** The asynchronous batch log processor: producers, two channels, and a worker
    that selects between records, a timer and control messages. */
module LogProcessor {

  /** `Kind` of a control message; its `mark` counts the records enqueued before it. */
  datatype Kind = ForceFlush | Shutdown

  datatype Request = Request(kind: Kind, mark: nat)

  datatype Reply = Reply(request: Request, success: bool)

  datatype Cause = Full | Timer | Asked | Closed

  datatype Batch<R> = Batch(records: seq<R>, cause: Cause)

  /** Where the worker is: at its `select`, in the drain loop of a control message,
      awaiting the exporter of a shutdown (`success` so far), or gone. */
  datatype Phase = Selecting | Draining(request: Request) | Closing(request: Request, success: bool, at: nat) | Stopped

  /** Everything on the producers' side. `enqueued` and `asked` are histories. */
  datatype Inlet<R> = Inlet(enqueued: seq<R>, channel: seq<R>, asked: seq<Request>, requests: seq<Request>, handles: bool)

  datatype State<R> = State(inlet: Inlet<R>, buffer: seq<R>, batches: seq<Batch<R>>, replies: seq<Reply>, phase: Phase)

  datatype Config = Config(maxQueueSize: nat, maxBatchSize: nat)

  datatype Event<R> =
    | Emit(record: R)
    | Ask(kind: Kind)
    | DropHandles
    | Receive
    | Tick
    | Control
    | Drain(success: bool)
    | Finish(success: bool)
    | LogClosed
    | ControlClosed

  function Init<R>(): State<R>
  {
    State(Inlet([], [], [], [], true), [], [], [], Selecting)
  }

  // ---------------------------------------------------------------
  // Steps. An event that is not enabled changes nothing.
  // ---------------------------------------------------------------

  /** Producers wait while the channel is full and lose the record once the worker
      is gone; control messages are always accepted while it lives. */
  function Produce<R>(cfg: Config, i: Inlet<R>, live: bool, e: Event<R>): Inlet<R>
  {
    match e
    case Emit(r) =>
      if i.handles && live && |i.channel| < cfg.maxQueueSize
      then i.(enqueued := i.enqueued + [r], channel := i.channel + [r]) else i
    case Ask(kind) =>
      var req := Request(kind, |i.enqueued|);
      if i.handles && live then i.(asked := i.asked + [req], requests := i.requests + [req]) else i
    case DropHandles => i.(handles := false)
    case _ => i
  }

  /** `export_batch`: an empty buffer is not exported. */
  function Export<R>(batches: seq<Batch<R>>, buffer: seq<R>, cause: Cause): seq<Batch<R>>
  {
    if buffer == [] then batches else batches + [Batch(buffer, cause)]
  }

  function TakeRecord<R>(s: State<R>): State<R>
    requires s.inlet.channel != []
  {
    s.(inlet := s.inlet.(channel := s.inlet.channel[1..]), buffer := s.buffer + [s.inlet.channel[0]])
  }

  function Exported<R>(s: State<R>, cause: Cause): State<R>
  {
    s.(batches := Export(s.batches, s.buffer, cause), buffer := [])
  }

  function ReceiveStep<R>(cfg: Config, s: State<R>): State<R>
  {
    if s.inlet.channel == [] then s
    else
      var t := TakeRecord(s);
      if |t.buffer| >= cfg.maxBatchSize then Exported(t, Full) else t
  }

  /** One turn of the drain loop, or its end with the export. */
  function DrainStep<R>(s: State<R>, success: bool): State<R>
    requires s.phase.Draining?
  {
    if s.inlet.channel != [] then TakeRecord(s)
    else
      var ok := s.buffer == [] || success;
      var t := Exported(s, Asked);
      if s.phase.request.kind == ForceFlush
      then t.(replies := t.replies + [Reply(s.phase.request, ok)], phase := Selecting)
      else t.(phase := Closing(s.phase.request, ok, |s.inlet.enqueued|))
  }

  function ControlStep<R>(s: State<R>): State<R>
  {
    if s.inlet.requests == [] then s
    else s.(inlet := s.inlet.(requests := s.inlet.requests[1..]), phase := Draining(s.inlet.requests[0]))
  }

  function Select<R>(cfg: Config, s: State<R>, e: Event<R>): State<R>
  {
    match e
    case Receive => ReceiveStep(cfg, s)
    case Tick => Exported(s, Timer)
    case Control => ControlStep(s)
    case LogClosed =>
      if !s.inlet.handles && s.inlet.channel == [] then Exported(s, Closed).(phase := Stopped) else s
    case ControlClosed =>
      if !s.inlet.handles && s.inlet.requests == [] then s.(phase := Stopped) else s
    case _ => s
  }

  predicate External<R>(e: Event<R>)
  {
    e.Emit? || e.Ask? || e.DropHandles?
  }

  function Step<R>(cfg: Config, s: State<R>, e: Event<R>): State<R>
  {
    if External(e) then s.(inlet := Produce(cfg, s.inlet, !s.phase.Stopped?, e))
    else match s.phase
      case Selecting => Select(cfg, s, e)
      case Draining(_) => if e.Drain? then DrainStep(s, e.success) else s
      case Closing(req, ok, _) =>
        if e.Finish? then s.(replies := s.replies + [Reply(req, ok && e.success)], phase := Stopped) else s
      case Stopped => s
  }

  function Run<R>(cfg: Config, events: seq<Event<R>>): State<R>
  {
    if events == [] then Init() else Step(cfg, Run(cfg, events[..|events| - 1]), events[|events| - 1])
  }

  // ---------------------------------------------------------------
  // Accounts
  // ---------------------------------------------------------------

  /** The records handed to the exporter, in order. */
  function Handed<R>(batches: seq<Batch<R>>): seq<R>
  {
    if batches == [] then [] else Handed(batches[..|batches| - 1]) + batches[|batches| - 1].records
  }

  function Answered(replies: seq<Reply>): seq<Request>
  {
    if replies == [] then [] else Answered(replies[..|replies| - 1]) + [replies[|replies| - 1].request]
  }

  function InService(phase: Phase): seq<Request>
  {
    if phase.Draining? || phase.Closing? then [phase.request] else []
  }

  lemma {:induction false} HandedAppend<R>(batches: seq<Batch<R>>, buffer: seq<R>, cause: Cause)
    ensures Handed(Export(batches, buffer, cause)) == Handed(batches) + buffer
  {
    if buffer != [] {
      assert (batches + [Batch(buffer, cause)])[..|batches|] == batches;
    } else {
      assert Handed(batches) + buffer == Handed(batches);
    }
  }

  lemma {:induction false} AnsweredAppend(replies: seq<Reply>, r: Reply)
    ensures Answered(replies + [r]) == Answered(replies) + [r.request]
  {
    assert (replies + [r])[..|replies|] == replies;
  }

  /** Handed records, buffer and channel are the enqueued records, in order. */
  ghost predicate RecordsKept<R>(s: State<R>)
  {
    Handed(s.batches) + s.buffer + s.inlet.channel == s.inlet.enqueued
  }

  /** Replies, the message in service and the queue are the messages, in order. */
  predicate RequestsKept<R>(s: State<R>)
  {
    Answered(s.replies) + InService(s.phase) + s.inlet.requests == s.inlet.asked
  }
}
