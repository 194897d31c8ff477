/** Delivery of commands from the server's per-executor outbox to the dataplane,
    together with the heartbeats that restart the command stream. */
module CommandDelivery {
  import opened ConnectionSession

  const MAX_POLL_RESPONSE_BYTES: nat := 8 * 1024 * 1024

  /** `stream` is history: it tells the commands of different full syncs apart. */
  datatype Command = Command(seqNo: nat, stream: nat, payload: string, encodedLen: nat)

  // ---------------------------------------------------------------
  // Server: the outbox of one executor
  // ---------------------------------------------------------------

  /** `known` says whether the executor is registered; `emitted` is the history of
      the current stream and `rejected` the numbers that never reached the
      in-memory buffer. */
  datatype Server = Server(
    known: bool,
    stream: nat,
    emitted: seq<Command>,
    pending: seq<Command>,
    lastAcked: nat,
    requestFullState: bool,
    rejected: set<nat>)

  const INIT_SERVER := Server(false, 0, [], [], 0, false, {})

  /** Give the next sequence numbers to a batch of new commands. */
  function Number(sv: Server, items: seq<(string, nat)>): seq<Command>
  {
    seq(|items|, i requires 0 <= i < |items| =>
      Command(|sv.emitted| + 1 + i, sv.stream, items[i].0, items[i].1))
  }

  predicate Oversized(items: seq<(string, nat)>)
  {
    exists item | item in items :: item.1 > MAX_POLL_RESPONSE_BYTES
  }

  /** The batch is numbered and persisted first; a batch with an oversized command
      is then refused by the in-memory buffer. */
  function Enqueue(sv: Server, items: seq<(string, nat)>): Server
  {
    var cmds := Number(sv, items);
    if Oversized(items)
    then sv.(emitted := sv.emitted + cmds,
             rejected := sv.rejected + set c | c in cmds :: c.seqNo)
    else sv.(emitted := sv.emitted + cmds, pending := sv.pending + cmds)
  }

  function DropUpTo(cmds: seq<Command>, ack: nat): seq<Command>
  {
    if cmds == [] then []
    else if cmds[0].seqNo > ack then [cmds[0]] + DropUpTo(cmds[1..], ack)
    else DropUpTo(cmds[1..], ack)
  }

  /** A poll request arrives: notice a falling ack, and discard what is acked
      unless persisting the ack failed. */
  function ServeAck(sv: Server, ack: nat, persisted: bool): Server
  {
    var observed :=
      if ack < sv.lastAcked then sv.(lastAcked := 0, requestFullState := true)
      else sv.(lastAcked := ack);
    if ack > 0 && persisted then observed.(pending := DropUpTo(sv.pending, ack)) else observed
  }

  /** The size-bounded prefix of the outbox that one reply carries. */
  function CappedLen(cmds: seq<Command>, taken: nat, total: nat): (n: nat)
    requires taken <= |cmds|
    ensures taken <= n <= |cmds|
    ensures taken == 0 && cmds != [] ==> n >= 1
    decreases |cmds| - taken
  {
    if taken < |cmds| && (taken == 0 || total + cmds[taken].encodedLen <= MAX_POLL_RESPONSE_BYTES)
    then CappedLen(cmds, taken + 1, total + cmds[taken].encodedLen)
    else taken
  }

  function EncodedTotal(cmds: seq<Command>): nat
  {
    if cmds == [] then 0 else EncodedTotal(cmds[..|cmds| - 1]) + cmds[|cmds| - 1].encodedLen
  }

  lemma {:induction false} EncodedTotalNext(cmds: seq<Command>, k: nat)
    requires k < |cmds|
    ensures EncodedTotal(cmds[..k + 1]) == EncodedTotal(cmds[..k]) + cmds[k].encodedLen
  {
    assert cmds[..k + 1][..k] == cmds[..k];
  }

  /** The prefix fits the response unless it is a single command, and one command
      more would not fit. */
  lemma {:induction false} CappedLenIsLongest(cmds: seq<Command>, taken: nat, total: nat)
    requires taken <= |cmds| && total == EncodedTotal(cmds[..taken])
    requires taken <= 1 || total <= MAX_POLL_RESPONSE_BYTES
    ensures var n := CappedLen(cmds, taken, total);
            && (n <= 1 || EncodedTotal(cmds[..n]) <= MAX_POLL_RESPONSE_BYTES)
            && (n < |cmds| ==> n >= 1 && EncodedTotal(cmds[..n + 1]) > MAX_POLL_RESPONSE_BYTES)
    decreases |cmds| - taken
  {
    if taken < |cmds| {
      EncodedTotalNext(cmds, taken);
      if taken == 0 || total + cmds[taken].encodedLen <= MAX_POLL_RESPONSE_BYTES {
        CappedLenIsLongest(cmds, taken + 1, total + cmds[taken].encodedLen);
      }
    }
  }

  function CappedClone(cmds: seq<Command>): seq<Command>
  {
    cmds[..CappedLen(cmds, 0, 0)]
  }

  /** A reply is the longest prefix of the outbox within the byte limit, or one
      command if that alone exceeds it. */
  lemma {:induction false} ReplyIsLongest(cmds: seq<Command>)
    ensures var reply := CappedClone(cmds);
            && reply <= cmds && (cmds != [] ==> reply != [])
            && (|reply| <= 1 || EncodedTotal(reply) <= MAX_POLL_RESPONSE_BYTES)
            && (|reply| < |cmds| ==> EncodedTotal(cmds[..|reply| + 1]) > MAX_POLL_RESPONSE_BYTES)
  {
    CappedLenIsLongest(cmds, 0, 0);
  }

  /** A heartbeat that carries the full state restarts the stream at number 1. */
  function FullSync(sv: Server): Server
  {
    Server(true, sv.stream + 1, [], [], 0, false, {})
  }

  // ---------------------------------------------------------------
  // Client: the poll loop
  // ---------------------------------------------------------------

  /** `batch` is what is left of the response being applied, `nextSeq` the loop's
      local expectation, `handled` the commands applied since the cursor was last
      at zero. */
  datatype Client = Client(session: Session, batch: seq<Command>, nextSeq: nat, handled: seq<Command>)

  const INIT_CLIENT := Client(INIT_SESSION, [], 1, [])

  /** One iteration of the loop over a response. */
  function Apply(c: Client, applied: bool): Client
  {
    if c.batch == [] then c
    else
      var command := c.batch[0];
      if command.seqNo < c.nextSeq then c.(batch := c.batch[1..])
      else if command.seqNo > c.nextSeq || !applied then c.(batch := [])
      else c.(batch := c.batch[1..],
              nextSeq := c.nextSeq + 1,
              session := c.session.(commandCursor := command.seqNo),
              handled := c.handled + [command])
  }

  // ---------------------------------------------------------------
  // The system
  // ---------------------------------------------------------------

  datatype Beat = NoBeat | Sent(round: Round) | Served(round: Round, sendState: bool)

  datatype Poll = NoPoll | Asked(ack: nat) | Held | Replied(commands: seq<Command>)

  /** `strays` are the acknowledgements in requests the client no longer waits for
      and the server may still serve. `synced` is history: the last full state the
      server processed was also answered, so the client takes its cursor to be
      about the current stream. */
  datatype State = State(server: Server, client: Client, beat: Beat, poll: Poll, strays: seq<nat>, synced: bool)

  const INIT := State(INIT_SERVER, INIT_CLIENT, NoBeat, NoPoll, [], false)

  datatype Event =
    | NewCommands(items: seq<(string, nat)>)
    | Forget
    | BeatSend | BeatServe | BeatAnswer | BeatError
    | PollSend | PollServe(persisted: bool) | PollClone | PollReply | PollLost
    | StrayServe(stray: nat, persisted: bool)
    | ApplyNext(applied: bool)

  function AnswerSession(c: Session, r: Round, sendState: bool): Session
  {
    var answered := OnAnswer(c, true, r.fullState, r.forRegistration, sendState);
    if sendState then answered else OnDrained(answered, true)
  }

  function AnswerClient(c: Client, r: Round, sendState: bool): Client
  {
    c.(session := AnswerSession(c.session, r, sendState),
       handled := if r.fullState && r.forRegistration then [] else c.handled)
  }

  /** The client stops waiting for a poll; a reply that is already there stays. */
  function DropPoll(s: State): State
  {
    match s.poll
    case Asked(ack) => s.(poll := NoPoll, strays := s.strays + [ack])
    case Held => s.(poll := NoPoll)
    case _ => s
  }

  /** A change of the connection state ends a poll that has no reply yet. */
  function DropOnChange(s: State, before: ConnectionState): State
  {
    if s.client.session.conn == before then s else DropPoll(s)
  }

  function BeatStep(s: State, e: Event): State
  {
    match e
    case BeatSend =>
      if s.beat.NoBeat? then
        var c := s.client.session;
        s.(beat := Sent(Round(true, c.sendFullState, c.sendFullState && c.conn == Registering)))
      else s
    case BeatServe =>
      if !s.beat.Sent? then s
      else if s.beat.round.fullState then
        s.(server := FullSync(s.server), beat := Served(s.beat.round, false), synced := false)
      else if s.server.known then
        s.(server := s.server.(requestFullState := false),
           beat := Served(s.beat.round, s.server.requestFullState))
      else s.(beat := Served(s.beat.round, true))
    case BeatAnswer =>
      if s.beat.Served? then
        DropOnChange(
          s.(client := AnswerClient(s.client, s.beat.round, s.beat.sendState),
             beat := NoBeat,
             synced := if s.beat.round.fullState then s.server.known else s.synced),
          s.client.session.conn)
      else s
    case BeatError =>
      if s.beat.NoBeat? then s
      else
        DropOnChange(s.(client := s.client.(session := OnBackoff(OnFailure(s.client.session))), beat := NoBeat),
                     s.client.session.conn)
    case _ => s
  }

  function PollStep(s: State, e: Event): State
  {
    match e
    case PollSend =>
      if s.poll.NoPoll? && s.client.batch == [] && s.client.session.conn.Ready?
      then s.(poll := Asked(s.client.session.commandCursor)) else s
    case PollServe(persisted) =>
      if s.poll.Asked? then
        if s.server.known then s.(server := ServeAck(s.server, s.poll.ack, persisted), poll := Held)
        else s.(poll := NoPoll)
      else s
    case PollClone =>
      if s.poll.Held? then s.(poll := Replied(if s.server.known then CappedClone(s.server.pending) else [])) else s
    case PollReply =>
      if s.poll.Replied? then
        s.(client := s.client.(batch := s.poll.commands, nextSeq := s.client.session.commandCursor + 1), poll := NoPoll)
      else s
    case PollLost => DropPoll(s).(poll := NoPoll)
    case StrayServe(i, persisted) =>
      if i < |s.strays| && s.server.known then s.(server := ServeAck(s.server, s.strays[i], persisted)) else s
    case ApplyNext(applied) => s.(client := Apply(s.client, applied))
    case _ => s
  }

  function Step(s: State, e: Event): State
  {
    match e
    case NewCommands(items) => if s.server.known then s.(server := Enqueue(s.server, items)) else s
    case Forget =>
      s.(server := s.server.(known := false, emitted := [], pending := [], rejected := {}), synced := false)
    case BeatSend => BeatStep(s, e)
    case BeatServe => BeatStep(s, e)
    case BeatAnswer => BeatStep(s, e)
    case BeatError => BeatStep(s, e)
    case _ => PollStep(s, e)
  }

  function Run(s: State, events: seq<Event>): State
  {
    if events == [] then s else Step(Run(s, events[..|events| - 1]), events[|events| - 1])
  }

  lemma {:induction false} RunConcat(s: State, a: seq<Event>, b: seq<Event>)
    ensures Run(s, a + b) == Run(Run(s, a), b)
  {
    if b == [] {
      assert a + b == a;
    } else {
      var init := b[..|b| - 1];
      RunConcat(s, a, init);
      assert (a + b)[..|a + b| - 1] == a + init;
    }
  }
}
