/** The WebSocket forwarder of a PTY session: output is held back until the
    client says READY, then flushed and forwarded live. */
module PtyWebSocket {
  import opened Basics
  import opened Sequences
  import opened PtyOutput
  import PtyFanout

  const MAX_PRE_READY_BUFFER_BYTES: nat := 1_048_576
  const MAX_INPUT_BYTES_PER_SEC: nat := 1_048_576

  datatype CloseReason = Exited(exitCode: int) | PreReadyOverflow | OutputLagged | InputRateExceeded | Terminated

  datatype Frame = Binary(bytes: Bytes) | Ping | Close(reason: CloseReason)

  /** The ready arms of the select loop. */
  datatype Event =
    | Output(data: Bytes)
    | OutputClosed
    | Lagged
    | Message(data: Bytes, nowMillis: nat)
    | OtherMessage
    | ClientGone
    | PingDue
    | Cancelled

  /** A data frame is the tag byte 0x00 followed by the chunk. */
  function DataFrame(chunk: Bytes): Frame
  {
    Binary([0x00] + chunk)
  }

  /** The chunks carried by the data frames. */
  function Payloads(frames: seq<Frame>): seq<Bytes>
  {
    if frames == [] then []
    else
      var init := Payloads(frames[..|frames| - 1]);
      var last := frames[|frames| - 1];
      if last.Binary? && last.bytes != [] then init + [last.bytes[1..]] else init
  }

  lemma {:induction false} PayloadsAppend(frames: seq<Frame>, f: Frame)
    ensures Payloads(frames + [f]) == if f.Binary? && f.bytes != [] then Payloads(frames) + [f.bytes[1..]] else Payloads(frames)
  {
    assert (frames + [f])[..|frames|] == frames;
  }

  predicate IsReady(e: Event)
  {
    e.Message? && e.data != [] && e.data[0] == 0x02
  }

  predicate SawReady(events: seq<Event>)
  {
    exists e | e in events :: IsReady(e)
  }

  lemma {:induction false} SawReadyAppend(events: seq<Event>, e: Event)
    ensures SawReady(events + [e]) == (SawReady(events) || IsReady(e))
  {
    assert e in events + [e];
  }

  /** The chunks handed out by a receiver: those before the stream closes. */
  function Received(events: seq<Event>, attached: bool): seq<Bytes>
  {
    if events == [] || !attached then []
    else
      var init := events[..|events| - 1];
      if events[|events| - 1].Output? && OutputClosed !in init
      then Received(init, attached) + [events[|events| - 1].data]
      else Received(init, attached)
  }

  lemma {:induction false} ReceivedAppend(events: seq<Event>, attached: bool, e: Event)
    ensures Received(events + [e], attached) ==
            if attached && e.Output? && OutputClosed !in events then Received(events, attached) + [e.data]
            else Received(events, attached)
  {
    assert (events + [e])[..|events|] == events;
  }

  /** The terminal input the client sent: the payloads of its DATA messages. */
  function Inputs(events: seq<Event>): seq<Bytes>
  {
    if events == [] then []
    else
      var init := Inputs(events[..|events| - 1]);
      var e := events[|events| - 1];
      if e.Message? && e.data != [] && e.data[0] == 0x00 then init + [e.data[1..]] else init
  }

  lemma {:induction false} InputsAppend(events: seq<Event>, e: Event)
    ensures Inputs(events + [e]) ==
            if e.Message? && e.data != [] && e.data[0] == 0x00 then Inputs(events) + [e.data[1..]] else Inputs(events)
  {
    assert (events + [e])[..|events|] == events;
  }

  predicate NoClose(frames: seq<Frame>)
  {
    forall i | 0 <= i < |frames| :: !frames[i].Close?
  }

  predicate IsExit(f: Frame)
  {
    f.Close? && f.reason.Exited?
  }

  /** A socket that accepts `capacity` frames and then fails. */
  class Socket {
    const capacity: nat
    var frames: seq<Frame>
    /** The chunks in the data frames sent so far. */
    ghost var payloads: seq<Bytes>

    ghost predicate Valid()
      reads this
    {
      payloads == Payloads(frames) && |frames| <= capacity
    }

    constructor (capacity: nat)
      ensures Valid() && frames == []
      ensures this.capacity == capacity
    {
      this.capacity := capacity;
      frames, payloads := [], [];
    }

    method Send(f: Frame) returns (ok: bool)
      requires Valid()
      requires f.Binary? ==> f.bytes != []
      modifies this
      ensures Valid()
      ensures ok == (|old(frames)| < capacity)
      ensures frames == if ok then old(frames) + [f] else old(frames)
      ensures payloads == if ok && f.Binary? then old(payloads) + [f.bytes[1..]] else old(payloads)
    {
      ok := |frames| < capacity;
      if ok {
        PayloadsAppend(frames, f);
        if f.Binary? { payloads := payloads + [f.bytes[1..]]; }
        frames := frames + [f];
      }
    }

    /** Send chunks as data frames, in order, until one fails. */
    method SendAll(chunks: seq<Bytes>) returns (ok: bool)
      requires Valid() && NoClose(frames)
      modifies this
      ensures Valid() && NoClose(frames)
      ensures ok == (|old(frames)| + |chunks| <= capacity)
      ensures |frames| == if ok then |old(frames)| + |chunks| else capacity
      ensures ok ==> payloads == old(payloads) + chunks
      ensures payloads <= old(payloads) + chunks
    {
      ok := true;
      var i := 0;
      while i < |chunks| && ok
        invariant 0 <= i <= |chunks|
        invariant Valid() && NoClose(frames)
        invariant ok ==> payloads == old(payloads) + chunks[..i] && |frames| == |old(frames)| + i
        invariant !ok ==> |frames| == capacity < |old(frames)| + |chunks|
        invariant payloads <= old(payloads) + chunks
      {
        assert chunks[..i + 1] == chunks[..i] + [chunks[i]];
        assert DataFrame(chunks[i]).bytes[1..] == chunks[i];
        ok := Send(DataFrame(chunks[i]));
        i := i + 1;
      }
    }
  }

  // ---------------------------------------------------------------
  // The select loop
  // ---------------------------------------------------------------

  /** What the client has got when the loop ends: nothing before READY, and then all
      of history and live output in order, or a prefix if the socket, which took
      `capacity` frames, failed; the exit code comes last, once the stream is closed
      and only after all of the output. */
  ghost predicate Delivered(history: seq<Bytes>, attached: bool, seen: seq<Event>, frames: seq<Frame>, capacity: nat, exitCode: int)
  {
    && Payloads(frames) <= history + Received(seen, attached)
    && (Payloads(frames) != [] ==> SawReady(seen))
    && (SawReady(seen) ==> Payloads(frames) == history + Received(seen, attached) || |frames| >= capacity)
    && (SawReady(seen) && (!attached || OutputClosed in seen) ==> EndsInExit(frames, exitCode) || |frames| >= capacity)
    && (forall i | 0 <= i < |frames| && IsExit(frames[i]) ::
          && EndsInExit(frames, exitCode) && i == |frames| - 1
          && SawReady(seen)
          && (!attached || OutputClosed in seen)
          && Payloads(frames) == history + Received(seen, attached))
  }

  // ---------------------------------------------------------------
  // Input rate
  // ---------------------------------------------------------------

  /** Input passed on: the start of the window it was counted in, when, how much. */
  datatype Write = Write(window: nat, time: nat, bytes: nat)

  function WindowTotal(writes: seq<Write>, window: nat): nat
  {
    if writes == [] then 0
    else
      var last := writes[|writes| - 1];
      WindowTotal(writes[..|writes| - 1], window) + if last.window == window then last.bytes else 0
  }

  /** Every write falls within a second of its window's start, windows succeed each
      other, and none takes more than the limit. */
  ghost predicate RateLimited(writes: seq<Write>, current: nat)
  {
    && (forall w | w in writes :: w.window <= current && w.time < w.window + 1000)
    && (forall window: nat :: WindowTotal(writes, window) <= MAX_INPUT_BYTES_PER_SEC)
  }

  lemma {:induction false} LaterWindowIsEmpty(writes: seq<Write>, current: nat, window: nat)
    requires forall w | w in writes :: w.window <= current
    requires window > current
    ensures WindowTotal(writes, window) == 0
  {
    if writes != [] {
      var init := writes[..|writes| - 1];
      assert forall w | w in init :: w in writes;
      LaterWindowIsEmpty(init, current, window);
      assert writes[|writes| - 1] in writes;
    }
  }

  lemma {:induction false} WriteIsLimited(writes: seq<Write>, before: nat, current: nat, time: nat, bytes: nat)
    requires RateLimited(writes, before) && before <= current && time < current + 1000
    requires WindowTotal(writes, current) + bytes <= MAX_INPUT_BYTES_PER_SEC
    ensures RateLimited(writes + [Write(current, time, bytes)], current)
    ensures WindowTotal(writes + [Write(current, time, bytes)], current) == WindowTotal(writes, current) + bytes
  {
    var all := writes + [Write(current, time, bytes)];
    assert all[..|writes|] == writes;
  }

  /** The input side of a connection: the bytes counted in the current second, when
      it began, and what was passed on to the terminal. */
  class InputMeter {
    var inputBytesThisSecond: nat
    var rateLimitReset: nat
    var written: seq<Bytes>
    /** History: when and in which window each of them was written. */
    ghost var writes: seq<Write>

    ghost predicate Valid()
      reads this
    {
      && |writes| == |written| && (forall i | 0 <= i < |writes| :: writes[i].bytes == |written[i]|)
      && RateLimited(writes, rateLimitReset)
    }

    /** The count is that of the current window; so it is until the limit is passed. */
    ghost predicate Counting()
      reads this
    {
      Valid() && inputBytesThisSecond == WindowTotal(writes, rateLimitReset)
    }

    constructor ()
      ensures Counting() && written == []
    {
      inputBytesThisSecond, rateLimitReset, written, writes := 0, 0, [], [];
    }

    /** Count the input, and pass it on if the window still has room for it. */
    method Meter(input: Bytes, now: nat) returns (ok: bool)
      requires Counting()
      modifies this
      ensures Valid() && (ok ==> Counting())
      ensures rateLimitReset == if now >= old(rateLimitReset) + 1000 then now else old(rateLimitReset)
      ensures inputBytesThisSecond == (if now >= old(rateLimitReset) + 1000 then 0 else old(inputBytesThisSecond)) + |input|
      ensures ok == (inputBytesThisSecond <= MAX_INPUT_BYTES_PER_SEC)
      ensures written == if ok then old(written) + [input] else old(written)
    {
      OpenWindow(now);
      inputBytesThisSecond := inputBytesThisSecond + |input|;
      ok := inputBytesThisSecond <= MAX_INPUT_BYTES_PER_SEC;
      if ok {
        WriteIsLimited(writes, rateLimitReset, rateLimitReset, now, |input|);
        writes := writes + [Write(rateLimitReset, now, |input|)];
        written := written + [input];
      }
    }

    /** A second after the last window started, a new one starts empty. */
    method OpenWindow(now: nat)
      requires Counting()
      modifies this`inputBytesThisSecond, this`rateLimitReset
      ensures Counting() && now < rateLimitReset + 1000
      ensures if now >= old(rateLimitReset) + 1000 then rateLimitReset == now && inputBytesThisSecond == 0
              else unchanged(`rateLimitReset) && unchanged(`inputBytesThisSecond)
    {
      if now >= rateLimitReset + 1000 {
        LaterWindowIsEmpty(writes, rateLimitReset, now);
        inputBytesThisSecond := 0;
        rateLimitReset := now;
      }
    }
  }

  predicate EndsInExit(frames: seq<Frame>, exitCode: int)
  {
    frames != [] && frames[|frames| - 1] == Close(Exited(exitCode))
  }

  /** What the events so far amount to. */
  predicate Tally(due: seq<Bytes>, ready: bool, closed: bool, inputs: seq<Bytes>,
                  history: seq<Bytes>, attached: bool, seen: seq<Event>)
  {
    && due == history + Received(seen, attached)
    && ready == SawReady(seen)
    && closed == (!attached || OutputClosed in seen)
    && inputs == Inputs(seen)
  }

  lemma {:induction false} TallyNext(due: seq<Bytes>, ready: bool, closed: bool, inputs: seq<Bytes>,
                                     history: seq<Bytes>, attached: bool, seen: seq<Event>, e: Event)
    requires Tally(due, ready, closed, inputs, history, attached, seen)
    ensures Tally(if e.Output? && !closed then due + [e.data] else due,
                  ready || IsReady(e),
                  closed || e.OutputClosed?,
                  if e.Message? && e.data != [] && e.data[0] == 0x00 then inputs + [e.data[1..]] else inputs,
                  history, attached, seen + [e])
  {
    ReceivedAppend(seen, attached, e);
    InputsAppend(seen, e);
    SawReadyAppend(seen, e);
  }

  class Forwarder {
    const socket: Socket
    const meter: InputMeter
    const exitCode: int

    var ready: bool
    var preReadyBuffer: seq<Bytes>
    var preReadyBytes: nat
    var outputOpen: bool
    var awaitingPong: bool

    /** What the events so far amount to: the output due to the client, whether it
        said READY, whether the stream is closed, and its input. */
    ghost var due: seq<Bytes>
    ghost var saidReady: bool
    ghost var closed: bool
    ghost var inputs: seq<Bytes>

    constructor (socket: Socket, meter: InputMeter, history: seq<Bytes>, attached: bool, exitCode: int)
      requires socket.Valid() && socket.frames == [] && meter.Counting() && meter.written == []
      requires TotalSize(history) <= MAX_OUTPUT_BUFFER_BYTES
      ensures this.socket == socket && this.meter == meter && AtHead()
      ensures due == history && !saidReady && closed == !attached && inputs == []
    {
      this.socket, this.meter := socket, meter;
      this.exitCode := exitCode;
      ready, preReadyBuffer, preReadyBytes := false, history, TotalSize(history);
      outputOpen, awaitingPong := attached, false;
      due, saidReady, closed, inputs := history, false, !attached, [];
    }

    /** Holds at every loop head. */
    ghost predicate AtHead()
      reads this, socket, meter
    {
      && socket.Valid() && NoClose(socket.frames)
      && ready == saidReady
      && outputOpen == !closed
      && preReadyBytes == TotalSize(preReadyBuffer) <= MAX_PRE_READY_BUFFER_BYTES
      && (!ready ==> socket.payloads == [] && preReadyBuffer == due)
      && (ready ==> outputOpen && preReadyBuffer == [] && socket.payloads == due)
      && meter.Counting() && meter.written == inputs
    }

    /** Holds when the loop has ended. */
    ghost predicate Ended()
      reads this, socket
    {
      && socket.Valid()
      && socket.payloads <= due
      && (socket.payloads != [] ==> saidReady)
      && (saidReady ==> socket.payloads == due || |socket.frames| >= socket.capacity)
      && (saidReady && closed ==> EndsInExit(socket.frames, exitCode) || |socket.frames| >= socket.capacity)
      && (forall i | 0 <= i < |socket.frames| && IsExit(socket.frames[i]) ::
            && i == |socket.frames| - 1 && EndsInExit(socket.frames, exitCode)
            && saidReady && closed && socket.payloads == due)
    }

    /** The history fields account for one more event. */
    twostate predicate Noted(e: Event)
      reads this
    {
      && due == (if e.Output? && !old(closed) then old(due) + [e.data] else old(due))
      && saidReady == (old(saidReady) || IsReady(e))
      && closed == (old(closed) || e.OutputClosed?)
      && inputs == (if e.Message? && e.data != [] && e.data[0] == 0x00 then old(inputs) + [e.data[1..]] else old(inputs))
    }

    /** The connection ends with this close frame, if the socket still takes it. */
    twostate predicate ClosedWith(reason: CloseReason)
      reads socket
    {
      socket.frames == if |old(socket.frames)| < socket.capacity then old(socket.frames) + [Close(reason)] else old(socket.frames)
    }

    /** Send the final frame of a connection, ignoring failure. */
    method SendClose(reason: CloseReason)
      requires socket.Valid() && NoClose(socket.frames)
      requires socket.payloads <= due
      requires socket.payloads != [] ==> saidReady
      requires saidReady ==> socket.payloads == due
      requires if saidReady && closed then reason == Exited(exitCode) else !reason.Exited?
      modifies socket
      ensures Ended() && ClosedWith(reason)
    {
      ghost var before := socket.frames;
      var ok := socket.Send(Close(reason));
      assert forall i | 0 <= i < |before| :: socket.frames[i] == before[i] && !IsExit(before[i]);
    }

    method OnOutput(data: Bytes) returns (go: bool)
      requires AtHead()
      modifies this, socket
      ensures Noted(Output(data))
      ensures if go then AtHead() else Ended()
      ensures !old(outputOpen) ==> go && socket.frames == old(socket.frames)
      ensures old(outputOpen && ready) ==>
                && go == (|old(socket.frames)| < socket.capacity)
                && socket.frames == if go then old(socket.frames) + [DataFrame(data)] else old(socket.frames)
      ensures old(outputOpen && !ready) ==>
                && go == (old(preReadyBytes) + |data| <= MAX_PRE_READY_BUFFER_BYTES)
                && if go then socket.frames == old(socket.frames) else ClosedWith(PreReadyOverflow)
    {
      if !outputOpen {
        return true;
      }
      due := due + [data];
      if ready {
        go := socket.Send(DataFrame(data));
      } else {
        go := HoldBack(data);
      }
    }

    /** Output before READY is kept, up to a limit. */
    method HoldBack(data: Bytes) returns (go: bool)
      requires socket.Valid() && NoClose(socket.frames) && socket.payloads == [] && !saidReady
      requires preReadyBytes == TotalSize(preReadyBuffer)
      modifies this`preReadyBytes, this`preReadyBuffer, socket
      ensures socket.Valid() && preReadyBytes == TotalSize(preReadyBuffer) == old(preReadyBytes) + |data|
      ensures preReadyBuffer == old(preReadyBuffer) + [data]
      ensures go == (preReadyBytes <= MAX_PRE_READY_BUFFER_BYTES)
      ensures if go then unchanged(socket) else Ended() && ClosedWith(PreReadyOverflow)
    {
      TotalSizeAppend(preReadyBuffer, data);
      preReadyBytes := preReadyBytes + |data|;
      preReadyBuffer := preReadyBuffer + [data];
      go := preReadyBytes <= MAX_PRE_READY_BUFFER_BYTES;
      if !go {
        SendClose(PreReadyOverflow);
      }
    }

    method OnOutputClosed() returns (go: bool)
      requires AtHead()
      modifies this, socket
      ensures Noted(OutputClosed)
      ensures if go then AtHead() else Ended()
      ensures go == !old(ready)
      ensures if go then socket.frames == old(socket.frames) else ClosedWith(Exited(exitCode))
    {
      closed := true;
      outputOpen := false;
      if ready {
        SendClose(Exited(exitCode));
        return false;
      }
      go := true;
    }

    /** READY: flush what was held back; report the exit if the stream is closed. */
    method OnReady(data: Bytes, now: nat) returns (go: bool)
      requires AtHead()
      requires IsReady(Message(data, now))
      modifies this, socket
      ensures Noted(Message(data, now))
      ensures if go then AtHead() else Ended()
      ensures go == (old(outputOpen) && |old(socket.frames)| + |old(preReadyBuffer)| <= socket.capacity)
      ensures !awaitingPong
      ensures !old(outputOpen) && |old(socket.frames)| + |old(preReadyBuffer)| < socket.capacity ==>
                socket.frames != [] && socket.frames[|socket.frames| - 1] == Close(Exited(exitCode))
    {
      saidReady := true;
      awaitingPong := false;
      ready := true;
      var flushed := socket.SendAll(preReadyBuffer);
      preReadyBuffer := [];
      preReadyBytes := 0;
      if !flushed {
        return false;
      }
      if !outputOpen {
        SendClose(Exited(exitCode));
        return false;
      }
      go := true;
    }

    /** DATA: rate-limited terminal input. */
    method OnData(data: Bytes, now: nat) returns (go: bool)
      requires AtHead()
      requires data != [] && data[0] == 0x00
      modifies this, socket, meter
      ensures Noted(Message(data, now))
      ensures if go then AtHead() else Ended()
      ensures meter.Valid() && !awaitingPong
      ensures meter.inputBytesThisSecond
           == (if now >= old(meter.rateLimitReset) + 1000 then 0 else old(meter.inputBytesThisSecond)) + |data| - 1
      ensures go == (meter.inputBytesThisSecond <= MAX_INPUT_BYTES_PER_SEC)
      ensures meter.written == if go then old(meter.written) + [data[1..]] else old(meter.written)
      ensures if go then socket.frames == old(socket.frames) else ClosedWith(InputRateExceeded)
    {
      inputs := inputs + [data[1..]];
      awaitingPong := false;
      go := meter.Meter(data[1..], now);
      if !go {
        SendClose(InputRateExceeded);
      }
    }

    method OnLagged() returns (go: bool)
      requires AtHead()
      modifies this, socket
      ensures Noted(Lagged)
      ensures if go then AtHead() else Ended()
      ensures go == !old(outputOpen)
      ensures if go then socket.frames == old(socket.frames) else ClosedWith(OutputLagged)
    {
      go := !outputOpen;
      if outputOpen {
        SendClose(OutputLagged);
      }
    }

    /** A ping goes unanswered, or the next one is sent. */
    method OnPingDue() returns (go: bool)
      requires AtHead()
      modifies this, socket
      ensures Noted(PingDue)
      ensures if go then AtHead() else Ended()
      ensures go == (!old(awaitingPong) && |old(socket.frames)| < socket.capacity)
      ensures socket.frames == if go then old(socket.frames) + [Ping] else old(socket.frames)
      ensures go ==> awaitingPong
    {
      if awaitingPong {
        return false;
      }
      go := socket.Send(Ping);
      awaitingPong := true;
    }

    /** Every event that carries neither output, input nor READY. */
    method OnOther(e: Event) returns (go: bool)
      requires AtHead()
      requires !e.Output? && !e.OutputClosed? && !IsReady(e)
      requires e.Message? ==> e.data == [] || e.data[0] != 0x00
      modifies this, socket
      ensures Noted(e)
      ensures if go then AtHead() else Ended()
      ensures e.Lagged? ==> go == !old(outputOpen) && (!go ==> ClosedWith(OutputLagged))
      ensures e.Message? || e.OtherMessage? ==> go && !awaitingPong && socket.frames == old(socket.frames)
      ensures e.ClientGone? ==> !go && socket.frames == old(socket.frames)
      ensures e.PingDue? ==> go == (!old(awaitingPong) && |old(socket.frames)| < socket.capacity)
      ensures e.Cancelled? ==> !go && ClosedWith(Terminated)
    {
      go := true;
      match e {
        case Lagged => go := OnLagged();
        case Message(_, _) => awaitingPong := false;
        case OtherMessage => awaitingPong := false;
        case ClientGone => go := false;
        case PingDue => go := OnPingDue();
        case Cancelled =>
          SendClose(Terminated);
          go := false;
        case Output(_) =>
        case OutputClosed =>
      }
    }

    method OnEvent(e: Event) returns (go: bool)
      requires AtHead()
      modifies this, socket, meter
      ensures Noted(e)
      ensures if go then AtHead() else Ended()
      ensures meter.Valid()
    {
      match e {
        case Output(data) => go := OnOutput(data);
        case OutputClosed => go := OnOutputClosed();
        case Message(data, now) =>
          if data != [] && data[0] == 0x02 {
            go := OnReady(data, now);
          } else if data != [] && data[0] == 0x00 {
            go := OnData(data, now);
          } else {
            go := OnOther(e);
          }
        case _ => go := OnOther(e);
      }
    }

    ghost predicate Accounts(history: seq<Bytes>, attached: bool, seen: seq<Event>)
      reads this
    {
      Tally(due, saidReady, closed, inputs, history, attached, seen)
    }

    method OnNext(e: Event, ghost history: seq<Bytes>, ghost attached: bool, ghost seen: seq<Event>) returns (go: bool)
      requires AtHead() && Accounts(history, attached, seen)
      modifies this, socket, meter
      ensures Accounts(history, attached, seen + [e])
      ensures if go then AtHead() else Ended()
      ensures meter.Valid()
    {
      TallyNext(due, saidReady, closed, inputs, history, attached, seen, e);
      go := OnEvent(e);
    }

    /** The loop over the ready events. `go` is false when it ended after `count`
        of them. */
    method HandleEvents(events: seq<Event>, ghost history: seq<Bytes>, ghost attached: bool)
      returns (go: bool, count: nat)
      requires AtHead() && Accounts(history, attached, [])
      modifies this, socket, meter
      ensures count <= |events|
      ensures Delivered(history, attached, events[..count], socket.frames, socket.capacity, exitCode)
      ensures go ==> count == |events| && AtHead()
      ensures go && SawReady(events) ==> Payloads(socket.frames) == history + Received(events, attached)
      ensures go ==> meter.written == Inputs(events)
      ensures meter.Valid()
    {
      go, count := true, 0;
      while count < |events| && go
        invariant 0 <= count <= |events|
        invariant Accounts(history, attached, events[..count])
        invariant meter.Valid() && if go then AtHead() else Ended()
      {
        assert events[..count + 1] == events[..count] + [events[count]];
        go := OnNext(events[count], history, attached, events[..count]);
        count := count + 1;
      }
      assert go ==> events[..count] == events;
    }
  }

  /** Subscription and forwarding together: whatever interleaving attached the
      client, and wherever its connection ended, it has seen a prefix of one
      stretch of the terminal output in which at most the chunk in flight at the
      seam appears twice. */
  lemma {:induction false} ClientSeesOutput(fan: seq<PtyFanout.Event>, i: nat, seen: seq<Event>, frames: seq<Frame>, capacity: nat, exitCode: int)
    requires i < |PtyFanout.Run(PtyFanout.INIT, fan).subscribers|
    requires var sub := PtyFanout.Run(PtyFanout.INIT, fan).subscribers[i];
             Received(seen, sub.attached) <= sub.live && Delivered(sub.history, sub.attached, seen, frames, capacity, exitCode)
    ensures var s := PtyFanout.Run(PtyFanout.INIT, fan);
            var sub := s.subscribers[i];
            && sub.base <= sub.cloned <= sub.base + 1
            && sub.cloned <= |s.pushed| && sub.base <= s.sent <= |s.pushed|
            && (sub.attached ==> Payloads(frames) <= Retained(s.pushed[..sub.cloned]) + s.pushed[sub.base..s.sent])
            && (!sub.attached ==> Payloads(frames) <= Retained(s.pushed))
  {
    PtyFanout.RunKeeps(fan);
    var s := PtyFanout.Run(PtyFanout.INIT, fan);
    var sub := s.subscribers[i];
    assert PtyFanout.SubscriberInv(s, sub);
    var all := sub.history + Received(seen, sub.attached);
    assert all <= sub.history + sub.live;
    assert !sub.attached ==> s.pushed[..sub.cloned] == s.pushed;
  }

  /** A client that got the exit code and whose receiver was emptied has the output
      up to its very end. */
  lemma {:induction false} ExitMeansComplete(fan: seq<PtyFanout.Event>, i: nat, seen: seq<Event>, frames: seq<Frame>, capacity: nat, exitCode: int)
    requires i < |PtyFanout.Run(PtyFanout.INIT, fan).subscribers| && !PtyFanout.Run(PtyFanout.INIT, fan).open
    requires var sub := PtyFanout.Run(PtyFanout.INIT, fan).subscribers[i];
             Received(seen, sub.attached) == sub.live && Delivered(sub.history, sub.attached, seen, frames, capacity, exitCode)
    requires EndsInExit(frames, exitCode)
    ensures var s := PtyFanout.Run(PtyFanout.INIT, fan);
            var sub := s.subscribers[i];
            && sub.base <= sub.cloned <= |s.pushed| && sub.cloned <= sub.base + 1
            && Payloads(frames) == Retained(s.pushed[..sub.cloned]) + s.pushed[sub.base..]
  {
    PtyFanout.RunKeeps(fan);
    PtyFanout.ClosedMeansComplete(fan, i);
    var s := PtyFanout.Run(PtyFanout.INIT, fan);
    assert PtyFanout.SubscriberInv(s, s.subscribers[i]);
    assert IsExit(frames[|frames| - 1]);
  }
}
