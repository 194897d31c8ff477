/** The loop that applies one poll_commands response, with the 64-bit saturating
    cursor arithmetic of the source. */
module CommandPolling {
  import opened Basics
  import opened ConnectionSession
  import opened CommandDelivery

  function SaturatingAdd(a: nat, b: nat): nat
  {
    if a + b <= U64_MAX then a + b else U64_MAX
  }

  /** A client that has just received a response. */
  function Receive(cursor: nat, response: seq<Command>): Client
  {
    Client(INIT_SESSION.(commandCursor := cursor), response, cursor + 1, [])
  }

  /** The loop over a whole response, as repeated single iterations. */
  function Drive(c: Client, verdicts: seq<bool>): Client
    requires |c.batch| <= |verdicts|
    decreases |verdicts|
  {
    if c.batch == [] then c else Drive(Apply(c, verdicts[0]), verdicts[1..])
  }

  // ---------------------------------------------------------------
  // What a response achieves
  // ---------------------------------------------------------------

  /** The first `n` commands are numbered without gaps from `first` on. */
  predicate Numbered(commands: seq<Command>, first: nat, n: nat)
    requires n <= |commands|
  {
    forall i: nat | i < n :: commands[i].seqNo == first + i
  }

  /** Those are old or applied; the next one, if any, leaves a gap or is due and fails
      to apply. */
  predicate StopsAt(commands: seq<Command>, verdicts: seq<bool>, cursor: nat, first: nat, n: nat)
    requires n <= |commands| <= |verdicts|
  {
    && (forall i: nat | i < n :: commands[i].seqNo > cursor ==> verdicts[i])
    && (n < |commands| ==>
          var due := CursorAfter(cursor, first, n) + 1;
          commands[n].seqNo > due || (commands[n].seqNo == due && !verdicts[n]))
  }

  /** The cursor after the first `n` commands of a response numbered from `first`. */
  function CursorAfter(cursor: nat, first: nat, n: nat): nat
  {
    if first + n <= cursor + 1 then cursor else first + n - 1
  }

  /** Those of the commands from `k` up to `n` that are beyond the cursor. */
  function Fresh(commands: seq<Command>, cursor: nat, first: nat, k: nat, n: nat): seq<Command>
    requires first <= cursor + 1 && k <= n <= |commands|
  {
    var from := if k <= cursor + 1 - first then cursor + 1 - first else k;
    if from <= n then commands[from..n] else []
  }

  /** A response may begin with commands already handled: those are skipped, and the
      new ones are handled in order up to the first that leaves a gap or fails to
      apply, whatever comes after it; the cursor ends on the last one handled. */
  lemma {:induction false} ResponseUpToStop(cursor: nat, commands: seq<Command>, verdicts: seq<bool>, first: nat, n: nat)
    requires n <= |commands| <= |verdicts| && first <= cursor + 1
    requires Numbered(commands, first, n) && StopsAt(commands, verdicts, cursor, first, n)
    ensures var d := Drive(Receive(cursor, commands), verdicts);
            d.handled == Fresh(commands, cursor, first, 0, n) && d.session.commandCursor == CursorAfter(cursor, first, n)
  {
    assert commands[0..] == commands && verdicts[0..] == verdicts;
    UpToStopFrom(cursor, commands, verdicts, first, n, 0, Receive(cursor, commands));
  }

  lemma {:induction false} UpToStopFrom(cursor: nat, commands: seq<Command>, verdicts: seq<bool>, first: nat, n: nat, k: nat, c: Client)
    requires n <= |commands| <= |verdicts| && first <= cursor + 1
    requires Numbered(commands, first, n) && StopsAt(commands, verdicts, cursor, first, n)
    requires k <= n && c.batch == commands[k..]
    requires c.session.commandCursor == CursorAfter(cursor, first, k) && c.nextSeq == c.session.commandCursor + 1
    ensures var d := Drive(c, verdicts[k..]);
            && d.handled == c.handled + Fresh(commands, cursor, first, k, n)
            && d.session.commandCursor == CursorAfter(cursor, first, n)
    decreases n - k
  {
    if k < |commands| {
      var d := Apply(c, verdicts[k]);
      assert c.batch[0] == commands[k];
      assert commands[k..][1..] == commands[k + 1..] && verdicts[k..][1..] == verdicts[k + 1..];
      assert Drive(c, verdicts[k..]) == Drive(d, verdicts[k + 1..]);
      if k < n {
        UpToStopFrom(cursor, commands, verdicts, first, n, k + 1, d);
        FreshNext(commands, cursor, first, k, n, c.handled);
      } else {
        assert d.batch == [];
      }
    }
  }

  lemma {:induction false} FreshNext(commands: seq<Command>, cursor: nat, first: nat, k: nat, n: nat, handled: seq<Command>)
    requires first <= cursor + 1 && k < n <= |commands|
    ensures handled + Fresh(commands, cursor, first, k, n)
         == (if first + k <= cursor then handled else handled + [commands[k]]) + Fresh(commands, cursor, first, k + 1, n)
  {
  }

  /** What happens around one poll: cursor resets by the heartbeat loop before the
      request is built and while it is outstanding, the reply if there is one, and
      the verdicts of `handle_command`. */
  datatype Turn = Turn(resetBefore: bool, resetDuring: bool, reply: Option<seq<Command>>, verdicts: seq<bool>)

  /** The commands handled and the acknowledgements sent between two resets. */
  datatype Epoch = Epoch(handled: seq<Command>, acks: seq<nat>)

  predicate PlausibleTurn(t: Turn)
  {
    t.reply.Some? ==>
      |t.verdicts| >= |t.reply.value| && forall i | 0 <= i < |t.reply.value| :: t.reply.value[i].seqNo <= U64_MAX
  }

  /** The numbers 1, 2, 3, ... up to saturation, and no acknowledgement beyond them. */
  predicate Exact(e: Epoch)
  {
    && (forall i | 0 <= i < |e.handled| :: e.handled[i].seqNo == SaturatingAdd(0, i + 1))
    && (forall a | a in e.acks :: a <= |e.handled|)
  }

  /** The epochs so far and the current one. */
  datatype PollLog = PollLog(past: seq<Epoch>, current: Epoch)

  function Cut(log: PollLog, reset: bool): PollLog
  {
    if reset then PollLog(log.past + [log.current], Epoch([], [])) else log
  }

  /** One turn: the request acknowledges everything handled in the epoch, and of the
      reply the epoch handles what `Drive` does from there. */
  function PollTurn(log: PollLog, t: Turn): PollLog
    requires PlausibleTurn(t)
  {
    var asked := Cut(log, t.resetBefore);
    var sent := Cut(asked.(current := asked.current.(acks := asked.current.acks + [|asked.current.handled|])), t.resetDuring);
    if t.reply.None? then sent
    else
      var news := Drive(Receive(|sent.current.handled|, t.reply.value), t.verdicts).handled;
      sent.(current := sent.current.(handled := sent.current.handled + news))
  }

  function PollTurns(turns: seq<Turn>): PollLog
    requires forall t | t in turns :: PlausibleTurn(t)
  {
    if turns == [] then PollLog([], Epoch([], []))
    else PollTurn(PollTurns(turns[..|turns| - 1]), turns[|turns| - 1])
  }

  /** No epoch reaches the end of the 64-bit range. */
  predicate Unsaturated(log: PollLog)
  {
    |log.current.handled| < U64_MAX && forall e | e in log.past :: |e.handled| < U64_MAX
  }

  /** A gap-free response from the next expected number or an earlier one, every
      command of which applies. */
  predicate WholeResponse(cursor: nat, response: seq<Command>, verdicts: seq<bool>)
    requires |response| <= |verdicts|
  {
    && response != [] && response[0].seqNo <= cursor + 1
    && Numbered(response, response[0].seqNo, |response|) && response[|response| - 1].seqNo < U64_MAX
    && forall i: nat | i < |response| :: verdicts[i]
  }

  class PollCursor {
    /** Highest command number applied; sent as the acknowledgement. */
    var lastAppliedCommandSeq: nat

    constructor ()
      ensures lastAppliedCommandSeq == 0
    {
      lastAppliedCommandSeq := 0;
    }

    /** Apply a response. `verdicts[i]` is what `handle_command` says about the
        i-th command, should the loop get to it. Whatever the server sent, the
        commands handled are consecutive after the cursor and the cursor ends on
        the last of them; only at the end of the 64-bit range does a number
        repeat. */
    method ApplyResponse(response: seq<Command>, verdicts: seq<bool>) returns (handled: seq<Command>)
      requires |verdicts| >= |response|
      requires lastAppliedCommandSeq <= U64_MAX
      requires forall i | 0 <= i < |response| :: response[i].seqNo <= U64_MAX
      modifies this
      ensures lastAppliedCommandSeq == SaturatingAdd(old(lastAppliedCommandSeq), |handled|)
      ensures forall i | 0 <= i < |handled| :: handled[i].seqNo == SaturatingAdd(old(lastAppliedCommandSeq), i + 1)
      ensures forall h | h in handled :: h in response
      ensures lastAppliedCommandSeq < U64_MAX ==>
                var c := Drive(Receive(old(lastAppliedCommandSeq), response), verdicts);
                handled == c.handled && lastAppliedCommandSeq == c.session.commandCursor
      ensures WholeResponse(old(lastAppliedCommandSeq), response, verdicts) ==>
                var last := response[|response| - 1].seqNo;
                lastAppliedCommandSeq == if last <= old(lastAppliedCommandSeq) then old(lastAppliedCommandSeq) else last
    {
      var nextSeq := SaturatingAdd(lastAppliedCommandSeq, 1);
      handled := [];
      ghost var c := Receive(lastAppliedCommandSeq, response);
      ghost var d := c;
      var i := 0;
      while i < |response|
        invariant 0 <= i <= |response|
        invariant lastAppliedCommandSeq == SaturatingAdd(old(lastAppliedCommandSeq), |handled|)
        invariant nextSeq == SaturatingAdd(lastAppliedCommandSeq, 1)
        invariant forall j | 0 <= j < |handled| :: handled[j].seqNo == SaturatingAdd(old(lastAppliedCommandSeq), j + 1)
        invariant forall h | h in handled :: h in response
        invariant lastAppliedCommandSeq < U64_MAX ==>
                    && d.batch == response[i..] && d.handled == handled && d.nextSeq == nextSeq
                    && d.session.commandCursor == lastAppliedCommandSeq
                    && Drive(c, verdicts) == Drive(d, verdicts[i..])
        invariant WholeResponse(old(lastAppliedCommandSeq), response, verdicts) ==>
                    var reached := response[0].seqNo + i - 1;
                    lastAppliedCommandSeq == if reached <= old(lastAppliedCommandSeq) then old(lastAppliedCommandSeq) else reached
      {
        var command := response[i];
        if lastAppliedCommandSeq < U64_MAX {
          d := Apply(d, verdicts[i]);
          assert verdicts[i..][0] == verdicts[i] && verdicts[i..][1..] == verdicts[i + 1..];
        }
        if command.seqNo < nextSeq {
          i := i + 1;
          continue;
        }
        if command.seqNo > nextSeq {
          return;
        }
        if !verdicts[i] {
          return;
        }
        lastAppliedCommandSeq := command.seqNo;
        nextSeq := SaturatingAdd(nextSeq, 1);
        handled := handled + [command];
        i := i + 1;
      }
    }

    /** A reset by the heartbeat loop. */
    method ResetCursor(log: PollLog, reset: bool) returns (cut: PollLog)
      modifies this
      ensures cut == Cut(log, reset)
      ensures lastAppliedCommandSeq == if reset then 0 else old(lastAppliedCommandSeq)
    {
      cut := log;
      if reset {
        cut := PollLog(log.past + [log.current], Epoch([], []));
        lastAppliedCommandSeq := 0;
      }
    }

    /** Every epoch is exact, and the cursor is that of the current one. */
    ghost predicate Keeps(log: PollLog)
      reads this
    {
      && Exact(log.current) && (forall e | e in log.past :: Exact(e))
      && lastAppliedCommandSeq == SaturatingAdd(0, |log.current.handled|)
    }

    method HandleReply(log: PollLog, reply: seq<Command>, verdicts: seq<bool>) returns (after: PollLog)
      requires Keeps(log)
      requires |verdicts| >= |reply| && forall i | 0 <= i < |reply| :: reply[i].seqNo <= U64_MAX
      modifies this
      ensures Keeps(after) && after.past == log.past && after.current.acks == log.current.acks
      ensures |after.current.handled| < U64_MAX ==>
                after.current.handled
                == log.current.handled + Drive(Receive(|log.current.handled|, reply), verdicts).handled
      ensures |log.current.handled| <= |after.current.handled|
    {
      var more := ApplyResponse(reply, verdicts);
      after := log.(current := log.current.(handled := log.current.handled + more));
      assert forall k | |log.current.handled| <= k < |after.current.handled| ::
          after.current.handled[k] == more[k - |log.current.handled|];
    }

    method OneTurn(log: PollLog, t: Turn) returns (after: PollLog)
      requires Keeps(log) && PlausibleTurn(t)
      modifies this
      ensures Keeps(after)
      ensures Unsaturated(after) ==> Unsaturated(log) && after == PollTurn(log, t)
    {
      after := ResetCursor(log, t.resetBefore);
      after := after.(current := after.current.(acks := after.current.acks + [lastAppliedCommandSeq]));
      after := ResetCursor(after, t.resetDuring);
      if t.reply.Some? {
        after := HandleReply(after, t.reply.value, t.verdicts);
      }
    }

    /** The whole poll loop, against any server: in every epoch the handled commands
        are numbered consecutively from 1, and every acknowledgement covers only
        commands handled by then; below saturation the epochs are exactly those of
        `PollTurns`. */
    method PollCommands(turns: seq<Turn>) returns (log: PollLog)
      requires lastAppliedCommandSeq == 0
      requires forall t | t in turns :: PlausibleTurn(t)
      modifies this
      ensures Keeps(log)
      ensures Unsaturated(log) ==> log == PollTurns(turns)
    {
      log := PollLog([], Epoch([], []));
      var i := 0;
      while i < |turns|
        invariant 0 <= i <= |turns|
        invariant Keeps(log)
        invariant Unsaturated(log) ==> log == PollTurns(turns[..i])
      {
        assert turns[..i + 1][..i] == turns[..i];
        log := OneTurn(log, turns[i]);
        i := i + 1;
      }
      assert turns[..i] == turns;
    }
  }
}
