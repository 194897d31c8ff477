/** What the command stream guarantees over whole runs, and where it stops. */
module CommandGuarantees {
  import opened ConnectionSession
  import opened CommandDelivery

  // ---------------------------------------------------------------
  // Invariants
  // ---------------------------------------------------------------

  ghost predicate InStream(sv: Server, c: Command)
  {
    1 <= c.seqNo <= |sv.emitted| && sv.emitted[c.seqNo - 1] == c
  }

  ghost predicate AllInStream(sv: Server, cmds: seq<Command>)
  {
    forall c | c in cmds :: InStream(sv, c)
  }

  /** Commands are numbered consecutively from 1 and the outbox holds only
      commands of the current stream. */
  ghost predicate ServerInv(sv: Server)
  {
    && (forall i: nat | i < |sv.emitted| :: sv.emitted[i].seqNo == i + 1 && sv.emitted[i].stream == sv.stream)
    && AllInStream(sv, sv.pending)
    && Ascending(sv.pending)
  }

  predicate Ascending(cmds: seq<Command>)
  {
    forall i: nat, j: nat | i < j < |cmds| :: cmds[i].seqNo < cmds[j].seqNo
  }

  /** The commands handled are exactly the first ones emitted, once each and in
      order. */
  ghost predicate HandledPrefix(sv: Server, c: Client)
  {
    && c.session.commandCursor <= |sv.emitted|
    && c.handled == sv.emitted[..c.session.commandCursor]
  }

  /** The server still holds every command the client has not handled, except
      those its buffer refused. */
  ghost predicate NothingDiscarded(sv: Server, c: Client)
  {
    forall i: nat | c.session.commandCursor <= i < |sv.emitted| ::
      sv.emitted[i] in sv.pending || sv.emitted[i].seqNo in sv.rejected
  }

  /** The cursor counts the handled commands, and the loop over a response
      expects the one after it. */
  predicate ClientInv(c: Client)
  {
    && |c.handled| == c.session.commandCursor
    && (c.batch != [] ==> c.nextSeq == c.session.commandCursor + 1)
  }

  predicate NoneBeyond(acks: seq<nat>, n: nat)
  {
    forall a | a in acks :: a <= n
  }

  /** A request in flight acknowledges only handled commands, and a reply in
      flight carries only commands of the current stream. */
  ghost predicate PollInv(sv: Server, c: Client, poll: Poll, strays: seq<nat>)
  {
    && (poll.Asked? ==> poll.ack <= c.session.commandCursor)
    && NoneBeyond(strays, c.session.commandCursor)
    && (poll.Replied? ==> AllInStream(sv, poll.commands))
  }

  ghost predicate Tracks(s: State)
  {
    && HandledPrefix(s.server, s.client)
    && NothingDiscarded(s.server, s.client)
    && AllInStream(s.server, s.client.batch)
    && PollInv(s.server, s.client, s.poll, s.strays)
  }

  predicate BeatInv(c: Session, beat: Beat)
  {
    && (c.conn.Ready? ==> !c.sendFullState)
    && (!beat.NoBeat? ==> beat.round == Round(true, c.sendFullState, c.sendFullState && c.conn == Registering))
  }

  /** Between a full sync and its answer the client owes its full state and does
      not poll, so nothing of the new stream can have been acknowledged. */
  ghost predicate SyncInv(s: State)
  {
    && (s.synced ==> s.server.known)
    && (s.server.known && !s.synced ==> s.client.session.sendFullState && Quiet(s) && NoneBeyond(s.strays, 0) && Untouched(s))
    && (s.beat.Served? && s.beat.round.fullState ==> !s.synced && Quiet(s))
  }

  /** A poll without a reply is outstanding only while the connection is ready. */
  predicate PollsWhenReady(s: State)
  {
    s.poll.Asked? || s.poll.Held? ==> s.client.session.conn.Ready?
  }

  predicate Quiet(s: State)
  {
    s.poll.NoPoll? && s.client.batch == []
  }

  ghost predicate Untouched(s: State)
  {
    && (forall c | c in s.client.handled :: c.stream < s.server.stream)
    && (forall c | c in s.server.emitted :: c in s.server.pending || c.seqNo in s.server.rejected)
  }

  /** No command comes from a stream the server has not started yet. */
  predicate NoFutureStream(s: State)
  {
    && (forall c | c in s.client.handled :: c.stream <= s.server.stream)
    && (forall c | c in s.client.batch :: c.stream <= s.server.stream)
    && (s.poll.Replied? ==> forall c | c in s.poll.commands :: c.stream <= s.server.stream)
  }

  ghost predicate Inv(s: State)
  {
    && ServerInv(s.server)
    && ClientInv(s.client)
    && NoFutureStream(s)
    && BeatInv(s.client.session, s.beat)
    && SyncInv(s)
    && PollsWhenReady(s)
    && (s.synced ==> Tracks(s))
  }

  /** The server restarts the stream while a reply waits to be applied or is half
      applied, or a stray request still carries an acknowledgement. */
  predicate MidBatchSync(s: State, e: Event)
  {
    && e.BeatServe? && s.beat.Sent? && s.beat.round.fullState
    && (s.poll.Replied? || s.client.batch != [] || !NoneBeyond(s.strays, 0))
  }

  /** The full state is answered although it was not sent while registering, so
      the client keeps a cursor into the previous stream. */
  predicate StaleCursor(s: State, e: Event)
  {
    e.BeatAnswer? && s.beat.Served? && s.beat.round.fullState
    && !s.beat.round.forRegistration && s.client.session.commandCursor > 0
  }

  // ---------------------------------------------------------------
  // Steps
  // ---------------------------------------------------------------

  lemma {:induction false} DropUpToKeeps(cmds: seq<Command>, ack: nat, c: Command)
    ensures c in DropUpTo(cmds, ack) <==> c in cmds && c.seqNo > ack
  {
    if cmds != [] {
      assert cmds == [cmds[0]] + cmds[1..];
      DropUpToKeeps(cmds[1..], ack, c);
    }
  }

  lemma {:induction false} DropUpToAscending(cmds: seq<Command>, ack: nat)
    requires Ascending(cmds)
    ensures Ascending(DropUpTo(cmds, ack))
  {
    if cmds != [] {
      var rest := DropUpTo(cmds[1..], ack);
      DropUpToAscending(cmds[1..], ack);
      forall i | 0 <= i < |rest| ensures cmds[0].seqNo < rest[i].seqNo {
        DropUpToKeeps(cmds[1..], ack, rest[i]);
      }
    }
  }

  lemma {:induction false} EnqueueKeeps(sv: Server, items: seq<(string, nat)>)
    requires ServerInv(sv)
    ensures ServerInv(Enqueue(sv, items))
    ensures forall c :: InStream(sv, c) ==> InStream(Enqueue(sv, items), c)
  {
    var t := Enqueue(sv, items);
    var cmds := Number(sv, items);
    assert t.emitted == sv.emitted + cmds;
    forall c | c in t.pending ensures InStream(t, c) {
      if c in sv.pending {
        assert InStream(sv, c);
      } else {
        var i :| 0 <= i < |cmds| && cmds[i] == c;
        assert t.emitted[|sv.emitted| + i] == c;
      }
    }
    forall i: nat, j: nat | i < j < |t.pending| ensures t.pending[i].seqNo < t.pending[j].seqNo {
      if i < |sv.pending| {
        assert InStream(sv, sv.pending[i]);
      }
    }
  }

  lemma {:induction false} EnqueueDiscardsNothing(sv: Server, c: Client, items: seq<(string, nat)>)
    requires NothingDiscarded(sv, c)
    ensures NothingDiscarded(Enqueue(sv, items), c)
  {
    var t := Enqueue(sv, items);
    var cmds := Number(sv, items);
    forall i: nat | c.session.commandCursor <= i < |t.emitted|
      ensures t.emitted[i] in t.pending || t.emitted[i].seqNo in t.rejected
    {
      if i < |sv.emitted| {
        assert t.emitted[i] == sv.emitted[i];
      } else {
        assert t.emitted[i] == cmds[i - |sv.emitted|];
        assert t.emitted[i] in cmds;
      }
    }
  }

  lemma {:induction false} ServeAckKeeps(sv: Server, c: Client, ack: nat, persisted: bool)
    requires ServerInv(sv)
    ensures ServerInv(ServeAck(sv, ack, persisted))
    ensures NothingDiscarded(sv, c) && ack <= c.session.commandCursor
            ==> NothingDiscarded(ServeAck(sv, ack, persisted), c)
  {
    var t := ServeAck(sv, ack, persisted);
    DropUpToAscending(sv.pending, ack);
    forall x | x in t.pending ensures InStream(t, x) {
      DropUpToKeeps(sv.pending, ack, x);
    }
    if NothingDiscarded(sv, c) && ack <= c.session.commandCursor {
      forall i: nat | c.session.commandCursor <= i < |t.emitted|
        ensures t.emitted[i] in t.pending || t.emitted[i].seqNo in t.rejected
      {
        DropUpToKeeps(sv.pending, ack, t.emitted[i]);
      }
    }
  }

  lemma {:induction false} ApplyKeeps(sv: Server, c: Client, applied: bool)
    requires ServerInv(sv)
    requires ClientInv(c)
    requires HandledPrefix(sv, c) && NothingDiscarded(sv, c) && AllInStream(sv, c.batch)
    ensures HandledPrefix(sv, Apply(c, applied))
    ensures NothingDiscarded(sv, Apply(c, applied))
    ensures AllInStream(sv, Apply(c, applied).batch)
    ensures c.session.commandCursor <= Apply(c, applied).session.commandCursor
  {
    var d := Apply(c, applied);
    if c.batch != [] {
      assert InStream(sv, c.batch[0]);
      forall x | x in d.batch ensures InStream(sv, x) {
        assert x in c.batch;
      }
      if d.handled != c.handled {
        var k := c.session.commandCursor;
        assert sv.emitted[..k + 1] == sv.emitted[..k] + [sv.emitted[k]];
      }
    }
  }

  lemma {:induction false} ServerStep(s: State, e: Event)
    requires Inv(s)
    requires e.NewCommands? || e.Forget?
    ensures Inv(Step(s, e))
  {
    if e.NewCommands? && s.server.known {
      EnqueueKeeps(s.server, e.items);
      if s.synced {
        EnqueueDiscardsNothing(s.server, s.client, e.items);
        var t := Enqueue(s.server, e.items);
        assert t.emitted[..s.client.session.commandCursor] == s.server.emitted[..s.client.session.commandCursor];
      }
    }
  }

  lemma {:induction false} PollStepKeeps(s: State, e: Event)
    requires Inv(s)
    requires e.PollSend? || e.PollServe? || e.PollClone? || e.PollReply? || e.PollLost?
    ensures Inv(Step(s, e))
  {
    if e.PollServe? && s.poll.Asked? && s.server.known {
      ServeAckKeeps(s.server, s.client, s.poll.ack, e.persisted);
    }
    if e.PollClone? && s.poll.Held? && s.server.known {
      forall c | c in CappedClone(s.server.pending) ensures c.stream <= s.server.stream {
        assert InStream(s.server, c);
      }
    }
  }

  lemma {:induction false} StrayStepKeeps(s: State, e: Event)
    requires Inv(s) && e.StrayServe?
    ensures Inv(Step(s, e))
  {
    if e.stray < |s.strays| && s.server.known {
      assert s.strays[e.stray] in s.strays;
      ServeAckKeeps(s.server, s.client, s.strays[e.stray], e.persisted);
    }
  }

  lemma {:induction false} ApplyStepKeeps(s: State, e: Event)
    requires Inv(s)
    requires e.ApplyNext?
    ensures Inv(Step(s, e))
  {
    if s.synced {
      ApplyKeeps(s.server, s.client, e.applied);
    }
    if s.client.batch != [] {
      assert s.client.batch[0] in s.client.batch;
    }
  }

  lemma {:induction false} BeatStepKeeps(s: State, e: Event)
    requires Inv(s)
    requires e.BeatSend? || e.BeatServe? || e.BeatError?
    requires !MidBatchSync(s, e)
    ensures Inv(Step(s, e))
  {
    if e.BeatServe? && s.beat.Sent? && s.beat.round.fullState {
      FullSyncKeeps(s, e);
    }
  }

  /** A restart of the stream with nothing of the old one under way. */
  lemma {:induction false} FullSyncKeeps(s: State, e: Event)
    requires Inv(s) && e.BeatServe? && s.beat.Sent? && s.beat.round.fullState
    requires !MidBatchSync(s, e)
    ensures Inv(Step(s, e))
  {
    assert Quiet(s);
  }

  /** Answering a heartbeat keeps the client in step with the stream exactly when
      it does not leave a stale cursor behind. */
  lemma {:induction false} AnswerKeeps(s: State, e: Event)
    requires Inv(s)
    requires e.BeatAnswer?
    ensures Inv(Step(s, e)) <==> !(StaleCursor(s, e) && s.server.known)
  {
    if StaleCursor(s, e) && s.server.known {
      assert s.client.handled[0] in s.client.handled;
    }
  }

  lemma {:induction false} StepKeeps(s: State, e: Event)
    requires Inv(s)
    requires !MidBatchSync(s, e)
    requires !(StaleCursor(s, e) && s.server.known)
    ensures Inv(Step(s, e))
  {
    match e
    case NewCommands(_) => ServerStep(s, e);
    case Forget => ServerStep(s, e);
    case BeatAnswer => AnswerKeeps(s, e);
    case BeatSend => BeatStepKeeps(s, e);
    case BeatServe => BeatStepKeeps(s, e);
    case BeatError => BeatStepKeeps(s, e);
    case ApplyNext(_) => ApplyStepKeeps(s, e);
    case StrayServe(_, _) => StrayStepKeeps(s, e);
    case _ => PollStepKeeps(s, e);
  }

  // ---------------------------------------------------------------
  // Every run: exactly once, in order
  // ---------------------------------------------------------------

  ghost predicate CleanRun(events: seq<Event>)
  {
    forall k: nat | k < |events| ::
      var s := Run(INIT, events[..k]);
      !MidBatchSync(s, events[k]) && !(StaleCursor(s, events[k]) && s.server.known)
  }

  lemma {:induction false} CleanPrefix(events: seq<Event>, n: nat)
    requires CleanRun(events)
    requires n <= |events|
    ensures CleanRun(events[..n])
  {
    forall k: nat | k < n
      ensures var s := Run(INIT, events[..n][..k]);
              !MidBatchSync(s, events[..n][k]) && !(StaleCursor(s, events[..n][k]) && s.server.known)
    {
      assert events[..n][..k] == events[..k];
    }
  }

  lemma {:induction false} RunKeeps(events: seq<Event>)
    requires CleanRun(events)
    ensures Inv(Run(INIT, events))
  {
    if events != [] {
      var n := |events| - 1;
      CleanPrefix(events, n);
      RunKeeps(events[..n]);
      StepKeeps(Run(INIT, events[..n]), events[n]);
    }
  }

  /** On every clean run, whenever the client is in step with the server: it has
      handled exactly the first commands of the stream, once each and in order;
      every acknowledgement in flight covers only handled commands; and the
      server has discarded no unhandled command that its buffer accepted. */
  lemma {:induction false} CommandsExactlyOnce(events: seq<Event>)
    requires CleanRun(events)
    ensures var s := Run(INIT, events);
            s.synced ==>
              && s.client.session.commandCursor <= |s.server.emitted|
              && s.client.handled == s.server.emitted[..s.client.session.commandCursor]
              && (s.poll.Asked? ==> s.poll.ack <= s.client.session.commandCursor)
              && (forall a | a in s.strays :: a <= s.client.session.commandCursor)
              && (forall i: nat | s.client.session.commandCursor <= i < |s.server.emitted| ::
                    s.server.emitted[i] in s.server.pending || s.server.emitted[i].seqNo in s.server.rejected)
  {
    RunKeeps(events);
  }

  /** A stale cursor needs a heartbeat that failed while a full state was owed. */
  ghost predicate NoFailureWhileOwed(events: seq<Event>)
  {
    forall k: nat | k < |events| ::
      !(events[k].BeatError? && Run(INIT, events[..k]).client.session.sendFullState)
  }

  predicate OwedMeansRegistering(s: State)
  {
    && (s.client.session.sendFullState ==> s.client.session.conn.Registering?)
    && (!s.beat.NoBeat? && s.beat.round.fullState ==> s.beat.round.forRegistration)
  }

  lemma {:induction false} NoFailureNoStaleCursor(events: seq<Event>, e: Event)
    requires NoFailureWhileOwed(events)
    ensures OwedMeansRegistering(Run(INIT, events))
    ensures !StaleCursor(Run(INIT, events), e)
  {
    if events != [] {
      var n := |events| - 1;
      assert NoFailureWhileOwed(events[..n]) by {
        forall k: nat | k < n
          ensures !(events[..n][k].BeatError? && Run(INIT, events[..n][..k]).client.session.sendFullState)
        {
          assert events[..n][..k] == events[..k];
        }
      }
      NoFailureNoStaleCursor(events[..n], e);
      OwedStep(Run(INIT, events[..n]), events[n]);
    }
  }

  lemma {:induction false} OwedStep(s: State, e: Event)
    requires OwedMeansRegistering(s)
    requires !(e.BeatError? && s.client.session.sendFullState)
    ensures OwedMeansRegistering(Step(s, e))
  {
  }
}
