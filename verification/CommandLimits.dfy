/** Where command delivery stops: a cursor left over from an earlier stream, and
    a number the server's buffer refused. */
module CommandLimits {
  import opened ConnectionSession
  import opened CommandDelivery
  import opened CommandGuarantees

  // ---------------------------------------------------------------
  // A stale cursor loses commands
  // ---------------------------------------------------------------

  predicate StartsStream(s: State, e: Event)
  {
    e.BeatServe? && s.beat.Sent? && s.beat.round.fullState
  }

  ghost predicate NoNewStream(s: State, events: seq<Event>)
  {
    forall k: nat | k < |events| :: !StartsStream(Run(s, events[..k]), events[k])
  }

  /** Everything handled in the current stream has a number above `n`. */
  ghost predicate Beyond(s: State, stream: nat, n: nat)
  {
    && s.server.stream == stream
    && s.client.session.commandCursor >= n
    && (s.client.batch != [] ==> s.client.nextSeq > n)
    && (forall c | c in s.client.handled && c.stream == stream :: c.seqNo > n)
    && (s.beat.Served? ==> !s.beat.round.fullState)
  }

  lemma {:induction false} BeyondStep(s: State, e: Event, stream: nat, n: nat)
    requires Beyond(s, stream, n)
    requires !StartsStream(s, e)
    ensures Beyond(Step(s, e), stream, n)
  {
  }

  lemma {:induction false} BeyondRun(s: State, events: seq<Event>, stream: nat, n: nat)
    requires Beyond(s, stream, n)
    requires NoNewStream(s, events)
    ensures Beyond(Run(s, events), stream, n)
  {
    if events != [] {
      var m := |events| - 1;
      assert NoNewStream(s, events[..m]) by {
        forall k: nat | k < m ensures !StartsStream(Run(s, events[..m][..k]), events[..m][k]) {
          assert events[..m][..k] == events[..k];
        }
      }
      BeyondRun(s, events[..m], stream, n);
      BeyondStep(Run(s, events[..m]), events[m], stream, n);
    }
  }

  /** Once a full state was answered with a stale cursor at `n`, the commands 1 to
      `n` of the new stream are never handled, whatever happens until the next
      full sync. */
  lemma {:induction false} StaleCursorLosesCommands(s: State, e: Event, events: seq<Event>, c: Command)
    requires Inv(s)
    requires StaleCursor(s, e) && s.server.known
    requires NoNewStream(Step(s, e), events)
    requires c.stream == s.server.stream && c.seqNo <= s.client.session.commandCursor
    ensures c !in Run(Step(s, e), events).client.handled
  {
    BeyondRun(Step(s, e), events, s.server.stream, s.client.session.commandCursor);
  }

  // ---------------------------------------------------------------
  // A run that gets there
  // ---------------------------------------------------------------

  lemma {:induction false} Go(s: State, events: seq<Event>, e: Event) returns (t: State, more: seq<Event>)
    requires s == Run(INIT, events)
    ensures t == Step(s, e)
    ensures t == Run(INIT, more)
  {
    RunConcat(INIT, events, [e]);
    assert [e][..0] == [];
    t, more := Step(s, e), events + [e];
  }

  const FIRST_COMMAND := Command(1, 1, "", 1)
  const SERVING := Server(true, 1, [FIRST_COMMAND], [FIRST_COMMAND], 0, false, {})
  const APPLIED := Client(Session(Ready, true, false, 1, 1, 0), [], 2, [FIRST_COMMAND])

  lemma {:induction false} Registers() returns (s: State, events: seq<Event>)
    ensures s == Run(INIT, events)
    ensures s == State(FullSync(INIT_SERVER), Client(Session(Ready, true, false, 1, 0, 0), [], 1, []), NoBeat, NoPoll, [], true)
  {
    s, events := INIT, [];
    s, events := Go(s, events, BeatSend);
    s, events := Go(s, events, BeatServe);
    s, events := Go(s, events, BeatAnswer);
    assert s == State(INIT_SERVER, Client(Session(Registering, false, true, 1, 0, 0), [], 1, []), NoBeat, NoPoll, [], false);
    s, events := Go(s, events, BeatSend);
    s, events := Go(s, events, BeatServe);
    s, events := Go(s, events, BeatAnswer);
  }

  lemma {:induction false} Receives() returns (s: State, events: seq<Event>)
    ensures s == Run(INIT, events)
    ensures s == State(SERVING, Client(Session(Ready, true, false, 1, 0, 0), [], 1, []), NoBeat, NoPoll, [], true)
  {
    s, events := Registers();
    assert Number(s.server, [("", 1)]) == [FIRST_COMMAND];
    s, events := Go(s, events, NewCommands([("", 1)]));
  }

  lemma {:induction false} PollsOne() returns (s: State, events: seq<Event>)
    ensures s == Run(INIT, events)
    ensures s == State(SERVING, Client(Session(Ready, true, false, 1, 0, 0), [], 1, []), NoBeat, Replied([FIRST_COMMAND]), [], true)
  {
    s, events := Receives();
    s, events := Go(s, events, PollSend);
    s, events := Go(s, events, PollServe(true));
    s, events := Go(s, events, PollClone);
    assert CappedClone([FIRST_COMMAND]) == [FIRST_COMMAND];
  }

  lemma {:induction false} HandlesOne() returns (s: State, events: seq<Event>)
    ensures s == Run(INIT, events)
    ensures s == State(SERVING, APPLIED, NoBeat, NoPoll, [], true)
  {
    s, events := PollsOne();
    s, events := Go(s, events, PollReply);
    s, events := Go(s, events, ApplyNext(true));
  }

  /** Register, handle one command, be forgotten by the server, fail once while
      sending the full state, and send it again: the cursor is stale. */
  lemma {:induction false} StaleCursorReachable() returns (events: seq<Event>)
    ensures var s := Run(INIT, events); StaleCursor(s, BeatAnswer) && s.server.known
  {
    var s;
    s, events := HandlesOne();
    s, events := Go(s, events, Forget);
    s, events := Go(s, events, BeatSend);
    s, events := Go(s, events, BeatServe);
    s, events := Go(s, events, BeatAnswer);
    assert s.client.session == Session(Registering, true, true, 1, 1, 0);
    s, events := Go(s, events, BeatSend);
    s, events := Go(s, events, BeatError);
    assert s.client.session == Session(Unhealthy, false, true, 2, 1, 0);
    s, events := Go(s, events, BeatSend);
    s, events := Go(s, events, BeatServe);
  }

  // ---------------------------------------------------------------
  // Progress, and how a refused command stops it
  // ---------------------------------------------------------------

  lemma {:induction false} FirstUnacked(cmds: seq<Command>, ack: nat, c: Command)
    requires Ascending(cmds)
    requires c in cmds && c.seqNo == ack + 1
    ensures DropUpTo(cmds, ack) != [] && DropUpTo(cmds, ack)[0] == c
  {
    if cmds[0] != c {
      assert c in cmds[1..];
      assert cmds[0].seqNo < c.seqNo;
      FirstUnacked(cmds[1..], ack, c);
    }
  }

  /** A poll up to its reply, and from there to the first command. */
  function Fetched(s: State): State
  {
    Step(Step(Step(s, PollSend), PollServe(true)), PollClone)
  }

  function Received(s: State): State
  {
    Step(Step(s, PollReply), ApplyNext(true))
  }

  lemma {:induction false} ReplyIsApplied(s: State)
    requires s.poll.Replied?
    ensures Received(s).client
         == Apply(s.client.(batch := s.poll.commands, nextSeq := s.client.session.commandCursor + 1), true)
  {
  }

  /** What one poll fetches when nothing interferes: the outbox above the cursor. */
  lemma {:induction false} PollFetches(s: State) returns (t: State)
    requires Inv(s) && s.synced
    requires s.client.session.conn.Ready? && Quiet(s)
    ensures t == Fetched(s)
    ensures t.client == s.client && t.poll.Replied?
    ensures forall c | c in t.poll.commands :: c in s.server.pending && c.seqNo > s.client.session.commandCursor
    ensures var k := s.client.session.commandCursor;
            k < |s.server.emitted| && s.server.emitted[k] in s.server.pending ==>
              t.poll.commands != [] && t.poll.commands[0] == s.server.emitted[k]
  {
    var k := s.client.session.commandCursor;
    var s2 := Step(Step(s, PollSend), PollServe(true));
    t := Step(s2, PollClone);
    FetchesAbove(s.server, k);
    if k < |s.server.emitted| && s.server.emitted[k] in s.server.pending {
      if k > 0 {
        FirstUnacked(s.server.pending, k, s.server.emitted[k]);
      } else {
        FirstIsOne(s.server, s.server.emitted[k]);
      }
      assert s2.server.pending[0] == s.server.emitted[k];
    }
  }

  lemma {:induction false} FetchesAbove(sv: Server, k: nat)
    requires ServerInv(sv)
    ensures forall c | c in CappedClone(ServeAck(sv, k, true).pending) :: c in sv.pending && c.seqNo > k
  {
    var left := ServeAck(sv, k, true).pending;
    forall c | c in CappedClone(left)
      ensures c in sv.pending && c.seqNo > k
    {
      assert c in left;
      if k > 0 {
        DropUpToKeeps(sv.pending, k, c);
      } else {
        assert InStream(sv, c);
      }
    }
  }

  /** One undisturbed poll advances the client exactly when the outbox still has the
      next command, and then by handling that command. */
  lemma {:induction false} PollDelivers(s: State)
    requires Inv(s) && s.synced
    requires s.client.session.conn.Ready? && Quiet(s)
    requires s.client.session.commandCursor < |s.server.emitted|
    ensures var k := s.client.session.commandCursor;
            var t := Received(Fetched(s));
            if s.server.emitted[k] in s.server.pending
            then t.client.session.commandCursor == k + 1 && t.client.handled == s.server.emitted[..k + 1]
            else t.client.session.commandCursor == k && t.client.handled == s.client.handled
  {
    var k := s.client.session.commandCursor;
    var c := s.server.emitted[k];
    var s3 := PollFetches(s);
    assert s.server.emitted[..k + 1] == s.server.emitted[..k] + [c];
    if c !in s.server.pending {
      NextIsMissing(s.server, s3.poll.commands, k);
    }
    ReplyIsApplied(s3);
    FetchedIsApplied(s.client, s3.poll.commands, c, c in s.server.pending);
  }

  lemma {:induction false} NextIsMissing(sv: Server, commands: seq<Command>, k: nat)
    requires ServerInv(sv) && k < |sv.emitted| && sv.emitted[k] !in sv.pending
    requires forall x | x in commands :: x in sv.pending && x.seqNo > k
    ensures forall x | x in commands :: x.seqNo > k + 1
  {
    forall x | x in commands
      ensures x.seqNo > k + 1
    {
      assert InStream(sv, x);
    }
  }

  lemma {:induction false} FetchedIsApplied(c: Client, commands: seq<Command>, next: Command, present: bool)
    requires next.seqNo == c.session.commandCursor + 1
    requires present ==> commands != [] && commands[0] == next
    requires !present ==> forall x | x in commands :: x.seqNo > next.seqNo
    ensures var d := Apply(c.(batch := commands, nextSeq := c.session.commandCursor + 1), true);
            && d.session.commandCursor == c.session.commandCursor + (if present then 1 else 0)
            && d.handled == c.handled + (if present then [next] else [])
  {
    if !present && commands != [] {
      assert commands[0] in commands;
    }
  }

  lemma {:induction false} FirstIsOne(sv: Server, c: Command)
    requires ServerInv(sv)
    requires c in sv.pending && c.seqNo == 1
    ensures sv.pending[0] == c
  {
    var i :| 0 <= i < |sv.pending| && sv.pending[i] == c;
    assert InStream(sv, sv.pending[0]);
  }

  /** Command `k` is next, and it is nowhere on its way. */
  ghost predicate Stuck(s: State, k: nat)
  {
    && s.client.session.commandCursor == k - 1
    && (s.server.known ==> k <= |s.server.emitted|)
    && (forall c | c in s.server.pending :: c.seqNo != k)
    && (forall c | c in s.client.batch :: c.seqNo != k)
    && (s.client.batch != [] ==> s.client.nextSeq == k)
    && (s.poll.Replied? ==> forall c | c in s.poll.commands :: c.seqNo != k)
    && (s.beat.Served? ==> !s.beat.round.fullState)
  }

  lemma {:induction false} StuckServe(sv: Server, ack: nat, persisted: bool, k: nat)
    requires forall c | c in sv.pending :: c.seqNo != k
    ensures forall c | c in ServeAck(sv, ack, persisted).pending :: c.seqNo != k
  {
    forall c | c in DropUpTo(sv.pending, ack) ensures c.seqNo != k {
      DropUpToKeeps(sv.pending, ack, c);
    }
  }

  lemma {:induction false} StuckStep(s: State, e: Event, k: nat)
    requires Stuck(s, k)
    requires !StartsStream(s, e)
    ensures Stuck(Step(s, e), k)
  {
    match e
    case PollServe(persisted) => if s.poll.Asked? { StuckServe(s.server, s.poll.ack, persisted, k); }
    case StrayServe(i, persisted) => if i < |s.strays| { StuckServe(s.server, s.strays[i], persisted, k); }
    case NewCommands(_) =>
    case _ =>
  }

  /** A command the buffer refused stops the stream: until the next full sync no
      command is handled any more, although later ones keep arriving. */
  lemma {:induction false} RefusedCommandStopsStream(s: State, events: seq<Event>, k: nat)
    requires Stuck(s, k)
    requires NoNewStream(s, events)
    ensures Run(s, events).client.session.commandCursor == k - 1
    ensures Stuck(Run(s, events), k)
  {
    if events != [] {
      var m := |events| - 1;
      assert NoNewStream(s, events[..m]) by {
        forall i: nat | i < m ensures !StartsStream(Run(s, events[..m][..i]), events[..m][i]) {
          assert events[..m][..i] == events[..i];
        }
      }
      RefusedCommandStopsStream(s, events[..m], k);
      StuckStep(Run(s, events[..m]), events[m], k);
    }
  }

  /** An oversized batch offered to a client that is up to date gets it stuck. */
  lemma {:induction false} OversizedBatchSticks(s: State, items: seq<(string, nat)>)
    requires Inv(s) && s.synced
    requires Quiet(s) && s.beat.NoBeat?
    requires s.client.session.commandCursor == |s.server.emitted|
    requires Oversized(items)
    ensures Stuck(Step(s, NewCommands(items)), |s.server.emitted| + 1)
  {
    forall c | c in s.server.pending ensures c.seqNo != |s.server.emitted| + 1 {
      assert InStream(s.server, c);
    }
  }

  /** A run that does: register, and offer one command too big for a reply. */
  lemma {:induction false} OversizedCommandReachable() returns (events: seq<Event>)
    ensures Stuck(Run(INIT, events), 1)
  {
    var s;
    s, events := Registers();
    var items := [("", MAX_POLL_RESPONSE_BYTES + 1)];
    assert items[0] in items && Oversized(items);
    s, events := Go(s, events, NewCommands(items));
  }

  // ---------------------------------------------------------------
  // Polls and restarts
  // ---------------------------------------------------------------

  /** The client polls only between batches and only while ready, on every run. */
  lemma {:induction false} PollsBetweenBatches(events: seq<Event>)
    ensures var s := Run(INIT, events); !s.poll.NoPoll? ==> s.client.batch == []
  {
    if events != [] {
      PollsBetweenBatches(events[..|events| - 1]);
    }
  }

  /** A poll that arrives at a server without the executor ends at once and changes
      nothing there; one that is held when the executor is forgotten gets nothing. */
  lemma {:induction false} UnknownExecutorGetsNothing(s: State, persisted: bool)
    requires !s.server.known
    ensures s.poll.Asked? ==> Step(s, PollServe(persisted)) == s.(poll := NoPoll)
    ensures s.poll.Held? ==> Step(s, PollClone) == s.(poll := Replied([]))
  {
  }

  /** A restart of the stream begins with an empty outbox numbered from 1 and without
      a memory of acknowledgements: no acknowledgement is falling after it, and the
      server does not ask for the full state again. */
  lemma {:induction false} RestartIsClean(s: State, items: seq<(string, nat)>, ack: nat, persisted: bool)
    requires s.beat.Sent? && s.beat.round.fullState
    ensures
      var t := Step(s, BeatServe);
      && t.server.known && t.server.stream == s.server.stream + 1 && t.server.pending == [] && !t.synced
      && t.beat == Served(s.beat.round, false)
      && !ServeAck(t.server, ack, persisted).requestFullState
      && (items != [] && !Oversized(items) ==>
            var u := Step(t, NewCommands(items)); u.server.pending != [] && u.server.pending[0].seqNo == 1)
  {
    var t := Step(s, BeatServe);
    if items != [] {
      assert Number(t.server, items)[0].seqNo == 1;
    }
  }

  // ---------------------------------------------------------------
  // A falling acknowledgement
  // ---------------------------------------------------------------

  /** What serving an acknowledgement does to the outbox: it discards exactly the
      commands it covers, unless it covers none or could not be persisted, and it
      notices an acknowledgement lower than the last. */
  lemma {:induction false} ServeAckExactly(sv: Server, ack: nat, persisted: bool)
    ensures var t := ServeAck(sv, ack, persisted);
            && (forall c :: c in t.pending <==> c in sv.pending && (c.seqNo > ack || ack == 0 || !persisted))
            && (ack < sv.lastAcked ==> t.requestFullState && t.lastAcked == 0)
            && (ack >= sv.lastAcked ==> t.requestFullState == sv.requestFullState && t.lastAcked == ack)
            && t.known == sv.known && t.stream == sv.stream && t.emitted == sv.emitted && t.rejected == sv.rejected
  {
    forall c
      ensures c in DropUpTo(sv.pending, ack) <==> c in sv.pending && c.seqNo > ack
    {
      DropUpToKeeps(sv.pending, ack, c);
    }
  }

  /** No heartbeat is served and the executor is not forgotten. */
  predicate NoneServed(events: seq<Event>)
  {
    forall e | e in events :: !e.BeatServe? && !e.Forget?
  }

  lemma {:induction false} RequestStandsStep(s: State, e: Event)
    requires s.server.known && s.server.requestFullState && !e.BeatServe? && !e.Forget?
    ensures Step(s, e).server.known && Step(s, e).server.requestFullState
  {
  }

  lemma {:induction false} RequestStands(s: State, events: seq<Event>)
    requires s.server.known && s.server.requestFullState && NoneServed(events)
    ensures Run(s, events).server.known && Run(s, events).server.requestFullState
  {
    if events != [] {
      var init := events[..|events| - 1];
      assert forall e | e in init :: e in events;
      RequestStands(s, init);
      assert events[|events| - 1] in events;
      RequestStandsStep(Run(s, init), events[|events| - 1]);
    }
  }

  /** A poll whose acknowledgement is lower than the last one seen, as after a loss of
      the client's state, makes the next heartbeat ask for the full state, once,
      whatever happens in between. */
  lemma {:induction false} FallingAckAsksForState(s: State, persisted: bool, events: seq<Event>)
    requires s.server.known && s.poll.Asked? && s.poll.ack < s.server.lastAcked
    requires NoneServed(events)
    requires var u := Run(Step(s, PollServe(persisted)), events); u.beat.Sent? && !u.beat.round.fullState
    ensures var u := Run(Step(s, PollServe(persisted)), events);
            var v := Step(u, BeatServe);
            v.beat == Served(u.beat.round, true) && !v.server.requestFullState
  {
    ServeAckExactly(s.server, s.poll.ack, persisted);
    RequestStands(Step(s, PollServe(persisted)), events);
  }
}
