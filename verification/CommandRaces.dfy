/** What goes wrong when the stream restarts while something of the old one is
    still under way, one run for each kind. */
module CommandRaces {
  import opened ConnectionSession
  import opened CommandDelivery
  import opened CommandGuarantees
  import opened CommandLimits

  /** The server forgets the executor and asks for its full state, which is now on
      its way. A poll without a reply is given up meanwhile. */
  lemma {:induction false} OwesFullState(s: State, events: seq<Event>) returns (t: State, more: seq<Event>)
    requires s == Run(INIT, events)
    requires s.beat.NoBeat? && s.client.session == Session(Ready, true, false, 1, s.client.session.commandCursor, 0)
    ensures t == Run(INIT, more)
    ensures t.beat == Sent(Round(true, true, true)) && !t.server.known && t.server.stream == s.server.stream
    ensures t.client == s.client.(session := Session(Registering, true, true, 1, s.client.session.commandCursor, 0))
    ensures t.poll == DropPoll(s).poll && t.strays == DropPoll(s).strays
  {
    t, more := Go(s, events, Forget);
    t, more := Go(t, more, BeatSend);
    t, more := Go(t, more, BeatServe);
    assert t.beat == Served(Round(true, false, false), true);
    t, more := Go(t, more, BeatAnswer);
    t, more := Go(t, more, BeatSend);
  }

  /** A reply of the old stream is applied after the restart: its command counts as
      the first one of the new stream. */
  lemma {:induction false} LateReplyIsApplied() returns (before: seq<Event>, after: seq<Event>)
    ensures MidBatchSync(Run(INIT, before), BeatServe) && Run(INIT, before).poll.Replied?
    ensures var s := Run(INIT, before + after); s.synced && !HandledPrefix(s.server, s.client)
  {
    var s, events := PollsOne();
    s, before := OwesFullState(s, events);
    var t := Step(s, BeatServe);
    after := [BeatServe, BeatAnswer, PollReply, ApplyNext(true)];
    FourSteps(s, after);
    RunConcat(INIT, before, after);
    var u := Step(Step(t, BeatAnswer), PollReply);
    assert u.client.batch == [FIRST_COMMAND] && u.client.nextSeq == 1;
  }

  /** The same with a reply that is being applied when the stream restarts. */
  lemma {:induction false} HalfAppliedReplyGoesOn() returns (before: seq<Event>, after: seq<Event>)
    ensures MidBatchSync(Run(INIT, before), BeatServe) && Run(INIT, before).client.batch != []
    ensures var s := Run(INIT, before + after); s.synced && !HandledPrefix(s.server, s.client)
  {
    var s, events := PollsOne();
    s, events := Go(s, events, PollReply);
    s, before := OwesFullState(s, events);
    after := [BeatServe, BeatAnswer, ApplyNext(true), PollLost];
    FourSteps(s, after);
    RunConcat(INIT, before, after);
    OldCommandCounts(s);
  }

  lemma {:induction false} OldCommandCounts(s: State)
    requires s.beat == Sent(Round(true, true, true)) && s.client.batch == [FIRST_COMMAND] && s.client.nextSeq == 1
    ensures var t := Step(Step(Step(Step(s, BeatServe), BeatAnswer), ApplyNext(true)), PollLost);
            t.synced && !HandledPrefix(t.server, t.client)
  {
    var u := Step(Step(s, BeatServe), BeatAnswer);
    assert u.synced && u.server.emitted == [] && u.client.batch == [FIRST_COMMAND] && u.client.nextSeq == 1;
  }

  /** A request the client gave up is served after the restart: its acknowledgement
      discards a command of the new stream that was never handled. */
  lemma {:induction false} StrayAckDiscardsCommand() returns (before: seq<Event>, after: seq<Event>)
    ensures MidBatchSync(Run(INIT, before), BeatServe) && Run(INIT, before).strays == [1]
    ensures var s := Run(INIT, before + after); s.synced && !NothingDiscarded(s.server, s.client)
  {
    var s, events := HandlesOne();
    s, events := Go(s, events, PollSend);
    s, before := OwesFullState(s, events);
    assert 1 in s.strays;
    after := [BeatServe, NewCommands([("", 1)]), StrayServe(0, true), BeatAnswer];
    FourSteps(s, after);
    RunConcat(INIT, before, after);
    var c := NewStream(s);
    StrayAckServed(Step(Step(s, BeatServe), NewCommands([("", 1)])), c);
  }

  lemma {:induction false} NewStream(s: State) returns (c: Command)
    requires s.beat == Sent(Round(true, true, true))
    ensures c.seqNo == 1
    ensures var t := Step(Step(s, BeatServe), NewCommands([("", 1)]));
            && t == s.(server := t.server, beat := Served(s.beat.round, false), synced := false)
            && t.server.known && t.server.emitted == t.server.pending == [c] && t.server.rejected == {}
  {
    var sv := FullSync(s.server);
    c := Command(1, sv.stream, "", 1);
    assert Number(sv, [("", 1)]) == [c];
  }

  lemma {:induction false} StrayAckServed(u: State, c: Command)
    requires u.beat == Served(Round(true, true, true), false) && u.strays == [1]
    requires c.seqNo == 1 && u.server.known && u.server.emitted == u.server.pending == [c] && u.server.rejected == {}
    ensures var w := Step(Step(u, StrayServe(0, true)), BeatAnswer); w.synced && !NothingDiscarded(w.server, w.client)
  {
    var v := Step(u, StrayServe(0, true));
    assert [c][1..] == [] && DropUpTo([c], 1) == DropUpTo([], 1);
    assert v.server.emitted[0] !in v.server.pending && v.server.emitted[0].seqNo !in v.server.rejected;
  }

  lemma {:induction false} FourSteps(s: State, es: seq<Event>)
    requires |es| == 4
    ensures Run(s, es) == Step(Step(Step(Step(s, es[0]), es[1]), es[2]), es[3])
  {
    assert es[..3][..2] == es[..2] && es[..2][..1] == es[..1] && es[..1][..0] == [];
    assert Run(s, es[..1]) == Step(s, es[0]);
    assert Run(s, es[..2]) == Step(Run(s, es[..1]), es[1]);
    assert Run(s, es[..3]) == Step(Run(s, es[..2]), es[2]);
  }
}
