/** The poll loop against an arbitrary server: replies may repeat, skip or shuffle
    commands, any command may fail to apply, and the heartbeat loop may reset the
    cursor at any moment, even while a reply is being applied. */
module CommandReplies {
  import opened ConnectionSession
  import opened CommandDelivery
  import opened CommandPolling

  /** `acks` are the acknowledgements sent since the last reset. */
  datatype Poller = Poller(client: Client, acks: seq<nat>, past: seq<Epoch>)

  const INIT_POLLER := Poller(INIT_CLIENT, [], [])

  datatype Occurrence = Ask | Reply(commands: seq<Command>) | Next(applied: bool) | Reset

  function Cursor(p: Poller): nat
  {
    p.client.session.commandCursor
  }

  /** A request is built and a reply received only between batches; a reset leaves
      the local state of a batch in progress alone. */
  function Proceed(p: Poller, o: Occurrence): Poller
  {
    match o
    case Ask => if p.client.batch == [] then p.(acks := p.acks + [Cursor(p)]) else p
    case Reply(commands) =>
      if p.client.batch == [] then p.(client := p.client.(batch := commands, nextSeq := Cursor(p) + 1)) else p
    case Next(applied) => p.(client := Apply(p.client, applied))
    case Reset =>
      Poller(p.client.(session := p.client.session.(commandCursor := 0), handled := []),
             [],
             p.past + [Epoch(p.client.handled, p.acks)])
  }

  function PollRun(os: seq<Occurrence>): Poller
  {
    if os == [] then INIT_POLLER else Proceed(PollRun(os[..|os| - 1]), os[|os| - 1])
  }

  /** The handled commands are numbered from 1 on without gap or repetition, and no
      acknowledgement goes beyond them. */
  predicate InOrder(e: Epoch)
  {
    && (forall i | 0 <= i < |e.handled| :: e.handled[i].seqNo == i + 1)
    && (forall a | a in e.acks :: a <= |e.handled|)
  }

  predicate ExactlyOnce(p: Poller)
  {
    && |p.client.handled| == Cursor(p)
    && InOrder(Epoch(p.client.handled, p.acks))
    && forall e | e in p.past :: InOrder(e)
  }

  /** The loop applies the command its local expectation names although the cursor
      was reset underneath it. */
  predicate StaleApply(p: Poller, o: Occurrence)
  {
    && o.Next? && o.applied && p.client.batch != []
    && p.client.batch[0].seqNo == p.client.nextSeq != Cursor(p) + 1
  }

  lemma {:induction false} ProceedExact(p: Poller, o: Occurrence)
    requires ExactlyOnce(p)
    ensures ExactlyOnce(Proceed(p, o)) <==> !StaleApply(p, o)
  {
    var t := Proceed(p, o);
    if StaleApply(p, o) {
      assert t.client.handled[|p.client.handled|].seqNo == p.client.nextSeq;
    }
  }

  ghost predicate AlwaysExactlyOnce(os: seq<Occurrence>)
  {
    ExactlyOnce(PollRun(os)) && (os == [] || AlwaysExactlyOnce(os[..|os| - 1]))
  }

  ghost predicate NeverStale(os: seq<Occurrence>)
  {
    os == [] || (NeverStale(os[..|os| - 1]) && !StaleApply(PollRun(os[..|os| - 1]), os[|os| - 1]))
  }

  /** Whatever the server replies and whatever fails to apply: in every epoch the
      handled commands are 1, 2, 3, ..., once each and in order, the cursor counts
      them and every acknowledgement covers only handled commands, throughout the
      run, exactly when no command is applied on a stale expectation. */
  lemma {:induction false} HandledExactlyOnce(os: seq<Occurrence>)
    ensures AlwaysExactlyOnce(os) <==> NeverStale(os)
  {
    if os != [] {
      var init := os[..|os| - 1];
      HandledExactlyOnce(init);
      if ExactlyOnce(PollRun(init)) {
        ProceedExact(PollRun(init), os[|os| - 1]);
      }
    }
  }

  /** A request acknowledges everything handled since the last reset, and a reset ends
      the epoch with what it handled and acknowledged. */
  lemma {:induction false} AsksAndResets(p: Poller)
    requires ExactlyOnce(p)
    ensures p.client.batch == [] ==> Proceed(p, Ask).acks == p.acks + [|p.client.handled|]
    ensures Proceed(p, Reset).past == p.past + [Epoch(p.client.handled, p.acks)] && Cursor(Proceed(p, Reset)) == 0
  {
  }

  // ---------------------------------------------------------------
  // Resets between batches
  // ---------------------------------------------------------------

  ghost predicate ResetsBetweenBatches(os: seq<Occurrence>)
  {
    if os == [] then true
    else
      var init := os[..|os| - 1];
      ResetsBetweenBatches(init) && !(os[|os| - 1].Reset? && PollRun(init).client.batch != [] && Cursor(PollRun(init)) > 0)
  }

  predicate Expecting(p: Poller)
  {
    p.client.batch != [] ==> p.client.nextSeq == Cursor(p) + 1
  }

  lemma {:induction false} BetweenBatchesExpecting(os: seq<Occurrence>)
    requires ResetsBetweenBatches(os)
    ensures Expecting(PollRun(os)) && NeverStale(os)
  {
    if os != [] {
      BetweenBatchesExpecting(os[..|os| - 1]);
    }
  }

  /** When the cursor is reset only between batches the guarantee holds for every
      server and every pattern of failures. */
  lemma {:induction false} ResetsBetweenBatchesSuffice(os: seq<Occurrence>)
    requires ResetsBetweenBatches(os)
    ensures ExactlyOnce(PollRun(os))
  {
    BetweenBatchesExpecting(os);
    HandledExactlyOnce(os);
  }

  /** A reset in the middle of a batch: command 2 is the first one handled after it. */
  lemma {:induction false} MidBatchResetSkips(first: Command, second: Command)
    requires first.seqNo == 1 && second.seqNo == 2
    ensures var p := PollRun([Reply([first, second]), Next(true), Reset, Next(true)]);
            p.client.handled == [second] && Cursor(p) == 2 && !ExactlyOnce(p)
  {
    var a, b: seq<Occurrence>, c := [Reply([first, second])], [Reply([first, second]), Next(true)], Next(true);
    var d: seq<Occurrence> := [Reply([first, second]), Next(true), Reset];
    var all := d + [c];
    assert a[..0] == [] && b[..1] == a && d[..2] == b && all[..3] == d;
    assert PollRun(a) == Proceed(INIT_POLLER, a[0]);
    assert PollRun(b) == Proceed(PollRun(a), Next(true));
    assert PollRun(d) == Proceed(PollRun(b), Reset);
    assert PollRun(all) == Proceed(PollRun(d), Next(true));
    assert all == [Reply([first, second]), Next(true), Reset, Next(true)];
  }
}
