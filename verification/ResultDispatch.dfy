/** Delivery of function-call results: the loop over a poll_allocation_results
    response and the dispatcher that routes each result to a runner's channel. */
module ResultDispatch {
  import opened Basics

  datatype Entry = Entry(allocationId: string, payload: string)

  datatype Result = Result(seqNo: nat, entry: Option<Entry>)

  /** A result as it was offered: `epoch` counts the cursor resets so far. */
  datatype Offer = Offer(epoch: nat, seqNo: nat, entry: Entry)

  /** The unbounded channel of one registration. */
  datatype Channel = Channel(owner: string, open: bool, log: seq<Offer>)

  /** The dispatcher's map of senders, and every channel ever created. */
  datatype Router = Router(senders: map<string, nat>, channels: seq<Channel>)

  function Register(r: Router, id: string): Router
  {
    Router(r.senders[id := |r.channels|], r.channels + [Channel(id, true, [])])
  }

  function Deregister(r: Router, id: string): Router
  {
    r.(senders := r.senders - {id})
  }

  function CloseReceiver(r: Router, ch: nat): Router
  {
    if ch < |r.channels| then r.(channels := r.channels[ch := r.channels[ch].(open := false)]) else r
  }

  predicate Routable(r: Router, id: string)
  {
    id in r.senders && r.senders[id] < |r.channels| && r.channels[r.senders[id]].open
  }

  function Dispatch(r: Router, offer: Offer): Router
  {
    if Routable(r, offer.entry.allocationId) then
      var ch := r.senders[offer.entry.allocationId];
      r.(channels := r.channels[ch := r.channels[ch].(log := r.channels[ch].log + [offer])])
    else r
  }

  /** `batch` is what is left of the response being processed. `offered` is the
      history of the results taken out of responses, and `marks` says for each
      channel how many had been offered when it was registered. */
  datatype State = State(
    router: Router,
    cursor: nat,
    epoch: nat,
    nextSeq: nat,
    batch: seq<Result>,
    offered: seq<Offer>,
    marks: seq<nat>)

  const INIT := State(Router(map[], []), 0, 0, 1, [], [], [])

  datatype Event =
    | Started(id: string) | Finished(id: string) | Dropped(ch: nat)
    | CursorReset
    | Response(results: seq<Result>)
    | Next

  /** One iteration of the loop over a response. A malformed or unroutable result
      advances the cursor like any other. */
  function TakeNext(s: State): State
  {
    if s.batch == [] then s
    else
      var result := s.batch[0];
      if result.seqNo < s.nextSeq then s.(batch := s.batch[1..])
      else if result.seqNo > s.nextSeq then s.(batch := [])
      else
        var t := s.(batch := s.batch[1..], cursor := result.seqNo, nextSeq := s.nextSeq + 1);
        if result.entry.None? then t
        else
          var offer := Offer(s.epoch, result.seqNo, result.entry.value);
          t.(router := Dispatch(s.router, offer), offered := s.offered + [offer])
  }

  function Step(s: State, e: Event): State
  {
    match e
    case Started(id) => s.(router := Register(s.router, id), marks := s.marks + [|s.offered|])
    case Finished(id) => s.(router := Deregister(s.router, id))
    case Dropped(ch) => s.(router := CloseReceiver(s.router, ch))
    case CursorReset => s.(cursor := 0, epoch := s.epoch + 1)
    case Response(results) => if s.batch == [] then s.(batch := results, nextSeq := s.cursor + 1) else s
    case Next => TakeNext(s)
  }

  function Run(s: State, events: seq<Event>): State
  {
    if events == [] then s else Step(Run(s, events[..|events| - 1]), events[|events| - 1])
  }

  // ---------------------------------------------------------------
  // Every run
  // ---------------------------------------------------------------

  /** Later epoch, or the same epoch and a later number. */
  predicate Before(a: Offer, b: Offer)
  {
    a.epoch < b.epoch || (a.epoch == b.epoch && a.seqNo < b.seqNo)
  }

  predicate Increasing(log: seq<Offer>)
  {
    forall i: nat, j: nat | i < j < |log| :: Before(log[i], log[j])
  }

  /** Nothing in the log lies beyond the cursor. */
  predicate UpTo(log: seq<Offer>, epoch: nat, cursor: nat)
  {
    forall o | o in log :: o.epoch < epoch || (o.epoch == epoch && o.seqNo <= cursor)
  }

  predicate ChannelInv(c: Channel, epoch: nat, cursor: nat)
  {
    && Increasing(c.log)
    && UpTo(c.log, epoch, cursor)
    && (forall o | o in c.log :: o.entry.allocationId == c.owner)
  }

  predicate Within(log: seq<Offer>, offered: seq<Offer>)
  {
    forall o | o in log :: o in offered
  }

  ghost predicate Inv(s: State)
  {
    && (forall id | id in s.router.senders ::
          s.router.senders[id] < |s.router.channels| && s.router.channels[s.router.senders[id]].owner == id)
    && (forall ch: nat | ch < |s.router.channels| ::
          ChannelInv(s.router.channels[ch], s.epoch, s.cursor) && Within(s.router.channels[ch].log, s.offered))
    && Increasing(s.offered)
    && UpTo(s.offered, s.epoch, s.cursor)
    && (s.batch != [] ==> s.nextSeq > s.cursor)
  }

  lemma {:induction false} AppendInv(log: seq<Offer>, epoch: nat, cursor: nat, offer: Offer)
    requires Increasing(log) && UpTo(log, epoch, cursor)
    requires offer.epoch == epoch && offer.seqNo > cursor
    ensures Increasing(log + [offer]) && UpTo(log + [offer], epoch, offer.seqNo)
  {
    forall i: nat, j: nat | i < j < |log + [offer]| ensures Before((log + [offer])[i], (log + [offer])[j]) {
      if j == |log| {
        assert log[i] in log;
      }
    }
  }

  lemma {:induction false} TakeKeeps(s: State)
    requires Inv(s)
    ensures Inv(TakeNext(s))
  {
    var t := TakeNext(s);
    if t.offered != s.offered {
      var offer := t.offered[|s.offered|];
      AppendInv(s.offered, s.epoch, s.cursor, offer);
      forall ch: nat | ch < |t.router.channels|
        ensures ChannelInv(t.router.channels[ch], t.epoch, t.cursor) && Within(t.router.channels[ch].log, t.offered)
      {
        assert ChannelInv(s.router.channels[ch], s.epoch, s.cursor) && Within(s.router.channels[ch].log, s.offered);
        AppendInv(s.router.channels[ch].log, s.epoch, s.cursor, offer);
      }
    } else {
      forall ch: nat | ch < |t.router.channels|
        ensures ChannelInv(t.router.channels[ch], t.epoch, t.cursor) && Within(t.router.channels[ch].log, t.offered)
      {
        assert ChannelInv(s.router.channels[ch], s.epoch, s.cursor) && Within(s.router.channels[ch].log, s.offered);
      }
    }
  }

  lemma {:induction false} StepKeeps(s: State, e: Event)
    requires Inv(s)
    ensures Inv(Step(s, e))
  {
    if e.Next? {
      TakeKeeps(s);
    }
  }

  lemma {:induction false} RunKeeps(events: seq<Event>)
    ensures Inv(Run(INIT, events))
  {
    if events != [] {
      var init := events[..|events| - 1];
      RunKeeps(init);
      StepKeeps(Run(INIT, init), events[|events| - 1]);
    }
  }

  /** Between two cursor resets no result number is offered twice, under any
      responses and any registrations. */
  lemma {:induction false} OfferedAtMostOnce(events: seq<Event>, i: nat, j: nat)
    requires i < j < |Run(INIT, events).offered|
    ensures var offered := Run(INIT, events).offered;
            offered[i].epoch == offered[j].epoch ==> offered[i].seqNo < offered[j].seqNo
  {
    RunKeeps(events);
    var offered := Run(INIT, events).offered;
    assert Before(offered[i], offered[j]);
    assert offered[j] in offered;
  }

  /** A runner's channel receives only offered results of its own allocation, in
      increasing order. */
  lemma {:induction false} ChannelsReceiveInOrder(events: seq<Event>, ch: nat)
    requires ch < |Run(INIT, events).router.channels|
    ensures var s := Run(INIT, events);
            var c := s.router.channels[ch];
            && (forall o | o in c.log :: o.entry.allocationId == c.owner && o in s.offered)
            && Increasing(c.log)
  {
    RunKeeps(events);
    var s := Run(INIT, events);
    var c := s.router.channels[ch];
    assert ChannelInv(c, s.epoch, s.cursor) && Within(c.log, s.offered);
  }

  // ---------------------------------------------------------------
  // Every offered result reaches its runner
  // ---------------------------------------------------------------

  /** The offers for one allocation, in order. */
  function OffersFor(offered: seq<Offer>, id: string): seq<Offer>
  {
    if offered == [] then []
    else
      var last := offered[|offered| - 1];
      OffersFor(offered[..|offered| - 1], id) + if last.entry.allocationId == id then [last] else []
  }

  lemma {:induction false} OffersForAppend(offered: seq<Offer>, offer: Offer, id: string)
    ensures OffersFor(offered + [offer], id)
         == OffersFor(offered, id) + if offer.entry.allocationId == id then [offer] else []
  {
    assert (offered + [offer])[..|offered|] == offered;
  }

  /** The runner's channel is the one it is registered with, and holds exactly the
      results offered for its allocation since then. */
  predicate UpToDate(s: State, id: string)
    requires id in s.router.senders
  {
    var ch := s.router.senders[id];
    && ch < |s.router.channels| == |s.marks| && s.marks[ch] <= |s.offered|
    && (s.router.channels[ch].open ==> s.router.channels[ch].log == OffersFor(s.offered[s.marks[ch]..], id))
  }

  /** Two runners never share a channel. */
  ghost predicate Delivering(s: State)
  {
    && |s.marks| == |s.router.channels|
    && (forall id | id in s.router.senders :: UpToDate(s, id))
    && (forall a, b | a in s.router.senders && b in s.router.senders && a != b :: s.router.senders[a] != s.router.senders[b])
  }

  lemma {:induction false} TakeDelivers(s: State)
    requires Delivering(s)
    ensures Delivering(TakeNext(s))
  {
    var t := TakeNext(s);
    if |t.offered| > |s.offered| {
      var offer := t.offered[|s.offered|];
      forall id | id in t.router.senders
        ensures UpToDate(t, id)
      {
        assert UpToDate(s, id);
        var mark := s.marks[s.router.senders[id]];
        assert t.offered[mark..] == s.offered[mark..] + [offer];
        OffersForAppend(s.offered[mark..], offer, id);
      }
    } else {
      assert forall id | id in t.router.senders :: UpToDate(s, id);
    }
  }

  lemma {:induction false} StepDelivers(s: State, e: Event)
    requires Delivering(s)
    ensures Delivering(Step(s, e))
  {
    var t := Step(s, e);
    if e.Next? {
      TakeDelivers(s);
    } else {
      forall id | id in t.router.senders
        ensures UpToDate(t, id)
      {
        if e.Started? && e.id == id {
          assert s.offered[|s.offered|..] == [];
        } else {
          assert UpToDate(s, id);
        }
      }
      assert forall id | id in s.router.senders :: UpToDate(s, id);
    }
  }

  /** On every run: an open channel holds exactly the results offered for its
      allocation since the runner registered, each once and in order. */
  lemma {:induction false} OffersReachRunners(events: seq<Event>)
    ensures var s := Run(INIT, events);
            forall id | id in s.router.senders ::
              var ch := s.router.senders[id];
              && ch < |s.router.channels| && ch < |s.marks| && s.marks[ch] <= |s.offered|
              && (s.router.channels[ch].open ==> s.router.channels[ch].log == OffersFor(s.offered[s.marks[ch]..], id))
    ensures Delivering(Run(INIT, events))
  {
    if events != [] {
      OffersReachRunners(events[..|events| - 1]);
      StepDelivers(Run(INIT, events[..|events| - 1]), events[|events| - 1]);
    }
    var s := Run(INIT, events);
    assert forall id | id in s.router.senders :: UpToDate(s, id);
  }

  // ---------------------------------------------------------------
  // What a response achieves
  // ---------------------------------------------------------------

  function CountNexts(events: seq<Event>): nat
  {
    if events == [] then 0 else CountNexts(events[..|events| - 1]) + if events[|events| - 1].Next? then 1 else 0
  }

  /** Runners come and go while the loop proceeds. */
  predicate WithinOneResponse(events: seq<Event>)
  {
    forall e | e in events :: !e.CursorReset? && !e.Response?
  }

  function Min(a: nat, b: nat): nat
  {
    if a <= b then a else b
  }

  /** The first `m` results are numbered without gaps, from the next expected number
      or an earlier one; the one after them, if any, leaves a gap. */
  predicate GapFree(s: State, first: nat, m: nat)
  {
    && s.nextSeq == s.cursor + 1 && first <= s.nextSeq && m <= |s.batch|
    && (forall i: nat | i < m :: s.batch[i].seqNo == first + i)
    && (m < |s.batch| ==> s.batch[m].seqNo > s.nextSeq && s.batch[m].seqNo > first + m)
  }

  /** The well-formed results among the given ones that are beyond the cursor. */
  function NewOffers(results: seq<Result>, epoch: nat, cursor: nat): seq<Offer>
  {
    if results == [] then []
    else
      var last := results[|results| - 1];
      NewOffers(results[..|results| - 1], epoch, cursor)
      + if last.seqNo > cursor && last.entry.Some? then [Offer(epoch, last.seqNo, last.entry.value)] else []
  }

  lemma {:induction false} NewOffersNext(results: seq<Result>, epoch: nat, cursor: nat, n: nat)
    requires n < |results|
    ensures NewOffers(results[..n + 1], epoch, cursor)
         == NewOffers(results[..n], epoch, cursor)
            + if results[n].seqNo > cursor && results[n].entry.Some?
              then [Offer(epoch, results[n].seqNo, results[n].entry.value)] else []
  {
    assert results[..n + 1][..n] == results[..n];
  }

  /** The state of the loop after `n` results of a gap-free response: the new ones
      among them that are well-formed have been offered, in order. */
  predicate Reached(s: State, t: State, first: nat, n: nat)
  {
    && n <= |s.batch| && t.batch == s.batch[n..]
    && t.epoch == s.epoch
    && t.offered == s.offered + NewOffers(s.batch[..n], s.epoch, s.cursor)
    && t.cursor == (if first + n <= s.nextSeq then s.cursor else first + n - 1)
    && t.nextSeq == t.cursor + 1
  }

  lemma {:induction false} GapFreeStep(s: State, t: State, first: nat, m: nat, n: nat)
    requires GapFree(s, first, m) && Reached(s, t, first, n) && n < m
    ensures Reached(s, TakeNext(t), first, n + 1)
  {
    assert t.batch[0] == s.batch[n] && t.batch[1..] == s.batch[n + 1..];
    NewOffersNext(s.batch, s.epoch, s.cursor, n);
  }

  /** The loop is among the first `m` results, or past the gap after them. */
  predicate Progress(s: State, t: State, first: nat, m: nat, turns: nat)
    requires m <= |s.batch|
  {
    if turns <= m || m == |s.batch| then Reached(s, t, first, Min(turns, m))
    else t.batch == [] && Reached(s, t.(batch := s.batch[m..]), first, m)
  }

  lemma {:induction false} ProgressStep(s: State, t: State, first: nat, m: nat, turns: nat)
    requires GapFree(s, first, m) && Progress(s, t, first, m, turns)
    ensures Progress(s, TakeNext(t), first, m, turns + 1)
  {
    if turns < m {
      GapFreeStep(s, t, first, m, turns);
    } else if turns == m && m < |s.batch| {
      assert t.batch[0] == s.batch[m];
    }
  }

  lemma {:induction false} GapFreeProgress(s: State, events: seq<Event>, first: nat, m: nat)
    requires GapFree(s, first, m) && WithinOneResponse(events)
    ensures Progress(s, Run(s, events), first, m, CountNexts(events))
  {
    if events != [] {
      var init, last := events[..|events| - 1], events[|events| - 1];
      assert forall e | e in init :: e in events;
      GapFreeProgress(s, init, first, m);
      assert last in events;
      if last.Next? {
        ProgressStep(s, Run(s, init), first, m, CountNexts(init));
      }
    }
  }

  /** A response is processed up to its first gap, whatever comes after it: results
      already processed are skipped, the new ones are offered in order if they are
      well-formed, and the cursor ends on the last of them, whatever runners come and
      go meanwhile. Without a gap that is its last number. */
  lemma {:induction false} ResponseUpToGap(s: State, events: seq<Event>, first: nat, m: nat)
    requires GapFree(s, first, m) && WithinOneResponse(events)
    requires CountNexts(events) > m || CountNexts(events) == m == |s.batch|
    ensures var t := Run(s, events);
            && t.batch == [] && t.cursor == (if first + m <= s.nextSeq then s.cursor else first + m - 1)
            && t.offered == s.offered + NewOffers(s.batch[..m], s.epoch, s.cursor)
  {
    GapFreeProgress(s, events, first, m);
  }

  /** A response without gaps, which may repeat results already processed, moves the
      cursor to its last number, whether its results are malformed, unroutable or
      delivered and whatever runners come and go meanwhile. */
  lemma {:induction false} GapFreeResponseReachesLast(s: State, events: seq<Event>, first: nat)
    requires GapFree(s, first, |s.batch|) && s.batch != [] && WithinOneResponse(events)
    requires CountNexts(events) >= |s.batch|
    ensures var t := Run(s, events);
            var last := s.batch[|s.batch| - 1].seqNo;
            && t.batch == [] && t.cursor == (if last <= s.cursor then s.cursor else last)
            && t.offered == s.offered + NewOffers(s.batch, s.epoch, s.cursor)
  {
    ResponseUpToGap(s, events, first, |s.batch|);
    assert s.batch[..|s.batch|] == s.batch;
  }

  /** After a cursor reset between responses a stream numbered from 1 again is
      processed and offered from its beginning. */
  lemma {:induction false} RestartedStreamIsOffered(s: State, results: seq<Result>, events: seq<Event>)
    requires s.batch == [] && results != [] && WithinOneResponse(events) && CountNexts(events) >= |results|
    requires forall i: nat | i < |results| :: results[i].seqNo == 1 + i
    ensures var t := Run(Step(Step(s, CursorReset), Response(results)), events);
            t.cursor == |results| && t.offered == s.offered + NewOffers(results, s.epoch + 1, 0)
  {
    GapFreeResponseReachesLast(Step(Step(s, CursorReset), Response(results)), events, 1);
  }

  // ---------------------------------------------------------------
  // Channels that receive nothing more
  // ---------------------------------------------------------------

  /** The channel is no longer reachable, or its receiver is gone. */
  ghost predicate Silent(s: State, ch: nat)
  {
    ch < |s.router.channels|
    && (!s.router.channels[ch].open || forall id | id in s.router.senders :: s.router.senders[id] != ch)
  }

  lemma {:induction false} SilentStep(s: State, e: Event, ch: nat)
    requires Silent(s, ch)
    ensures Silent(Step(s, e), ch) && Step(s, e).router.channels[ch].log == s.router.channels[ch].log
  {
  }

  lemma {:induction false} SilentForGood(s: State, events: seq<Event>, ch: nat)
    requires Silent(s, ch)
    ensures Silent(Run(s, events), ch) && Run(s, events).router.channels[ch].log == s.router.channels[ch].log
  {
    if events != [] {
      SilentForGood(s, events[..|events| - 1], ch);
      SilentStep(Run(s, events[..|events| - 1]), events[|events| - 1], ch);
    }
  }

  /** A runner that deregisters, registers again, or drops its receiver gets nothing
      more in the channel it had, on any continuation. */
  lemma {:induction false} FormerChannelIsSilent(before: seq<Event>, id: string, e: Event, after: seq<Event>)
    requires id in Run(INIT, before).router.senders
    requires e == Finished(id) || e == Started(id) || e == Dropped(Run(INIT, before).router.senders[id])
    ensures var s := Run(INIT, before);
            var ch := s.router.senders[id];
            var t := Run(Step(s, e), after);
            && ch < |s.router.channels| && ch < |t.router.channels|
            && t.router.channels[ch].log == s.router.channels[ch].log
  {
    OffersReachRunners(before);
    var s := Run(INIT, before);
    assert UpToDate(s, id);
    assert forall x | x in s.router.senders :: UpToDate(s, x);
    SilentForGood(Step(s, e), after, s.router.senders[id]);
  }

  // ---------------------------------------------------------------
  // The loop and the dispatcher in their own form
  // ---------------------------------------------------------------

  lemma {:induction false} RunNext(s: State, script: seq<Event>, pos: nat)
    requires pos < |script|
    ensures Run(s, script[..pos + 1]) == Step(Run(s, script[..pos]), script[pos])
  {
    assert script[..pos + 1][..pos] == script[..pos];
  }

  class AllocationResultDispatcher {
    var senders: map<string, nat>
    var channels: seq<Channel>
    var lastAppliedResultSeq: nat
    /** History: the number of cursor resets. */
    var epoch: nat

    constructor ()
      ensures Mirrors(INIT)
    {
      senders, channels, lastAppliedResultSeq, epoch := map[], [], 0, 0;
    }

    ghost predicate Mirrors(s: State)
      reads this
    {
      View() == s.router && lastAppliedResultSeq == s.cursor && epoch == s.epoch
    }

    function View(): Router
      reads this
    {
      Router(senders, channels)
    }

    method RegisterRunner(id: string) returns (ch: nat)
      modifies this`senders, this`channels
      ensures View() == Register(old(View()), id)
      ensures ch == |old(channels)|
    {
      ch := |channels|;
      channels := channels + [Channel(id, true, [])];
      senders := senders[id := ch];
    }

    method DeregisterRunner(id: string)
      modifies this`senders
      ensures View() == Deregister(old(View()), id)
    {
      senders := senders - {id};
    }

    method DispatchResult(offer: Offer) returns (delivered: bool)
      modifies this`channels
      ensures View() == Dispatch(old(View()), offer)
      ensures delivered == Routable(old(View()), offer.entry.allocationId)
    {
      var id := offer.entry.allocationId;
      if id in senders && senders[id] < |channels| {
        var ch := senders[id];
        if channels[ch].open {
          channels := channels[ch := channels[ch].(log := channels[ch].log + [offer])];
          return true;
        }
      }
      return false;
    }

    /** What happens between two iterations: runners come and go, and the
        heartbeat loop may reset the cursor. */
    method Interfere(e: Event, ghost s: State)
      requires Mirrors(s)
      requires !e.Next? && !e.Response?
      modifies this
      ensures Mirrors(Step(s, e))
      ensures Step(s, e).batch == s.batch && Step(s, e).nextSeq == s.nextSeq
    {
      match e {
        case Started(id) => var _ := RegisterRunner(id);
        case Finished(id) => DeregisterRunner(id);
        case Dropped(ch) =>
          if ch < |channels| {
            channels := channels[ch := channels[ch].(open := false)];
          }
        case CursorReset => lastAppliedResultSeq, epoch := 0, epoch + 1;
        case Response(_) =>
        case Next =>
      }
    }

    /** The loop over one response. `script` lists what happens meanwhile; each
        `Next` in it lets the loop run one iteration. */
    method HandleResponse(results: seq<Result>, script: seq<Event>, ghost s0: State)
      requires Mirrors(s0)
      requires s0.batch == results && s0.nextSeq == s0.cursor + 1
      requires forall e | e in script :: !e.Response?
      modifies this
      ensures Mirrors(Run(s0, script))
    {
      var nextSeq := lastAppliedResultSeq + 1;
      var batch := results;
      var pos := 0;
      ghost var s := s0;
      while pos < |script|
        invariant 0 <= pos <= |script|
        invariant s == Run(s0, script[..pos])
        invariant Mirrors(s)
        invariant s.batch == batch && s.nextSeq == nextSeq
      {
        RunNext(s0, script, pos);
        if !script[pos].Next? {
          Interfere(script[pos], s);
        } else if batch != [] {
          var result := batch[0];
          if result.seqNo < nextSeq {
            batch := batch[1..];
          } else if result.seqNo > nextSeq {
            batch := [];
          } else {
            if result.entry.Some? {
              var _ := DispatchResult(Offer(epoch, result.seqNo, result.entry.value));
            }
            lastAppliedResultSeq := result.seqNo;
            nextSeq := nextSeq + 1;
            batch := batch[1..];
          }
        }
        s := Step(s, script[pos]);
        pos := pos + 1;
      }
      assert script[..pos] == script;
    }
  }
}
