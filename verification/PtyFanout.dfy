/** Fan-out of PTY output: the reader task pushes a chunk to the history buffer
    under one lock and broadcasts it under another, while subscribers take both
    locks. Every lock acquisition is a step of its own. */
module PtyFanout {
  import opened Basics
  import opened Sequences
  import opened PtyOutput

  const PTY_READ_BUF_SIZE: nat := 4096

  /** A finished subscription: the cloned history and, if the stream was still
      open, the messages broadcast to its receiver. `cloned` and `base` are
      history: how many chunks had been pushed and broadcast at that moment. */
  datatype Subscriber = Subscriber(
    history: seq<Bytes>,
    attached: bool,
    live: seq<Bytes>,
    cloned: nat,
    base: nat)

  /** The subscription in progress, if any: it holds the buffer lock, and after
      attaching the sender lock too. */
  datatype Holder = NoHolder | BufferLocked | BothLocked(attached: bool, base: nat)

  /** `pushed` are the chunks the reader put in the buffer, `sent` how many of
      them it has broadcast. */
  datatype State = State(
    pushed: seq<Bytes>,
    sent: nat,
    open: bool,
    holder: Holder,
    subscribers: seq<Subscriber>)

  const INIT := State([], 0, true, NoHolder, [])

  datatype Event =
    | Read(data: Bytes)
    | Broadcast
    | ReaderExit
    | LockBuffer
    | Attach
    | CloneAndRelease

  function Deliver(subs: seq<Subscriber>, data: Bytes): seq<Subscriber>
  {
    seq(|subs|, i requires 0 <= i < |subs| =>
      if subs[i].attached then subs[i].(live := subs[i].live + [data]) else subs[i])
  }

  /** A step whose lock is taken, or that its task is not ready for, does not
      happen. The reader is between chunks when everything pushed was sent. */
  function Step(s: State, e: Event): State
  {
    match e
    case Read(data) =>
      if s.open && s.sent == |s.pushed| && s.holder.NoHolder? && 0 < |data| <= PTY_READ_BUF_SIZE
      then s.(pushed := s.pushed + [data]) else s
    case Broadcast =>
      if s.sent < |s.pushed| && !s.holder.BothLocked?
      then s.(sent := s.sent + 1, subscribers := Deliver(s.subscribers, s.pushed[s.sent])) else s
    case ReaderExit =>
      if s.sent == |s.pushed| && !s.holder.BothLocked? then s.(open := false) else s
    case LockBuffer =>
      if s.holder.NoHolder? then s.(holder := BufferLocked) else s
    case Attach =>
      if s.holder.BufferLocked? then s.(holder := BothLocked(s.open, s.sent)) else s
    case CloneAndRelease =>
      if s.holder.BothLocked?
      then s.(holder := NoHolder,
              subscribers := s.subscribers + [Subscriber(Retained(s.pushed), s.holder.attached, [], |s.pushed|, s.holder.base)])
      else s
  }

  function Run(s: State, events: seq<Event>): State
  {
    if events == [] then s else Step(Run(s, events[..|events| - 1]), events[|events| - 1])
  }

  // ---------------------------------------------------------------
  // Invariant
  // ---------------------------------------------------------------

  predicate ReaderInv(s: State)
  {
    && s.sent <= |s.pushed| <= s.sent + 1
    && (!s.open ==> s.sent == |s.pushed|)
    && (forall c | c in s.pushed :: |c| <= PTY_READ_BUF_SIZE)
    && (s.holder.BothLocked? ==> s.holder.base == s.sent && s.holder.attached == s.open)
  }

  /** What a subscriber has: the history as of `cloned`, and every chunk broadcast
      since `base`; at most one chunk was pushed but not yet broadcast. */
  predicate SubscriberInv(s: State, sub: Subscriber)
  {
    && sub.base <= sub.cloned <= sub.base + 1
    && sub.cloned <= |s.pushed| && sub.base <= s.sent <= |s.pushed|
    && sub.history == Retained(s.pushed[..sub.cloned])
    && (sub.attached ==> sub.live == s.pushed[sub.base..s.sent])
    && (!sub.attached ==> sub.live == [] && !s.open && sub.cloned == sub.base == s.sent)
  }

  ghost predicate Inv(s: State)
  {
    ReaderInv(s) && forall i | 0 <= i < |s.subscribers| :: SubscriberInv(s, s.subscribers[i])
  }

  lemma {:induction false} ReadKeeps(s: State, data: Bytes, sub: Subscriber)
    requires ReaderInv(s) && SubscriberInv(s, sub)
    ensures SubscriberInv(Step(s, Read(data)), sub)
  {
    SlicesStay(s.pushed, data, sub.base, s.sent);
    SlicesStay(s.pushed, data, 0, sub.cloned);
  }

  lemma {:induction false} SlicesStay(pushed: seq<Bytes>, data: Bytes, lo: nat, hi: nat)
    requires lo <= hi <= |pushed|
    ensures (pushed + [data])[lo..hi] == pushed[lo..hi] && (pushed + [data])[..hi] == pushed[..hi]
  {
  }

  lemma {:induction false} BroadcastKeeps(s: State, sub: Subscriber)
    requires ReaderInv(s) && SubscriberInv(s, sub)
    requires s.sent < |s.pushed| && !s.holder.BothLocked?
    ensures SubscriberInv(Step(s, Broadcast), if sub.attached then sub.(live := sub.live + [s.pushed[s.sent]]) else sub)
  {
    assert s.pushed[sub.base..s.sent + 1] == s.pushed[sub.base..s.sent] + [s.pushed[s.sent]];
  }

  lemma {:induction false} StepKeeps(s: State, e: Event)
    requires Inv(s)
    ensures Inv(Step(s, e))
  {
    var t := Step(s, e);
    forall i | 0 <= i < |t.subscribers| ensures SubscriberInv(t, t.subscribers[i]) {
      if i < |s.subscribers| {
        var sub := s.subscribers[i];
        assert SubscriberInv(s, sub);
        match e
        case Read(data) => ReadKeeps(s, data, sub);
        case Broadcast => if s.sent < |s.pushed| && !s.holder.BothLocked? { BroadcastKeeps(s, sub); }
        case _ =>
      } else {
        assert s.pushed[..|s.pushed|] == s.pushed;
      }
    }
  }

  lemma {:induction false} RunKeeps(events: seq<Event>)
    ensures Inv(Run(INIT, events))
  {
    if events != [] {
      var init := events[..|events| - 1];
      RunKeeps(init);
      StepKeeps(Run(INIT, init), events[|events| - 1]);
    }
  }

  // ---------------------------------------------------------------
  // The seam between history and live output
  // ---------------------------------------------------------------

  ghost predicate GapFree(pushed: seq<Bytes>, sent: nat, sub: Subscriber)
  {
    && sub.cloned <= |pushed|
    && sub.base <= sub.cloned <= sub.base + 1
    && sub.cloned - sub.base <= |sub.history|
    && var from := Cut(pushed[..sub.cloned]);
    && from <= sent <= |pushed|
    && var repeated := sub.cloned - sub.base;
    && sub.history[..|sub.history| - repeated] + sub.live == pushed[from..sent]
    && (repeated == 1 && sub.live != [] ==> sub.live[0] == sub.history[|sub.history| - 1])
  }

  /** However the subscription interleaves with the reader: dropping the chunks in
      flight at the seam, at most one, from the end of the history makes history
      and live output one gap-free stretch of the output, from the start of the
      history to the last broadcast chunk. */
  lemma {:induction false} SeamIsGapFree(events: seq<Event>, i: nat)
    requires i < |Run(INIT, events).subscribers|
    ensures var s := Run(INIT, events);
            GapFree(s.pushed, s.sent, s.subscribers[i])
  {
    RunKeeps(events);
    var s := Run(INIT, events);
    assert SubscriberInv(s, s.subscribers[i]);
    SubscriberIsGapFree(s, s.subscribers[i]);
  }

  lemma {:induction false} SubscriberIsGapFree(s: State, sub: Subscriber)
    requires ReaderInv(s) && SubscriberInv(s, sub)
    ensures GapFree(s.pushed, s.sent, sub)
  {
    var seen := s.pushed[..sub.cloned];
    var from := Cut(seen);
    assert sub.history == s.pushed[from..sub.cloned];
    if sub.cloned > sub.base {
      assert seen[|seen| - 1] in s.pushed;
      LastIsRetained(seen);
      assert sub.history[..|sub.history| - 1] == s.pushed[from..sub.base];
      assert sub.history[|sub.history| - 1] == s.pushed[sub.base];
    }
    if sub.attached {
      assert s.pushed[from..sub.base] + s.pushed[sub.base..s.sent] == s.pushed[from..s.sent];
    } else {
      assert s.pushed[from..sub.base] + [] == s.pushed[from..s.sent];
    }
  }

  /** The reader exits once everything it read is broadcast, unless a subscriber is
      just attaching; after that the output does not change any more. */
  lemma {:induction false} ReaderExitCloses(s: State, e: Event)
    requires ReaderInv(s)
    ensures s.open ==> (Step(s, ReaderExit).open <==> s.sent < |s.pushed| || s.holder.BothLocked?)
    ensures !s.open ==> !Step(s, e).open && Step(s, e).pushed == s.pushed && Step(s, e).sent == s.sent
  {
  }

  /** Once the reader has exited, every subscriber has all output up to the end. */
  lemma {:induction false} ClosedMeansComplete(events: seq<Event>, i: nat)
    requires !Run(INIT, events).open
    requires i < |Run(INIT, events).subscribers|
    ensures var s := Run(INIT, events);
            var sub := s.subscribers[i];
            sub.base <= s.sent == |s.pushed| && sub.live == s.pushed[sub.base..]
  {
    RunKeeps(events);
    var s := Run(INIT, events);
    assert SubscriberInv(s, s.subscribers[i]);
  }

  /** The repetition does occur: subscribe between the push and the broadcast. */
  lemma {:induction false} RepeatIsReachable(data: Bytes) returns (events: seq<Event>)
    requires 0 < |data| <= PTY_READ_BUF_SIZE
    ensures var s := Run(INIT, events);
            |s.subscribers| == 1 && s.subscribers[0].history == s.subscribers[0].live == [data]
  {
    var s1 := Step(INIT, Read(data));
    var s2 := Step(s1, LockBuffer);
    var s3 := Step(s2, Attach);
    var s4 := Step(s3, CloneAndRelease);
    var es: seq<Event> := [Read(data), LockBuffer, Attach, CloneAndRelease];
    assert es[..3] == [Read(data), LockBuffer, Attach] && es[..3][..2] == [Read(data), LockBuffer];
    assert es[..3][..2][..1] == [Read(data)] && [Read(data)][..0] == [];
    assert Run(INIT, [Read(data)]) == s1;
    assert Run(INIT, [Read(data), LockBuffer]) == s2;
    assert Run(INIT, [Read(data), LockBuffer, Attach]) == s3;
    assert Run(INIT, es) == s4;
    LastIsRetained([data]);
    events := es + [Broadcast];
    assert events[..4] == es;
  }
}
