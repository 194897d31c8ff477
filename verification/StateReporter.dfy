/** The pending-report buffers of the dataplane and the size-bounded batches
    taken from them. */
module StateReporter {

  const STATE_REPORT_MAX_MESSAGE_SIZE: nat := 10 * 1024 * 1024
  const STATE_REPORT_MAX_PENDING_ITEMS: nat := 50_000

  /** A report message together with its protobuf-encoded length. */
  datatype Report = Report(payload: string, encodedLen: nat)

  /** Encoded length of a list of reports. */
  function TotalLen(items: seq<Report>): nat
  {
    if items == [] then 0 else TotalLen(items[..|items| - 1]) + items[|items| - 1].encodedLen
  }

  lemma {:induction false} TotalLenAppend(items: seq<Report>, item: Report)
    ensures TotalLen(items + [item]) == TotalLen(items) + item.encodedLen
  {
    assert (items + [item])[..|items|] == items;
  }

  lemma {:induction false} TotalLenNext(items: seq<Report>, k: nat)
    requires k < |items|
    ensures TotalLen(items[..k + 1]) == TotalLen(items[..k]) + items[k].encodedLen
  {
    assert items[..k + 1] == items[..k] + [items[k]];
    TotalLenAppend(items[..k], items[k]);
  }

  lemma {:induction false} TotalLenMonotone(items: seq<Report>, j: nat, k: nat)
    requires j <= k <= |items|
    ensures TotalLen(items[..j]) <= TotalLen(items[..k])
  {
    if j < k {
      TotalLenMonotone(items, j, k - 1);
      TotalLenNext(items, k - 1);
    }
  }

  /** Buffer contents after an arriving item: an item that finds the buffer at
      its cap is dropped, so the front never moves under an in-flight batch. */
  function Accept(items: seq<Report>, item: Report): seq<Report>
  {
    if |items| >= STATE_REPORT_MAX_PENDING_ITEMS then items else items + [item]
  }

  /** A batch of `count` items is the longest prefix that keeps the message
      under the limit, except that the first item is always taken. */
  ghost predicate IsBatch(base: nat, items: seq<Report>, count: nat)
  {
    && count <= |items|
    && (items != [] ==> count >= 1)
    && (count <= 1 || base + TotalLen(items[..count]) < STATE_REPORT_MAX_MESSAGE_SIZE)
    && (forall k | count < k <= |items| ::
          base + TotalLen(items[..k]) >= STATE_REPORT_MAX_MESSAGE_SIZE)
  }

  /** How many items extend a batch of `taken` items already holding `size` bytes. */
  function Grow(size: nat, items: seq<Report>, taken: nat): nat
    requires taken <= |items|
    decreases |items| - taken
  {
    if taken == |items| || size + items[taken].encodedLen >= STATE_REPORT_MAX_MESSAGE_SIZE
    then taken
    else Grow(size + items[taken].encodedLen, items, taken + 1)
  }

  function BatchLen(base: nat, items: seq<Report>): (count: nat)
    ensures IsBatch(base, items, count)
  {
    if items == [] then 0 else
      TotalLenNext(items, 0);
      GrowIsMaximal(base, items, 1);
      Grow(base + items[0].encodedLen, items, 1)
  }

  lemma {:induction false} GrowIsMaximal(base: nat, items: seq<Report>, taken: nat)
    requires 1 <= taken <= |items|
    requires taken == 1 || base + TotalLen(items[..taken]) < STATE_REPORT_MAX_MESSAGE_SIZE
    ensures IsBatch(base, items, Grow(base + TotalLen(items[..taken]), items, taken))
    decreases |items| - taken
  {
    if taken < |items| {
      TotalLenNext(items, taken);
      if base + TotalLen(items[..taken + 1]) < STATE_REPORT_MAX_MESSAGE_SIZE {
        GrowIsMaximal(base, items, taken + 1);
      } else {
        forall k | taken < k <= |items|
          ensures base + TotalLen(items[..k]) >= STATE_REPORT_MAX_MESSAGE_SIZE
        {
          TotalLenMonotone(items, taken + 1, k);
        }
      }
    }
  }

  /** The batch is determined: no other prefix is a longest fitting one. */
  lemma {:induction false} BatchIsUnique(base: nat, items: seq<Report>, count: nat)
    requires IsBatch(base, items, count)
    ensures count == BatchLen(base, items)
  {
  }

  lemma {:induction false} TotalLenBound(items: seq<Report>, m: nat)
    requires forall item | item in items :: item.encodedLen <= m
    requires |items| <= 1
    ensures TotalLen(items) <= m
  {
    if items != [] {
      assert items[..0] == [];
    }
  }

  /** The batches of one heartbeat request: each collect starts from the size of
      the ones before it. */
  lemma {:induction false} RequestSizeBound(responses: seq<Report>, outcomes: seq<Report>, entries: seq<Report>, m: nat)
    requires m <= STATE_REPORT_MAX_MESSAGE_SIZE
    requires forall item | item in responses + outcomes + entries :: item.encodedLen <= m
    ensures var a := TotalLen(responses[..BatchLen(0, responses)]);
            var b := TotalLen(outcomes[..BatchLen(a, outcomes)]);
            var c := TotalLen(entries[..BatchLen(a + b, entries)]);
            a + b + c <= STATE_REPORT_MAX_MESSAGE_SIZE + 2 * m
  {
    var a := CollectBound(0, responses, m);
    var b := CollectBound(a, outcomes, m);
    var c := CollectBound(a + b, entries, m);
  }

  lemma {:induction false} CollectBound(base: nat, items: seq<Report>, m: nat) returns (taken: nat)
    requires forall item | item in items :: item.encodedLen <= m
    ensures taken == TotalLen(items[..BatchLen(base, items)])
    ensures taken <= m || base + taken < STATE_REPORT_MAX_MESSAGE_SIZE
  {
    var count := BatchLen(base, items);
    taken := TotalLen(items[..count]);
    if count <= 1 {
      TotalLenBound(items[..count], m);
    }
  }

  /** The bound of `RequestSizeBound` is attained, so a request can reach three
      times the nominal limit. */
  lemma {:induction false} RequestSizeBoundIsTight(m: nat)
    requires m == STATE_REPORT_MAX_MESSAGE_SIZE
    ensures var items := [Report("", m)];
            BatchLen(0, items) == BatchLen(m, items) == BatchLen(2 * m, items) == 1
            && TotalLen(items) + TotalLen(items) + TotalLen(items) == m + 2 * m
  {
    assert [Report("", m)][..0] == [];
  }

  /** One mutex-guarded buffer: items arrive at the back and leave at the front
      only after they were delivered. */
  class PendingBuffer {
    var items: seq<Report>

    constructor ()
      ensures items == []
    {
      items := [];
    }

    /** Body of the drainer task for one received item. */
    method Push(item: Report)
      modifies this
      ensures items == Accept(old(items), item)
    {
      if |items| >= STATE_REPORT_MAX_PENDING_ITEMS {
        return;
      }
      items := items + [item];
    }

    /** Clone the next batch without removing it. */
    method Collect(base: nat) returns (batch: seq<Report>, count: nat, hasRemaining: bool)
      ensures IsBatch(base, items, count)
      ensures count == BatchLen(base, items)
      ensures batch == items[..count]
      ensures hasRemaining == (count < |items|)
    {
      if items == [] {
        return [], 0, false;
      }
      batch := [];
      var currentSize := base;
      var i := 0;
      while i < |items|
        invariant 0 <= i <= |items|
        invariant batch == items[..i]
        invariant currentSize == base + TotalLen(items[..i])
        invariant i <= 1 || currentSize < STATE_REPORT_MAX_MESSAGE_SIZE
      {
        TotalLenNext(items, i);
        if batch == [] {
          batch := batch + [items[i]];
          currentSize := currentSize + items[i].encodedLen;
        } else if currentSize + items[i].encodedLen < STATE_REPORT_MAX_MESSAGE_SIZE {
          batch := batch + [items[i]];
          currentSize := currentSize + items[i].encodedLen;
        } else {
          break;
        }
        i := i + 1;
      }
      count := |batch|;
      hasRemaining := count < |items|;
      forall k | count < k <= |items|
        ensures base + TotalLen(items[..k]) >= STATE_REPORT_MAX_MESSAGE_SIZE
      {
        TotalLenNext(items, count);
        TotalLenMonotone(items, count + 1, k);
      }
      BatchIsUnique(base, items, count);
    }

    /** Remove the first `count` items. */
    method DrainSent(count: nat)
      modifies this
      ensures count <= |old(items)| ==> items == old(items)[count..]
      ensures count > |old(items)| ==> items == []
    {
      if count == 0 {
        return;
      }
      var n := if count <= |items| then count else |items|;
      items := items[n..];
    }
  }
}
