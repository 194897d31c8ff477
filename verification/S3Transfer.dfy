/** S3 transfers of the blob store: the concurrent range download and the
    multipart upload. */
module S3Transfer {
  import opened Basics

  const PART_SIZE: nat := 100 * 1024 * 1024
  const DOWNLOAD_PART_SIZE: nat := 8 * 1024 * 1024
  const MAX_BUFFERED_PARTS: nat := 24
  const CONCURRENT_DOWNLOAD_THRESHOLD: nat := 16 * 1024 * 1024
  const I64_MAX: nat := 0x7FFF_FFFF_FFFF_FFFF

  datatype Fetched = Data(bytes: Bytes) | Error

  // ---------------------------------------------------------------
  // Download
  // ---------------------------------------------------------------

  /** The last byte of the part that starts at `first`. */
  function LastByte(first: nat, size: nat): nat
    requires first < size
  {
    (if first + DOWNLOAD_PART_SIZE <= size then first + DOWNLOAD_PART_SIZE else size) - 1
  }

  /** What a request for the inclusive byte range `first`-`last` yields. */
  function Serve(blob: Bytes, unreachable: set<nat>, first: nat, last: nat): Fetched
  {
    if first in unreachable || !(first <= last < |blob|) then Error else Data(blob[first..last + 1])
  }

  /** The stream a reader should see from byte `first` on: one item per part, in
      order. */
  function Expected(blob: Bytes, unreachable: set<nat>, first: nat): seq<Fetched>
    decreases |blob| - first
  {
    if first >= |blob| then []
    else [Serve(blob, unreachable, first, LastByte(first, |blob|))]
         + Expected(blob, unreachable, first + DOWNLOAD_PART_SIZE)
  }

  /** A spawned range request, finished or not. */
  datatype Task = Task(first: nat, last: nat, result: Option<Fetched>)

  /** What the queued requests yield, in queue order. */
  function Served(blob: Bytes, unreachable: set<nat>, tasks: seq<Task>): seq<Fetched>
  {
    seq(|tasks|, i requires 0 <= i < |tasks| => Serve(blob, unreachable, tasks[i].first, tasks[i].last))
  }

  /** Tasks that may finish in any order but are taken out in the order in which
      they were put in. */
  class FuturesOrdered {
    const blob: Bytes
    const unreachable: set<nat>
    var tasks: seq<Task>
    /** History: the most requests ever queued. */
    var peak: nat

    /** What the queued requests yield, in queue order. */
    ghost function Pending(): seq<Fetched>
      reads this
    {
      Served(blob, unreachable, tasks)
    }

    ghost predicate Valid()
      reads this
    {
      && (forall t | t in tasks :: t.result.Some? ==> t.result.value == Serve(blob, unreachable, t.first, t.last))
      && |tasks| <= peak
    }

    constructor (blob: Bytes, unreachable: set<nat>)
      ensures Valid() && tasks == [] && peak == 0
      ensures this.blob == blob && this.unreachable == unreachable
    {
      this.blob, this.unreachable := blob, unreachable;
      tasks, peak := [], 0;
    }

    method PushBack(first: nat, last: nat)
      requires Valid()
      modifies this
      ensures Valid()
      ensures |tasks| == |old(tasks)| + 1
      ensures peak == if |tasks| > old(peak) then |tasks| else old(peak)
      ensures Pending() == old(Pending()) + [Serve(blob, unreachable, first, last)]
    {
      tasks := tasks + [Task(first, last, None)];
      if |tasks| > peak {
        peak := |tasks|;
      }
    }

    /** Some of the running requests finish: those at the given positions. */
    method Progress(finished: set<nat>)
      requires Valid()
      modifies this`tasks
      ensures Valid()
      ensures |tasks| == |old(tasks)|
      ensures forall i | 0 <= i < |tasks| ::
                tasks[i].first == old(tasks)[i].first && tasks[i].last == old(tasks)[i].last
                && (i in finished ==> tasks[i].result.Some?)
    {
      var ts := tasks;
      tasks := seq(|ts|, i requires 0 <= i < |ts| =>
        if i in finished
        then ts[i].(result := Some(Serve(blob, unreachable, ts[i].first, ts[i].last)))
        else ts[i]);
    }

    /** Wait for the front request, if any; `others` finish in the meantime. */
    method Next(others: set<nat>) returns (item: Option<Fetched>)
      requires Valid()
      modifies this`tasks
      ensures Valid()
      ensures item.None? <==> old(tasks) == []
      ensures item.None? ==> tasks == []
      ensures item.Some? ==> |tasks| == |old(tasks)| - 1 && old(Pending()) == [item.value] + Pending()
    {
      if |tasks| == 0 {
        return None;
      }
      Progress({0} + others);
      assert Pending() == old(Pending());
      assert tasks[0] in tasks;
      item := tasks[0].result;
      tasks := tasks[1..];
    }
  }

  /** The bytes of a stream, put together; an error contributes nothing. */
  function Joined(items: seq<Fetched>): Bytes
  {
    if items == [] then [] else (if items[0].Data? then items[0].bytes else []) + Joined(items[1..])
  }

  /** The ranges tile the object: with every part reachable, the parts from
      `first` on carry exactly the bytes from `first` on. */
  lemma {:induction false} PartsTile(blob: Bytes, first: nat)
    requires first <= |blob|
    ensures Joined(Expected(blob, {}, first)) == blob[first..]
    decreases |blob| - first
  {
    if first < |blob| {
      var next := LastByte(first, |blob|) + 1;
      if next < |blob| {
        PartsTile(blob, next);
      } else {
        assert Expected(blob, {}, first + DOWNLOAD_PART_SIZE) == [];
      }
      assert blob[first..] == blob[first..next] + blob[next..];
    }
  }

  /** The download of a reachable object is the object. */
  lemma {:induction false} DownloadIsObject(blob: Bytes)
    ensures Joined(Expected(blob, {}, 0)) == blob
  {
    PartsTile(blob, 0);
  }

  /** The k-th item of the stream: an error when its request fails, and else the k-th
      stretch of 8 MiB, the last one possibly shorter. */
  lemma {:induction false} PartAt(blob: Bytes, unreachable: set<nat>, first: nat, k: nat)
    requires k < |Expected(blob, unreachable, first)|
    ensures
      var from, to := first + k * DOWNLOAD_PART_SIZE, first + (k + 1) * DOWNLOAD_PART_SIZE;
      && from < |blob|
      && Expected(blob, unreachable, first)[k]
         == if from in unreachable then Error else Data(blob[from..if to <= |blob| then to else |blob|])
    decreases k
  {
    if k > 0 {
      PartAt(blob, unreachable, first + DOWNLOAD_PART_SIZE, k - 1);
    }
  }

  /** The number of range requests. */
  lemma {:induction false} PartCount(blob: Bytes, unreachable: set<nat>, first: nat)
    requires first <= |blob|
    ensures |Expected(blob, unreachable, first)| == DivCeil(|blob| - first, DOWNLOAD_PART_SIZE)
    decreases |blob| - first
  {
    if first + DOWNLOAD_PART_SIZE <= |blob| {
      PartCount(blob, unreachable, first + DOWNLOAD_PART_SIZE);
    } else {
      assert Expected(blob, unreachable, first + DOWNLOAD_PART_SIZE) == [];
    }
  }

  /** Before spawning another request: forward results from the front of the queue
      while `queued`, the task's counter, says that it is full. `schedule(k)` are the
      requests that finish during the k-th wait; `gone` tells that the receiver,
      which takes `capacity` items, went away. */
  method MakeRoom(futs: FuturesOrdered, queued: nat, forwarded: seq<Fetched>, capacity: nat,
                  schedule: nat -> set<nat>, waited: nat)
    returns (items: seq<Fetched>, buffered: nat, waits: nat, gone: bool)
    requires futs.Valid() && queued == |futs.tasks| <= MAX_BUFFERED_PARTS
    modifies futs`tasks
    ensures futs.Valid()
    ensures !gone ==> buffered == |futs.tasks| < MAX_BUFFERED_PARTS
    ensures !gone ==> items + futs.Pending() == forwarded + old(futs.Pending())
    ensures gone ==> |items| == capacity && items <= forwarded + old(futs.Pending())
  {
    items, buffered, waits, gone := forwarded, queued, waited, false;
    ghost var all := forwarded + futs.Pending();
    while buffered >= MAX_BUFFERED_PARTS
      invariant futs.Valid()
      invariant buffered == |futs.tasks|
      invariant items + futs.Pending() == all
      decreases buffered
    {
      var next := futs.Next(schedule(waits));
      waits := waits + 1;
      match next
      case None => break;
      case Some(item) =>
        buffered := buffered - 1;
        if |items| == capacity {
          gone := true;
          return;
        }
        items := items + [item];
    }
  }

  /** After the last request was spawned: forward whatever is queued. */
  method ForwardRest(futs: FuturesOrdered, forwarded: seq<Fetched>, capacity: nat, schedule: nat -> set<nat>, waited: nat)
    returns (items: seq<Fetched>)
    requires futs.Valid()
    modifies futs`tasks
    ensures items <= forwarded + old(futs.Pending())
    ensures |items| == capacity || items == forwarded + old(futs.Pending())
  {
    items := forwarded;
    var waits := waited;
    ghost var all := forwarded + futs.Pending();
    while true
      invariant futs.Valid()
      invariant items + futs.Pending() == all
      decreases |futs.tasks|
    {
      var next := futs.Next(schedule(waits));
      waits := waits + 1;
      match next
      case None =>
        assert futs.Pending() == [];
        break;
      case Some(item) =>
        if |items| == capacity {
          break;
        }
        items := items + [item];
    }
  }

  /** The download task: spawn one range request per part, hold back spawning
      while the queue is full, and forward the results in order. `peak` is the
      most requests that were ever queued. */
  method GetStreamConcurrent(blob: Bytes, unreachable: set<nat>, capacity: nat, schedule: nat -> set<nat>)
    returns (items: seq<Fetched>, peak: nat)
    requires |blob| <= I64_MAX
    ensures |blob| <= CONCURRENT_DOWNLOAD_THRESHOLD ==> items == [Data(blob)]
    ensures |blob| > CONCURRENT_DOWNLOAD_THRESHOLD ==>
              && items <= Expected(blob, unreachable, 0)
              && (|items| == capacity || items == Expected(blob, unreachable, 0))
    ensures peak <= MAX_BUFFERED_PARTS
  {
    var size := |blob|;
    if size <= CONCURRENT_DOWNLOAD_THRESHOLD {
      return [Data(blob)], 0;
    }
    var futs := new FuturesOrdered(blob, unreachable);
    var partStart, buffered, waits, gone := 0, 0, 0, false;
    items := [];
    ghost var all := Expected(blob, unreachable, 0);
    while partStart < size
      invariant futs.Valid() && fresh(futs) && futs.blob == blob && futs.unreachable == unreachable
      invariant items + futs.Pending() + Expected(blob, unreachable, partStart) == all
      invariant buffered == |futs.tasks| <= MAX_BUFFERED_PARTS && futs.peak <= MAX_BUFFERED_PARTS
      decreases size - partStart
    {
      ghost var sofar := items + futs.Pending();
      items, buffered, waits, gone := MakeRoom(futs, buffered, items, capacity, schedule, waits);
      if gone {
        assert sofar <= all;
        return items, futs.peak;
      }
      var partEnd := LastByte(partStart, size);
      assert partStart + DOWNLOAD_PART_SIZE <= U64_MAX;
      ghost var queue := futs.Pending();
      futs.PushBack(partStart, partEnd);
      buffered := buffered + 1;
      NextPart(blob, unreachable, partStart, items, queue);
      partStart := partStart + DOWNLOAD_PART_SIZE;
    }
    items := ForwardRest(futs, items, capacity, schedule, waits);
    peak := futs.peak;
  }

  lemma {:induction false} NextPart(blob: Bytes, unreachable: set<nat>, first: nat, items: seq<Fetched>, queue: seq<Fetched>)
    requires first < |blob|
    ensures items + queue + Expected(blob, unreachable, first)
         == items + (queue + [Serve(blob, unreachable, first, LastByte(first, |blob|))])
            + Expected(blob, unreachable, first + DOWNLOAD_PART_SIZE)
  {
  }

  // ---------------------------------------------------------------
  // Upload
  // ---------------------------------------------------------------

  datatype Part = Part(number: nat, body: Bytes)

  datatype PutResult = Stored(parts: seq<Part>, sizeBytes: nat) | Failed

  /** The bodies of uploaded parts, in order. */
  function Contents(parts: seq<Part>): Bytes
  {
    if parts == [] then [] else Contents(parts[..|parts| - 1]) + parts[|parts| - 1].body
  }

  lemma {:induction false} ContentsAppend(parts: seq<Part>, p: Part)
    ensures Contents(parts + [p]) == Contents(parts) + p.body
  {
    assert (parts + [p])[..|parts|] == parts;
  }

  lemma {:induction false} JoinedAppend(items: seq<Fetched>, item: Fetched)
    ensures Joined(items + [item]) == Joined(items) + (if item.Data? then item.bytes else [])
  {
    if items == [] {
      assert [item][1..] == [];
    } else {
      JoinedAppend(items[1..], item);
      assert (items + [item])[1..] == items[1..] + [item];
    }
  }

  lemma {:induction false} JoinedNext(items: seq<Fetched>, i: nat)
    requires i < |items| && items[i].Data?
    ensures Joined(items[..i + 1]) == Joined(items[..i]) + items[i].bytes
  {
    assert items[..i + 1] == items[..i] + [items[i]];
    JoinedAppend(items[..i], items[i]);
  }

  /** Part numbers run from 1, and every part is at least `PART_SIZE` long. */
  predicate FullParts(parts: seq<Part>)
  {
    forall i | 0 <= i < |parts| :: parts[i].number == i + 1 && |parts[i].body| >= PART_SIZE
  }

  /** A multipart upload S3 can complete: at least one part, numbered from 1, all
      but the last of full size, and no empty part unless it is the only one. */
  predicate WellFormedUpload(parts: seq<Part>)
  {
    && |parts| >= 1
    && (forall i | 0 <= i < |parts| :: parts[i].number == i + 1)
    && (forall i | 0 <= i < |parts| - 1 :: |parts[i].body| >= PART_SIZE)
    && (|parts| > 1 ==> parts[|parts| - 1].body != [])
  }

  lemma {:induction false} FullPartsSize(parts: seq<Part>)
    requires FullParts(parts)
    ensures |parts| * PART_SIZE <= |Contents(parts)|
  {
    if parts != [] {
      var init, last := parts[..|parts| - 1], parts[|parts| - 1];
      FullPartsSize(init);
      assert |Contents(parts)| == |Contents(init)| + |last.body|;
    }
  }

  /** Upload one part under the next number; a number in `rejected` fails. */
  method UploadPart(parts: seq<Part>, number: nat, body: Bytes, rejected: set<nat>) returns (ok: bool, more: seq<Part>)
    ensures ok == (number !in rejected)
    ensures more == if ok then parts + [Part(number, body)] else parts
    ensures ok ==> Contents(more) == Contents(parts) + body
  {
    ok, more := number !in rejected, parts;
    if ok {
      ContentsAppend(parts, Part(number, body));
      more := parts + [Part(number, body)];
    }
  }

  predicate NoneRejected(parts: seq<Part>, rejected: set<nat>)
  {
    forall i | 0 <= i < |parts| :: parts[i].number !in rejected
  }

  predicate AllData(chunks: seq<Fetched>)
  {
    forall i | 0 <= i < |chunks| :: chunks[i].Data?
  }

  /** Once the buffer holds a full part, upload it and start an empty one. */
  method FlushFull(parts: seq<Part>, partNumber: nat, buffer: Bytes, rejected: set<nat>)
    returns (ok: bool, more: seq<Part>, next: nat, rest: Bytes)
    requires FullParts(parts) && NoneRejected(parts, rejected) && partNumber == |parts| + 1
    ensures ok ==> FullParts(more) && NoneRejected(more, rejected) && next == |more| + 1
    ensures ok ==> |rest| < PART_SIZE && Contents(more) + rest == Contents(parts) + buffer
    ensures rejected == {} ==> ok
  {
    ok, more, next, rest := true, parts, partNumber, buffer;
    if |buffer| >= PART_SIZE {
      ok, more := UploadPart(parts, partNumber, buffer, rejected);
      next, rest := partNumber + 1, [];
    }
  }

  /** The remainder becomes the last part; an empty stream becomes one empty part. */
  method FinishUpload(full: seq<Part>, partNumber: nat, buffer: Bytes, rejected: set<nat>) returns (ok: bool, parts: seq<Part>)
    requires FullParts(full) && NoneRejected(full, rejected)
    requires |buffer| < PART_SIZE && partNumber == |full| + 1
    ensures ok ==> WellFormedUpload(parts) && NoneRejected(parts, rejected)
    ensures ok ==> Contents(parts) == Contents(full) + buffer
    ensures rejected == {} ==> ok
  {
    ok, parts := true, full;
    if buffer != [] || full == [] {
      ok, parts := UploadPart(full, partNumber, buffer, rejected);
    }
  }

  lemma {:induction false} UploadSize(parts: seq<Part>)
    requires WellFormedUpload(parts)
    ensures (|parts| - 1) * PART_SIZE <= |Contents(parts)|
  {
    FullPartsSize(parts[..|parts| - 1]);
  }

  lemma {:induction false} Associative(a: Bytes, b: Bytes, c: Bytes)
    ensures a + (b + c) == (a + b) + c
  {
  }

  /** Stream chunks into parts. `rejected` are the part numbers whose upload fails,
      `completes` whether S3 accepts the final completion request. */
  method PutParts(chunks: seq<Fetched>, rejected: set<nat>, completes: bool) returns (r: PutResult)
    ensures r.Stored? ==>
              && WellFormedUpload(r.parts)
              && Contents(r.parts) == Joined(chunks)
              && r.sizeBytes == |Joined(chunks)|
              && (|r.parts| - 1) * PART_SIZE <= r.sizeBytes
              && NoneRejected(r.parts, rejected)
    ensures r.Stored? ==> completes && AllData(chunks)
    ensures completes && rejected == {} && AllData(chunks) ==> r.Stored?
  {
    var buffer: Bytes := [];
    var parts: seq<Part> := [];
    var partNumber := 1;
    var totalSize := 0;
    var i := 0;
    while i < |chunks|
      invariant 0 <= i <= |chunks|
      invariant partNumber == |parts| + 1
      invariant FullParts(parts) && NoneRejected(parts, rejected) && |buffer| < PART_SIZE
      invariant Contents(parts) + buffer == Joined(chunks[..i])
      invariant totalSize == |Joined(chunks[..i])|
      invariant forall k | 0 <= k < i :: chunks[k].Data?
    {
      if chunks[i].Error? {
        return Failed;
      }
      JoinedNext(chunks, i);
      Associative(Contents(parts), buffer, chunks[i].bytes);
      totalSize := totalSize + |chunks[i].bytes|;
      buffer := buffer + chunks[i].bytes;
      var ok;
      ok, parts, partNumber, buffer := FlushFull(parts, partNumber, buffer, rejected);
      if !ok {
        return Failed;
      }
      i := i + 1;
    }
    assert chunks[..i] == chunks;
    var ok;
    ok, parts := FinishUpload(parts, partNumber, buffer, rejected);
    if !ok || !completes {
      return Failed;
    }
    UploadSize(parts);
    r := Stored(parts, totalSize);
  }

  /** What was written is what is read back: an upload that succeeds, followed by a
      download of the object S3 assembled, yields the stream that was uploaded, for
      every completion order, when the receiver stays for all parts. */
  method UploadThenDownload(chunks: seq<Fetched>, rejected: set<nat>, completes: bool, capacity: nat, schedule: nat -> set<nat>)
    returns (r: PutResult, items: seq<Fetched>)
    requires |Joined(chunks)| <= I64_MAX
    ensures r.Stored? && capacity >= DivCeil(|Joined(chunks)|, DOWNLOAD_PART_SIZE) ==> Joined(items) == Joined(chunks)
    ensures completes && rejected == {} && AllData(chunks) ==> r.Stored?
  {
    items := [];
    r := PutParts(chunks, rejected, completes);
    if r.Stored? {
      var blob := Contents(r.parts);
      var peak;
      items, peak := GetStreamConcurrent(blob, {}, capacity, schedule);
      if capacity >= DivCeil(|blob|, DOWNLOAD_PART_SIZE) {
        WholeDownload(blob, items, capacity);
      }
    }
  }

  /** A receiver that stays for all parts gets the object. */
  lemma {:induction false} WholeDownload(blob: Bytes, items: seq<Fetched>, capacity: nat)
    requires capacity >= DivCeil(|blob|, DOWNLOAD_PART_SIZE)
    requires items == [Data(blob)]
          || (items <= Expected(blob, {}, 0) && (|items| == capacity || items == Expected(blob, {}, 0)))
    ensures Joined(items) == blob
  {
    if items == [Data(blob)] {
      assert [Data(blob)][1..] == [];
    } else {
      var all := Expected(blob, {}, 0);
      PartCount(blob, {}, 0);
      assert |items| == |all|;
      assert items == all;
      DownloadIsObject(blob);
    }
  }
}
