/** PTY output in the container daemon: the byte-bounded history buffer. */
module PtyOutput {
  import opened Basics
  import opened Sequences

  const MAX_OUTPUT_BUFFER_BYTES: nat := 1_048_576

  /** The suffix from `j` on does not fit the buffer. */
  predicate TooBig(pushed: seq<Bytes>, j: nat)
    requires j <= |pushed|
  {
    TotalSize(pushed[j..]) > MAX_OUTPUT_BUFFER_BYTES
  }

  /** `k` starts the longest suffix of `pushed` that fits the buffer. */
  ghost predicate IsCut(pushed: seq<Bytes>, k: nat)
  {
    && k <= |pushed|
    && !TooBig(pushed, k)
    && forall j: nat | j < k :: TooBig(pushed, j)
  }

  function CutFrom(pushed: seq<Bytes>, j: nat): nat
    requires j <= |pushed|
    decreases |pushed| - j
  {
    if j == |pushed| || !TooBig(pushed, j) then j
    else CutFrom(pushed, j + 1)
  }

  lemma {:induction false} CutFromIsFirst(pushed: seq<Bytes>, j: nat)
    requires j <= |pushed|
    requires forall i: nat | i < j :: TooBig(pushed, i)
    ensures IsCut(pushed, CutFrom(pushed, j))
    decreases |pushed| - j
  {
    if j < |pushed| && TooBig(pushed, j) {
      CutFromIsFirst(pushed, j + 1);
    }
  }

  function Cut(pushed: seq<Bytes>): (k: nat)
    ensures IsCut(pushed, k)
  {
    CutFromIsFirst(pushed, 0);
    CutFrom(pushed, 0)
  }

  /** What the buffer holds after a sequence of pushes. */
  function Retained(pushed: seq<Bytes>): (kept: seq<Bytes>)
    ensures TotalSize(kept) <= MAX_OUTPUT_BUFFER_BYTES
  {
    pushed[Cut(pushed)..]
  }

  lemma {:induction false} CutIsUnique(pushed: seq<Bytes>, k: nat)
    requires IsCut(pushed, k)
    ensures k == Cut(pushed)
  {
  }

  /** The chunk pushed last is kept, unless it alone exceeds the buffer. */
  lemma {:induction false} LastIsRetained(pushed: seq<Bytes>)
    requires pushed != [] && |pushed[|pushed| - 1]| <= MAX_OUTPUT_BUFFER_BYTES
    ensures Cut(pushed) < |pushed|
  {
    var last := |pushed| - 1;
    assert pushed[last..] == [pushed[last]] && pushed[last..][..0] == [];
    assert TotalSize(pushed[last..]) == |pushed[last]|;
    assert !TooBig(pushed, last);
  }

  lemma {:induction false} TotalSizeFront(chunks: seq<Bytes>)
    requires chunks != []
    ensures TotalSize(chunks) == |chunks[0]| + TotalSize(chunks[1..])
  {
    assert chunks == [chunks[0]] + chunks[1..];
    assert [chunks[0]][..0] == [];
    TotalSizeConcat([chunks[0]], chunks[1..]);
  }

  lemma {:induction false} AppendKeepsCut(pushed: seq<Bytes>, data: Bytes)
    ensures forall j: nat | j < Cut(pushed) :: TooBig(pushed + [data], j)
  {
    forall j: nat | j < Cut(pushed) ensures TooBig(pushed + [data], j) {
      assert TooBig(pushed, j);
      assert (pushed + [data])[j..] == pushed[j..] + [data];
      TotalSizeAppend(pushed[j..], data);
    }
  }

  class OutputBuffer {
    var chunks: seq<Bytes>
    var totalBytes: nat
    /** Every chunk ever pushed. */
    ghost var pushed: seq<Bytes>

    ghost predicate Valid()
      reads this
    {
      chunks == Retained(pushed) && totalBytes == TotalSize(chunks)
    }

    constructor ()
      ensures Valid() && pushed == []
    {
      chunks, totalBytes, pushed := [], 0, [];
    }

    /** Append a chunk and evict from the front until the buffer fits again. */
    method Push(data: Bytes)
      requires Valid()
      modifies this
      ensures pushed == old(pushed) + [data]
      ensures Valid()
    {
      AppendKeepsCut(pushed, data);
      TotalSizeAppend(chunks, data);
      assert (pushed + [data])[Cut(pushed)..] == chunks + [data];
      totalBytes := totalBytes + |data|;
      chunks := chunks + [data];
      Evict(pushed + [data], Cut(pushed));
      pushed := pushed + [data];
    }

    /** The eviction loop: `chunks` is a suffix of `all` and everything longer is
        too big. */
    method Evict(ghost all: seq<Bytes>, ghost start: nat)
      requires start <= |all| && chunks == all[start..]
      requires totalBytes == TotalSize(chunks)
      requires forall j: nat | j < start :: TooBig(all, j)
      modifies this`chunks, this`totalBytes
      ensures chunks == Retained(all)
      ensures totalBytes == TotalSize(chunks)
    {
      ghost var k := start;
      while totalBytes > MAX_OUTPUT_BUFFER_BYTES
        invariant start <= k <= |all| && chunks == all[k..]
        invariant totalBytes == TotalSize(chunks)
        invariant forall j: nat | j < k :: TooBig(all, j)
        decreases |all| - k
      {
        if chunks == [] {
          assert false;
          break;
        }
        TotalSizeFront(chunks);
        totalBytes := totalBytes - |chunks[0]|;
        assert TooBig(all, k);
        chunks := chunks[1..];
        k := k + 1;
      }
      CutIsUnique(all, k);
    }
  }
}
