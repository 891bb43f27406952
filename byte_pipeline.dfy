/** The byte handling of the capture threads, as functions on sequences:
    the skip counter the producer loops apply to every batch, the aligned
    flush of the intermediate consumer, and what repeated ticks of each add
    up to. The session class uses them as the specification of its steps. */
module BytePipeline {
  import opened CaptureTypes

  function Min(a: nat, b: nat): nat
  {
    if a <= b then a else b
  }

  /** The bytes of a run of batches, in the order they were read. */
  function Concat(chunks: seq<seq<Byte>>): seq<Byte>
  {
    if chunks == [] then [] else chunks[0] + Concat(chunks[1..])
  }

  /** Reading one more batch appends its bytes. */
  lemma {:induction false} ConcatSnoc(chunks: seq<seq<Byte>>, last: seq<Byte>)
    ensures Concat(chunks + [last]) == Concat(chunks) + last
  {
    if chunks != [] {
      assert (chunks + [last])[1..] == chunks[1..] + [last];
      ConcatSnoc(chunks[1..], last);
    }
  }

  /** Batches that each hold whole frames add up to whole frames. */
  lemma {:induction false} ConcatAligned(chunks: seq<seq<Byte>>, blockAlign: nat)
    requires blockAlign > 0
    requires forall i :: 0 <= i < |chunks| ==> |chunks[i]| % blockAlign == 0
    ensures |Concat(chunks)| % blockAlign == 0
  {
    if chunks != [] {
      ConcatAligned(chunks[1..], blockAlign);
      ModAdd(|chunks[0]|, |Concat(chunks[1..])|, blockAlign);
    }
  }

  /** Euclidean division is unique: a quotient and remainder in range are
      the ones `/` and `%` give. */
  lemma DivUnique(a: nat, m: nat, q: int, r: int)
    requires m > 0 && 0 <= r < m && a == q * m + r
    ensures a % m == r && a / m == q
  {
    var d := q - a / m;
    assert d * m == a % m - r;
    if d >= 1 {
      MulAtLeast(d, m);
    }
  }

  lemma MulAtLeast(d: int, m: nat)
    requires d >= 1
    ensures d * m >= m
  {
  }

  lemma ModAdd(a: nat, b: nat, m: nat)
    requires m > 0 && a % m == 0 && b % m == 0
    ensures (a + b) % m == 0
  {
    var qa, qb := a / m, b / m;
    assert a == qa * m;
    assert b == qb * m;
    assert a + b == (qa + qb) * m;
    DivUnique(a + b, m, qa + qb, 0);
  }

  lemma ModSub(a: nat, b: nat, m: nat)
    requires m > 0 && b <= a && a % m == 0 && b % m == 0
    ensures (a - b) % m == 0
  {
    var qa, qb := a / m, b / m;
    assert a == qa * m;
    assert b == qb * m;
    assert a - b == (qa - qb) * m;
    DivUnique(a - b, m, qa - qb, 0);
  }

  /** What is left of a batch after the skip counter, and the counter after it. */
  datatype Skipped = Skipped(kept: seq<Byte>, left: nat)

  /** The skip counter applied to a batch: while the counter is not zero a
      byte is dropped and the counter falls by one; every other byte is kept. */
  function Discard(skip: nat, data: seq<Byte>): (r: Skipped)
    ensures r.left <= skip && |r.kept| <= |data|
    ensures |data| - |r.kept| == skip - r.left
    ensures r.left == 0 || r.kept == []
  {
    var dropped := Min(skip, |data|);
    Skipped(data[dropped..], skip - dropped)
  }

  /** What is kept is the tail of the batch, in order: nothing is reordered
      and nothing but a prefix is dropped. */
  lemma DiscardKeepsTail(skip: nat, data: seq<Byte>)
    ensures var r := Discard(skip, data);
            forall i :: 0 <= i < |r.kept| ==> r.kept[i] == data[|data| - |r.kept| + i]
  {
  }

  /** Applying the counter batch by batch is the same as applying it to the
      bytes of both batches at once: how the endpoint splits its output into
      batches does not change what is kept. */
  lemma DiscardConcat(skip: nat, a: seq<Byte>, b: seq<Byte>)
    ensures var first := Discard(skip, a);
            var second := Discard(first.left, b);
            Discard(skip, a + b) == Skipped(first.kept + second.kept, second.left)
  {
    var first := Discard(skip, a);
    var second := Discard(first.left, b);
    if skip <= |a| {
      assert (a + b)[skip..] == a[skip..] + b;
    } else {
      assert (a + b)[Min(skip, |a| + |b|)..] == b[Min(skip - |a|, |b|)..];
    }
  }

  /** The per-byte loop of the producer threads over one batch. */
  method SkipBytes(skip: nat, data: seq<Byte>) returns (kept: seq<Byte>, left: nat)
    ensures Skipped(kept, left) == Discard(skip, data)
  {
    kept, left := [], skip;
    var i := 0;
    while i < |data|
      invariant 0 <= i <= |data|
      invariant left == skip - Min(skip, i)
      invariant kept == data[Min(skip, i)..i]
    {
      if left != 0 {
        left := left - 1;
      } else {
        kept := kept + [data[i]];
      }
      i := i + 1;
    }
    assert data[..i] == data;
  }

  /** The producer loop of one wake-up: every batch the endpoint hands out
      goes through the skip counter, and what survives is collected in order. */
  method SkipBatches(skip: nat, batches: seq<seq<Byte>>) returns (kept: seq<Byte>, left: nat)
    ensures Skipped(kept, left) == Discard(skip, Concat(batches))
  {
    kept, left := [], skip;
    assert Concat(batches[..0]) == [] by {
      assert batches[..0] == [];
    }
    var i := 0;
    while i < |batches|
      invariant 0 <= i <= |batches|
      invariant Skipped(kept, left) == Discard(skip, Concat(batches[..i]))
    {
      var batchKept, batchLeft := SkipBytes(left, batches[i]);
      DiscardStep(skip, batches, i, kept, left, batchKept, batchLeft);
      kept, left := kept + batchKept, batchLeft;
      i := i + 1;
    }
    assert batches[..i] == batches;
  }

  /** Reading batch i continues the skip of the first i batches. */
  lemma DiscardStep(skip: nat, batches: seq<seq<Byte>>, i: nat, kept: seq<Byte>, left: nat,
                    batchKept: seq<Byte>, batchLeft: nat)
    requires i < |batches|
    requires Skipped(kept, left) == Discard(skip, Concat(batches[..i]))
    requires Skipped(batchKept, batchLeft) == Discard(left, batches[i])
    ensures Skipped(kept + batchKept, batchLeft) == Discard(skip, Concat(batches[..i + 1]))
  {
    assert batches[..i + 1] == batches[..i] + [batches[i]];
    ConcatSnoc(batches[..i], batches[i]);
    DiscardConcat(skip, Concat(batches[..i]), batches[i]);
  }

  /** `m_dwMainThreadBytesToSkip` as StartThreads sets it: whole frames times
      the frame size, a DWORD product that wraps at 2^32. */
  function SkipByteCount(frames: DWord, blockAlign: nat): (n: DWord)
    ensures frames * blockAlign < 0x1_0000_0000 ==> n == frames * blockAlign
  {
    (frames * blockAlign) % 0x1_0000_0000
  }

  /** The DWORD product can wrap to a count that is not whole frames: a skip
      of 715827883 six-byte frames arms 2 bytes, so the stream after it
      starts two bytes into a frame. */
  lemma SkipWrapMisaligns()
    ensures SkipByteCount(715827883, 6) == 2
    ensures SkipByteCount(715827883, 6) % 6 != 0
  {
  }

  /** ResumeCapture's default of 0.1 s, as whole frames: the truncation of
      `sampleRate * 0.1` is `sampleRate / 10` for every DWORD rate, because
      the double nearest 0.1 is slightly above it. */
  function DefaultResumeSkipFrames(sampleRate: DWord): (frames: DWord)
    ensures frames * 10 <= sampleRate < (frames + 1) * 10
  {
    sampleRate / 10
  }

  /** The producer threads stay frame-aligned: when the skip count and every
      batch are whole frames, so are the bytes that survive the skip and the
      count left for the next wake-up. */
  lemma {:induction false} DirectDeliveryAligned(skip: nat, batches: seq<seq<Byte>>, blockAlign: nat)
    requires blockAlign > 0 && skip % blockAlign == 0
    requires forall i :: 0 <= i < |batches| ==> |batches[i]| % blockAlign == 0
    ensures |Discard(skip, Concat(batches)).kept| % blockAlign == 0
    ensures Discard(skip, Concat(batches)).left % blockAlign == 0
  {
    var all := Concat(batches);
    ConcatAligned(batches, blockAlign);
    var r := Discard(skip, all);
    if skip < |all| {
      ModSub(|all|, skip, blockAlign);
    } else {
      ModSub(skip, |all|, blockAlign);
    }
  }

  /** The default skip of ResumeCapture in bytes, for a format whose byte rate
      fits a DWORD: no wrap-around, whole frames, and a tenth of the byte rate
      rounded down by less than one frame. */
  lemma TenthSecondSkip(sampleRate: DWord, blockAlign: nat)
    requires blockAlign > 0 && sampleRate * blockAlign < 0x1_0000_0000
    ensures var n := SkipByteCount(DefaultResumeSkipFrames(sampleRate), blockAlign);
            && n == (sampleRate / 10) * blockAlign
            && n % blockAlign == 0
            && n * 10 <= sampleRate * blockAlign < n * 10 + 10 * blockAlign
  {
    var q := sampleRate / 10;
    assert q * 10 <= sampleRate < q * 10 + 10;
    var n := q * blockAlign;
    assert n <= sampleRate * blockAlign by {
      MulLeq(q, sampleRate, blockAlign);
    }
    DivUnique(n, blockAlign, q, 0);
    assert n * 10 == (q * 10) * blockAlign;
    MulLeq(q * 10, sampleRate, blockAlign);
    MulLeq(sampleRate + 1, q * 10 + 10, blockAlign);
    assert (sampleRate + 1) * blockAlign == sampleRate * blockAlign + blockAlign;
    assert (q * 10 + 10) * blockAlign == n * 10 + 10 * blockAlign;
  }

  lemma MulLeq(a: nat, b: nat, c: nat)
    requires a <= b
    ensures a * c <= b * c
  {
  }

  /** The number of bytes ProcessIntermediate hands on: the largest multiple
      of the frame size that the buffer holds. */
  function AlignedSize(size: nat, blockAlign: nat): (n: nat)
    requires blockAlign > 0
    ensures n % blockAlign == 0
    ensures n <= size && size - n < blockAlign
  {
    var q := size / blockAlign;
    assert size - size % blockAlign == q * blockAlign;
    DivUnique(q * blockAlign, blockAlign, q, 0);
    q * blockAlign
  }

  /** The aligned prefix a flush delivers and the remainder it keeps. */
  datatype Flushed = Flushed(out: seq<Byte>, retained: seq<Byte>)

  /** One flush of the intermediate buffer: the delivered prefix is whole
      frames, the retained remainder is less than one frame, and together
      they are the buffer, in order. */
  function Flush(buffer: seq<Byte>, blockAlign: nat): (r: Flushed)
    requires blockAlign > 0
    ensures r.out + r.retained == buffer
    ensures |r.out| % blockAlign == 0
    ensures |r.retained| < blockAlign
  {
    var n := AlignedSize(|buffer|, blockAlign);
    Flushed(buffer[..n], buffer[n..])
  }

  /** Nothing delivered means the whole buffer is a partial frame. */
  lemma FlushEmptyOut(buffer: seq<Byte>, blockAlign: nat)
    requires blockAlign > 0
    ensures Flush(buffer, blockAlign).out == [] <==> |buffer| < blockAlign
  {
  }

  /** What a run of intermediate ticks delivers, and the remainder left. */
  datatype Rounds = Rounds(deliveries: seq<seq<Byte>>, retained: seq<Byte>)

  /** Intermediate ticks in sequence: before each tick `arrivals[i]` has
      reached the buffer; a tick flushes, and delivers only when the aligned
      prefix is not empty. */
  function IntermediateRounds(buffer: seq<Byte>, arrivals: seq<seq<Byte>>, blockAlign: nat): (r: Rounds)
    requires blockAlign > 0
    ensures |r.deliveries| <= |arrivals|
    decreases |arrivals|
  {
    if arrivals == [] then Rounds([], buffer)
    else
      var f := Flush(buffer + arrivals[0], blockAlign);
      var rest := IntermediateRounds(f.retained, arrivals[1..], blockAlign);
      Rounds((if f.out == [] then [] else [f.out]) + rest.deliveries, rest.retained)
  }

  /** Buffered delivery loses, duplicates and reorders nothing: however the
      bytes arrive, the deliveries followed by the final remainder are the
      starting buffer followed by every arrival. */
  lemma {:induction false} IntermediateRoundsLossless(buffer: seq<Byte>, arrivals: seq<seq<Byte>>, blockAlign: nat)
    requires blockAlign > 0
    ensures var r := IntermediateRounds(buffer, arrivals, blockAlign);
            Concat(r.deliveries) + r.retained == buffer + Concat(arrivals)
    decreases |arrivals|
  {
    if arrivals != [] {
      var f := Flush(buffer + arrivals[0], blockAlign);
      var rest := IntermediateRounds(f.retained, arrivals[1..], blockAlign);
      IntermediateRoundsLossless(f.retained, arrivals[1..], blockAlign);
      var head := if f.out == [] then [] else [f.out];
      ConcatPrepend(head, rest.deliveries);
      assert Concat(head) == f.out by {
        if f.out != [] {
          ConcatPrepend([f.out], []);
        }
      }
      assert IntermediateRounds(buffer, arrivals, blockAlign) == Rounds(head + rest.deliveries, rest.retained);
      ConcatCons(arrivals);
      var d, tail := Concat(rest.deliveries), Concat(arrivals[1..]);
      Assoc(f.out, d, rest.retained);
      Assoc(f.out, f.retained, tail);
      Assoc(buffer, arrivals[0], tail);
    }
  }

  /** Every buffered delivery is a non-empty whole number of frames, and
      after at least one tick less than a frame is left over. */
  lemma {:induction false} IntermediateRoundsAligned(buffer: seq<Byte>, arrivals: seq<seq<Byte>>, blockAlign: nat)
    requires blockAlign > 0
    ensures var r := IntermediateRounds(buffer, arrivals, blockAlign);
            && (forall i :: 0 <= i < |r.deliveries| ==>
                  r.deliveries[i] != [] && |r.deliveries[i]| % blockAlign == 0)
            && (arrivals != [] ==> |r.retained| < blockAlign)
    decreases |arrivals|
  {
    if arrivals != [] {
      var f := Flush(buffer + arrivals[0], blockAlign);
      IntermediateRoundsAligned(f.retained, arrivals[1..], blockAlign);
    }
  }

  lemma Assoc<T>(a: seq<T>, b: seq<T>, c: seq<T>)
    ensures (a + b) + c == a + (b + c)
  {
  }

  lemma ConcatCons(chunks: seq<seq<Byte>>)
    requires chunks != []
    ensures Concat(chunks) == chunks[0] + Concat(chunks[1..])
  {
  }

  lemma {:induction false} ConcatPrepend(a: seq<seq<Byte>>, b: seq<seq<Byte>>)
    requires |a| <= 1
    ensures Concat(a + b) == Concat(a) + Concat(b)
  {
    if a != [] {
      calc {
        Concat(a + b);
        (a + b)[0] + Concat((a + b)[1..]);
        { assert (a + b)[1..] == b; }
        a[0] + Concat(b);
        { assert a[1..] == []; assert Concat(a) == a[0] + Concat(a[1..]); }
        Concat(a) + Concat(b);
      }
    } else {
      assert a + b == b;
    }
  }
}
