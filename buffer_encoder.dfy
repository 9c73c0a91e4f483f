/** `trasformImagetoJacobOject` and `createRunnableTask`: the image bytes copied into a COM
    `SafeArray` of variants by tasks that each handle one contiguous range. These run here one
    after the other, in submission order. */
module BufferEncoder {
  import opened Wrappers
  import opened Jacob
  import opened OcrException

  /** The number of tasks for `len` bytes at `n` bytes per task: `len / n` when `n` is strictly
      between 1 and `len`, and a single task otherwise. */
  function ThreadCount(len: nat, n: int): (t: nat)
    ensures t >= 1
    ensures t > 1 ==> 1 < n < len
  {
    if n > 1 && n < len then len / n else 1
  }

  /** Task `i` covers [PartStart, PartEnd): `n` bytes from `i * n`, except the last task, which
      runs to the end of the image. */
  function PartStart(i: nat, n: int): int {
    i * n
  }

  function PartEnd(i: nat, t: nat, n: int, len: nat): int {
    if i + 1 < t then (i + 1) * n else len
  }

  /** The number of the range, and so of the copying thread, that holds byte `k`. */
  function PartOf(k: nat, len: nat, n: int): nat {
    var t := ThreadCount(len, n);
    if t == 1 then 0 else if k / n < t then k / n else t - 1
  }

  lemma MulMonotone(a: nat, b: nat, n: nat)
    requires a <= b
    ensures a * n <= b * n
  {
  }

  /** The ranges are contiguous, in order, start at 0 and end at `len`, and every range but the
      last holds exactly `n` bytes; the last holds at least `n` and fewer than `2 * n`. */
  lemma Partition(len: nat, n: int)
    ensures var t := ThreadCount(len, n);
      PartStart(0, n) == 0 && PartEnd(t - 1, t, n, len) == len
      && (forall i :: 0 <= i < t - 1 ==> PartEnd(i, t, n, len) == PartStart(i + 1, n))
      && (forall i :: 0 <= i < t ==> 0 <= PartStart(i, n) <= PartEnd(i, t, n, len) <= len)
      && (forall i :: 0 <= i < t - 1 ==> PartEnd(i, t, n, len) - PartStart(i, n) == n)
      && (t > 1 ==> n <= PartEnd(t - 1, t, n, len) - PartStart(t - 1, n) < 2 * n)
  {
    var t := ThreadCount(len, n);
    if t > 1 {
      var nn: nat := n;
      assert t * nn <= len < t * nn + nn;
      forall i | 0 <= i < t ensures 0 <= PartStart(i, n) <= PartEnd(i, t, n, len) <= len {
        MulMonotone(i, t - 1, nn);
        if i + 1 < t {
          MulMonotone(i + 1, t, nn);
        }
      }
      assert PartStart(t - 1, n) == t * nn - nn;
    }
  }

  /** Task `i`'s range lies inside the image and ends where the next one starts, or at the end
      of the image for the last task. */
  lemma PartBounds(len: nat, n: int, i: nat)
    requires i < ThreadCount(len, n)
    ensures var t := ThreadCount(len, n);
      0 <= PartStart(i, n) <= PartEnd(i, t, n, len) <= len
      && PartEnd(i, t, n, len) == (if i + 1 < t then PartStart(i + 1, n) else len)
  {
    var t := ThreadCount(len, n);
    if t > 1 {
      var nn: nat := n;
      assert t * nn <= len;
      MulMonotone(i, t - 1, nn);
      if i + 1 < t {
        MulMonotone(i + 1, t, nn);
      }
    }
  }

  /** How much of the image the first `i` tasks have copied. */
  function FilledUpTo(i: nat, t: nat, n: int, len: nat): int {
    if i < t then PartStart(i, n) else len
  }

  lemma DivBounds(k: nat, n: nat)
    requires n > 0
    ensures (k / n) * n <= k < (k / n) * n + n
  {
  }

  lemma SuccMul(a: nat, n: int)
    ensures (a + 1) * n == a * n + n
  {
  }

  /** Ranges of lower-numbered tasks end before those of higher-numbered ones start. */
  lemma PartsOrdered(len: nat, n: int, i: nat, j: nat)
    requires i < j < ThreadCount(len, n)
    ensures PartEnd(i, ThreadCount(len, n), n, len) <= PartStart(j, n)
  {
    MulMonotone(i + 1, j, n);
  }

  /** Every byte lies in exactly one range: the one `PartOf` names. */
  lemma EachByteInOnePart(len: nat, n: int, k: nat)
    requires k < len
    ensures var t, p := ThreadCount(len, n), PartOf(k, len, n);
      p < t && PartStart(p, n) <= k < PartEnd(p, t, n, len)
      && forall i :: 0 <= i < t && PartStart(i, n) <= k < PartEnd(i, t, n, len) ==> i == p
  {
    var t, p := ThreadCount(len, n), PartOf(k, len, n);
    Partition(len, n);
    if t > 1 {
      var nn: nat := n;
      var q := k / nn;
      DivBounds(k, nn);
      if q < t {
        assert p == q;
        SuccMul(q, nn);
      } else {
        assert p == t - 1;
        MulMonotone(t - 1, q, nn);
      }
    }
    forall i | 0 <= i < t && PartStart(i, n) <= k < PartEnd(i, t, n, len) ensures i == p {
      if i < p {
        PartsOrdered(len, n, i, p);
      } else if p < i {
        PartsOrdered(len, n, p, i);
      }
    }
  }

  /** A task of `createRunnableTask`: the range of bytes it copies. */
  datatype Range = Range(start: int, end: int)

  /** The body of a task: each byte of the range is put into a fresh variant stored at the same
      index of the array. */
  method RunTask(bytes: seq<byte>, safearray: array<Variant>, start: int, end: int)
    requires safearray.Length == |bytes| && 0 <= start <= end <= |bytes|
    modifies safearray
    ensures forall k :: start <= k < end ==> safearray[k] == Byte(bytes[k])
    ensures forall k :: 0 <= k < safearray.Length && !(start <= k < end) ==> safearray[k] == old(safearray[k])
  {
    for i := start to end
      invariant forall k :: start <= k < i ==> safearray[k] == Byte(bytes[k])
      invariant forall k :: 0 <= k < safearray.Length && !(start <= k < i) ==> safearray[k] == old(safearray[k])
    {
      safearray[i] := Byte(bytes[i]);
    }
  }

  /** The variants the engine receives for an image: one byte variant per byte, in order. */
  function Encoded(bytes: seq<byte>): (vs: seq<Variant>)
    ensures |vs| == |bytes|
  {
    seq(|bytes|, k requires 0 <= k < |bytes| => Byte(bytes[k]))
  }

  /** `trasformImagetoJacobOject`: builds the copying tasks, runs them, and returns the filled array when
      they have all finished in time (`completes`, the result of `awaitTermination`) and the
      timeout error otherwise. An image without content makes `byteImageContent.length` throw. */
  method TransformImageToJacobObject(content: Option<seq<byte>>, bytesPerThread: Option<int>, completes: bool)
    returns (r: Result<seq<Variant>, OcrError>)
    ensures content.None? ==> r == Err(NullReference)
    ensures content.Some? && !completes ==> r == Err(TimeoutTransformImage)
    ensures content.Some? && completes ==>
      (r.Ok? && |r.value| == |content.value|
       && (forall k :: 0 <= k < |content.value| ==> r.value[k] == Byte(content.value[k]))
       && r.value == Encoded(content.value))
  {
    if content.None? {
      return Err(NullReference);
    }
    var bytes := content.value;
    var len := |bytes|;
    var safearray := new Variant[len](_ => Empty);
    var nNumberOfByte := bytesPerThread.GetOr(len);
    var nNumberOfThread := ThreadCount(len, nNumberOfByte);
    var tabRunnableTask := new Range[nNumberOfThread](_ => Range(0, 0));
    var nCurrentThreadPosition := 0;
    while nCurrentThreadPosition < nNumberOfThread
      invariant 0 <= nCurrentThreadPosition <= nNumberOfThread
      invariant forall i :: 0 <= i < nCurrentThreadPosition ==>
        tabRunnableTask[i] == Range(PartStart(i, nNumberOfByte), PartEnd(i, nNumberOfThread, nNumberOfByte, len))
    {
      var nStart := nCurrentThreadPosition * nNumberOfByte;
      var nEnd := if nCurrentThreadPosition + 1 < nNumberOfThread then (nCurrentThreadPosition + 1) * nNumberOfByte else len;
      tabRunnableTask[nCurrentThreadPosition] := Range(nStart, nEnd);
      nCurrentThreadPosition := nCurrentThreadPosition + 1;
    }
    for i := 0 to nNumberOfThread
      invariant forall j :: 0 <= j < nNumberOfThread ==>
        tabRunnableTask[j] == Range(PartStart(j, nNumberOfByte), PartEnd(j, nNumberOfThread, nNumberOfByte, len))
      invariant 0 <= FilledUpTo(i, nNumberOfThread, nNumberOfByte, len) <= len
      invariant forall k :: 0 <= k < FilledUpTo(i, nNumberOfThread, nNumberOfByte, len) ==> safearray[k] == Byte(bytes[k])
    {
      var task := tabRunnableTask[i];
      PartBounds(len, nNumberOfByte, i);
      RunTask(bytes, safearray, task.start, task.end);
    }
    if !completes {
      return Err(TimeoutTransformImage);
    }
    return Ok(safearray[..]);
  }
}
