/**
  The chunk planner of the multipart upload: a payload of `length` bytes is cut
  into consecutive parts of `size` bytes, the last one possibly shorter, by the
  loop `for (i = 0; i * size < length; i++)` whose body takes the byte range
  `[i * size, min(i * size + size, length))` as part number `i + 1`.
 */
module ChunkPlanner {

  newtype byte = b: int | 0 <= b < 256

  type Bytes = seq<byte>

  /** The fixed part size of the upload: 5 MiB. */
  const PartSize: nat := 5 * 1024 * 1024

  /** A planned part: its 1-based part number and the half-open byte range [start, end). */
  datatype Part = Part(number: nat, start: nat, end: nat) {
    function Size(): nat
      requires start <= end
    {
      end - start
    }
  }

  function Min(a: int, b: int): int {
    if a <= b then a else b
  }

  /** Every range of `plan` is well formed and lies inside a payload of `length` bytes. */
  predicate Fits(plan: seq<Part>, length: nat) {
    forall j :: 0 <= j < |plan| ==> plan[j].start <= plan[j].end <= length
  }

  /** The iterations of the planning loop from index `i` on. */
  function PlanFrom(length: nat, size: nat, i: nat): (plan: seq<Part>)
    requires size > 0
    ensures forall j :: 0 <= j < |plan| ==> plan[j].number == i + j + 1
    ensures forall j :: 0 <= j < |plan| ==> plan[j].start < plan[j].end <= length
    decreases length - i * size
  {
    if i * size < length then
      [Part(i + 1, i * size, Min(i * size + size, length))] + PlanFrom(length, size, i + 1)
    else
      []
  }

  /** The plan of the upload loop: its parts are numbered 1, 2, ... and lie inside the payload. */
  function Plan(length: nat, size: nat): (plan: seq<Part>)
    requires size > 0
    ensures forall j :: 0 <= j < |plan| ==> plan[j].number == j + 1
    ensures Fits(plan, length)
  {
    PlanFrom(length, size, 0)
  }

  /**
    Iteration i + j of the loop plans part j of `PlanFrom(length, size, i)`,
    and the loop runs until the guard `(i + |plan|) * size < length` fails.
   */
  lemma {:induction false} PlanFromShape(length: nat, size: nat, i: nat)
    requires size > 0
    ensures var plan := PlanFrom(length, size, i);
      && (i + |plan|) * size >= length
      && (|plan| > 0 ==> (i + |plan| - 1) * size < length)
      && forall j :: 0 <= j < |plan| ==>
           plan[j] == Part(i + j + 1, (i + j) * size, Min((i + j) * size + size, length))
    decreases length - i * size
  {
    var plan := PlanFrom(length, size, i);
    if i * size < length {
      assert (i + 1) * size == i * size + size;
      PlanFromShape(length, size, i + 1);
      var tail := PlanFrom(length, size, i + 1);
      assert plan == [Part(i + 1, i * size, Min(i * size + size, length))] + tail;
      forall j | 0 < j < |plan|
        ensures plan[j] == Part(i + j + 1, (i + j) * size, Min((i + j) * size + size, length))
      {
        assert plan[j] == tail[j - 1];
        assert i + 1 + (j - 1) == i + j;
      }
    }
  }

  /**
    Part j (0-based) of the plan is the range the loop body computes in
    iteration j, and there is one part per iteration: the loop guard
    `i * size < length` holds for the first |plan| indices and fails after.
   */
  lemma PlanShape(length: nat, size: nat)
    requires size > 0
    ensures var plan := Plan(length, size);
      && |plan| * size >= length
      && (|plan| > 0 ==> (|plan| - 1) * size < length)
      && forall j :: 0 <= j < |plan| ==>
           plan[j] == Part(j + 1, j * size, Min(j * size + size, length))
  {
    PlanFromShape(length, size, 0);
  }

  // ---------------------------------------------------------------------------
  // Arithmetic helpers

  lemma {:induction false} MulMonotone(a: nat, b: nat, c: nat)
    requires a <= b
    ensures a * c <= b * c
  {
    if a < b {
      MulMonotone(a, b - 1, c);
      assert b * c == (b - 1) * c + c;
    }
  }

  /** Division and remainder are determined by any decomposition with a remainder below the divisor. */
  lemma DivModUnique(n: nat, d: nat, q: nat, r: nat)
    requires d > 0 && r < d && n == q * d + r
    ensures n / d == q && n % d == r
  {
    var q', r' := n / d, n % d;
    assert n == q' * d + r';
    MulGap(q, q', d);
    MulGap(q', q, d);
  }

  /** A strictly larger factor adds at least one more multiple. */
  lemma MulGap(a: nat, b: nat, c: nat)
    ensures a < b ==> a * c + c <= b * c
  {
    if a < b {
      MulMonotone(a + 1, b, c);
      assert (a + 1) * c == a * c + c;
    }
  }

  // ---------------------------------------------------------------------------
  // Properties of the plan

  /** The loop guard `i * size < length` holds exactly for the indices of planned parts. */
  lemma PlanIndex(length: nat, size: nat, i: nat)
    requires size > 0
    ensures i < |Plan(length, size)| <==> i * size < length
  {
    PlanShape(length, size);
    var n := |Plan(length, size)|;
    if i < n {
      MulMonotone(i, n - 1, size);
    } else {
      MulMonotone(n, i, size);
    }
  }

  /** The plan has ceil(length / size) parts; an empty payload has none. */
  lemma PartCount(length: nat, size: nat)
    requires size > 0
    ensures |Plan(length, size)| == (length + size - 1) / size
    ensures |Plan(length, size)| == 0 <==> length == 0
  {
    PlanShape(length, size);
    var n := |Plan(length, size)|;
    if n == 0 {
      DivModUnique(length + size - 1, size, 0, size - 1);
    } else {
      var last := length - (n - 1) * size;
      assert n * size == (n - 1) * size + size;
      assert 0 < last <= size;
      DivModUnique(length + size - 1, size, n, last - 1);
    }
  }

  /**
    The parts tile the payload: the first starts at 0, each one ends where the
    next begins, the last ends at `length`, none is empty, so no two overlap.
   */
  lemma PlanTiles(length: nat, size: nat)
    requires size > 0
    ensures var plan := Plan(length, size);
      && (|plan| > 0 ==> plan[0].start == 0 && plan[|plan| - 1].end == length)
      && (forall j :: 0 <= j < |plan| - 1 ==> plan[j].end == plan[j + 1].start)
      && (forall j :: 0 <= j < |plan| ==> plan[j].start < plan[j].end)
      && (forall j, k :: 0 <= j < k < |plan| ==> plan[j].end <= plan[k].start)
  {
    var plan := Plan(length, size);
    var n := |plan|;
    PlanShape(length, size);
    forall j | 0 <= j < n
      ensures plan[j].start < plan[j].end
      ensures j < n - 1 ==> plan[j].end == (j + 1) * size
    {
      PlanIndex(length, size, j);
      if j < n - 1 {
        PlanIndex(length, size, j + 1);
        assert (j + 1) * size == j * size + size;
      }
    }
    if n > 0 {
      assert (n - 1) * size + size == n * size;
    }
    forall j, k | 0 <= j < k < n
      ensures plan[j].end <= plan[k].start
    {
      MulMonotone(j + 1, k, size);
      assert (j + 1) * size == j * size + size;
    }
  }

  /**
    Every part but the last is exactly `size` bytes; the last holds between 1
    and `size` bytes: `length % size`, or `size` when `size` divides `length`.
   */
  lemma PartSizes(length: nat, size: nat)
    requires size > 0
    ensures var plan := Plan(length, size);
      && (forall j :: 0 <= j < |plan| - 1 ==> plan[j].Size() == size)
      && (|plan| > 0 ==> 1 <= plan[|plan| - 1].Size() <= size)
      && (|plan| > 0 ==> plan[|plan| - 1].Size() == if length % size == 0 then size else length % size)
  {
    var plan := Plan(length, size);
    var n := |plan|;
    PlanShape(length, size);
    PlanTiles(length, size);
    forall j | 0 <= j < n - 1
      ensures plan[j].Size() == size
    {
      PlanIndex(length, size, j + 1);
      assert (j + 1) * size == j * size + size;
    }
    if n > 0 {
      var last := plan[n - 1].Size();
      assert n * size == (n - 1) * size + size;
      assert length == (n - 1) * size + last;
      if last == size {
        DivModUnique(length, size, n, 0);
      } else {
        DivModUnique(length, size, n - 1, last);
      }
    }
  }

  /** A payload of exactly two part sizes is planned as two full parts, numbered 1 and 2. */
  lemma TwoFullParts(size: nat)
    requires size > 0
    ensures Plan(2 * size, size) == [Part(1, 0, size), Part(2, size, 2 * size)]
  {
    var plan := Plan(2 * size, size);
    PlanShape(2 * size, size);
    PlanIndex(2 * size, size, 1);
    PlanIndex(2 * size, size, 2);
    assert |plan| == 2;
  }

  /** A payload one byte short of a part is planned as a single short part. */
  lemma OneShortPart(size: nat)
    requires size > 1
    ensures Plan(size - 1, size) == [Part(1, 0, size - 1)]
  {
    var plan := Plan(size - 1, size);
    PlanShape(size - 1, size);
    PlanIndex(size - 1, size, 0);
    PlanIndex(size - 1, size, 1);
    assert |plan| == 1;
  }

  // ---------------------------------------------------------------------------
  // Cutting the payload into part buffers

  /** The part buffers the loop copies out of the payload, one per planned part. */
  function Slices(bytes: Bytes, plan: seq<Part>): (chunks: seq<Bytes>)
    requires Fits(plan, |bytes|)
    ensures |chunks| == |plan|
    ensures forall j :: 0 <= j < |plan| ==> chunks[j] == bytes[plan[j].start..plan[j].end]
  {
    if plan == [] then [] else [bytes[plan[0].start..plan[0].end]] + Slices(bytes, plan[1..])
  }

  /** The concatenation of a sequence of buffers. */
  function Flatten(chunks: seq<Bytes>): Bytes {
    if chunks == [] then [] else chunks[0] + Flatten(chunks[1..])
  }

  /** Reference chunking: peel off `size` bytes at a time, the last chunk taking what remains. */
  function Split(bytes: Bytes, size: nat): (chunks: seq<Bytes>)
    requires size > 0
    ensures forall j :: 0 <= j < |chunks| ==> 0 < |chunks[j]| <= size
    ensures forall j :: 0 <= j < |chunks| - 1 ==> |chunks[j]| == size
    decreases |bytes|
  {
    if bytes == [] then []
    else
      var n := Min(size, |bytes|);
      [bytes[..n]] + Split(bytes[n..], size)
  }

  /** Concatenating the reference chunks gives back the payload. */
  lemma {:induction false} SplitReassembles(bytes: Bytes, size: nat)
    requires size > 0
    ensures Flatten(Split(bytes, size)) == bytes
    decreases |bytes|
  {
    if bytes != [] {
      var n := Min(size, |bytes|);
      SplitReassembles(bytes[n..], size);
      assert Split(bytes, size)[1..] == Split(bytes[n..], size);
      assert bytes[..n] + bytes[n..] == bytes;
    }
  }

  /** From iteration i on, the loop's part buffers are the reference chunks of the unread rest. */
  lemma {:induction false} SlicesFromMatchSplit(bytes: Bytes, size: nat, i: nat)
    requires size > 0 && i * size <= |bytes|
    ensures Fits(PlanFrom(|bytes|, size, i), |bytes|)
    ensures Slices(bytes, PlanFrom(|bytes|, size, i)) == Split(bytes[i * size..], size)
    decreases |bytes| - i * size
  {
    var plan := PlanFrom(|bytes|, size, i);
    var rest := bytes[i * size..];
    if i * size < |bytes| {
      var s := i * size;
      var e := Min(s + size, |bytes|);
      var tail := PlanFrom(|bytes|, size, i + 1);
      assert plan == [Part(i + 1, s, e)] + tail;
      assert plan[1..] == tail;
      assert Slices(bytes, plan) == [bytes[s..e]] + Slices(bytes, tail);
      var n := Min(size, |rest|);
      assert n == e - s;
      assert Split(rest, size) == [rest[..n]] + Split(rest[n..], size);
      assert rest[..n] == bytes[s..e];
      assert (i + 1) * size == s + size;
      if e < |bytes| {
        SlicesFromMatchSplit(bytes, size, i + 1);
        assert rest[n..] == bytes[e..];
      } else {
        assert tail == [];
        assert rest[n..] == [];
      }
    } else {
      assert rest == [];
    }
  }

  /** The loop's part buffers are exactly the reference chunks of the payload. */
  lemma PlanMatchesSplit(bytes: Bytes, size: nat)
    requires size > 0
    ensures Slices(bytes, Plan(|bytes|, size)) == Split(bytes, size)
  {
    SlicesFromMatchSplit(bytes, size, 0);
    assert bytes[0 * size..] == bytes;
  }

  /** Concatenating the part buffers of the plan gives back the payload. */
  lemma PlanReassembles(bytes: Bytes, size: nat)
    requires size > 0
    ensures Flatten(Slices(bytes, Plan(|bytes|, size))) == bytes
  {
    PlanMatchesSplit(bytes, size);
    SplitReassembles(bytes, size);
  }
}
