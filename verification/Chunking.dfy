/** Cutting a fetched container into numbered chunks. */
module Chunking {
  import opened MachineInts

  type Bytes = seq<bv8>

  datatype Chunk = Chunk(app: string, idx: nat, total: nat, data: Bytes)

  function Min(a: int, b: int): int {
    if a < b then a else b
  }

  /** The number of chunks, rounded up. */
  function Total(n: nat, size: nat): nat
    requires size > 0
  {
    (n + size - 1) / size
  }

  /** Every chunk starts inside the data, and together they reach its end. */
  lemma TotalCovers(n: nat, size: nat)
    requires size > 0
    ensures n <= Total(n, size) * size < n + size
  {
    var t := Total(n, size);
    assert n + size - 1 == t * size + (n + size - 1) % size;
  }

  lemma StartsInside(n: nat, size: nat, i: nat)
    requires size > 0 && i < Total(n, size)
    ensures 0 <= i * size < n
  {
    TotalCovers(n, size);
    var t := Total(n, size);
    hide Total;
    Times(i + 1, t, size);
  }

  lemma {:induction false} Times(a: nat, b: nat, size: nat)
    requires 0 < a <= b
    ensures a * size <= b * size && a * size == (a - 1) * size + size
  {
    if a < b {
      Times(a, b - 1, size);
    }
  }

  function Piece(data: Bytes, size: nat, i: nat): Bytes
    requires size > 0 && i < Total(|data|, size)
  {
    StartsInside(|data|, size, i);
    data[i * size..Min(i * size + size, |data|)]
  }

  function Chunks(data: Bytes, app: string, size: nat): seq<Chunk>
    requires size > 0
  {
    var total := Total(|data|, size);
    seq(total, i requires 0 <= i < total => Chunk(app, i, total, Piece(data, size, i)))
  }

  function Joined(chunks: seq<Chunk>): Bytes {
    if chunks == [] then [] else Joined(chunks[..|chunks| - 1]) + chunks[|chunks| - 1].data
  }

  lemma {:induction false} JoinedPrefix(data: Bytes, app: string, size: nat, i: nat)
    requires size > 0 && i <= Total(|data|, size)
    ensures 0 <= Min(i * size, |data|)
    ensures Joined(Chunks(data, app, size)[..i]) == data[..Min(i * size, |data|)]
  {
    if i > 0 {
      JoinedPrefix(data, app, size, i - 1);
      StartsInside(|data|, size, i - 1);
      var chunks := Chunks(data, app, size);
      assert chunks[..i][..i - 1] == chunks[..i - 1];
      assert i * size == (i - 1) * size + size;
    }
  }

  /** The chunks put together again are the data; none is empty and only the last may be short. */
  lemma ChunksRebuild(data: Bytes, app: string, size: nat)
    requires size > 0
    ensures Joined(Chunks(data, app, size)) == data
    ensures forall c :: c in Chunks(data, app, size) ==>
              0 < |c.data| <= size && (c.idx < c.total - 1 ==> |c.data| == size)
  {
    var n := |data|;
    var t := Total(n, size);
    var chunks := Chunks(data, app, size);
    TotalCovers(n, size);
    JoinedPrefix(data, app, size, t);
    assert chunks[..t] == chunks;
    assert data[..n] == data;
    forall i | 0 <= i < t
      ensures 0 < |chunks[i].data| <= size && (i < t - 1 ==> |chunks[i].data| == size)
    {
      StartsInside(n, size, i);
      if i < t - 1 {
        StartsInside(n, size, i + 1);
        assert (i + 1) * size == i * size + size;
      }
    }
  }

  // Any configured chunk size, in the 64-bit integers of the source.

  datatype Cutting = Panics | Pieces(chunks: seq<Chunk>)

  /** The value that is left of an integer in 64 bits. */
  function Wrapped(x: int): int {
    (x - INT64_MIN) % TWO_64 + INT64_MIN
  }

  function Abs(a: int): nat {
    if a < 0 then -a else a
  }

  function Share(a: nat, k: nat): nat
    requires k > 0
  {
    a / k
  }

  /** Integer division as the source's language does it: towards zero. */
  function Quotient(a: int, b: int): int
    requires b != 0
  {
    var q := Share(Abs(a), Abs(b));
    if (a < 0) == (b < 0) then q else 0 - q
  }

  /** The number of chunks as the source computes it. */
  function Count(n: nat, size: int): int
    requires size != 0
  {
    Quotient(Wrapped(n + size - 1), size)
  }

  /** The sum behind the number of chunks stays within 64 bits. */
  predicate Fits(n: nat, size: int) {
    size > 0 && n + size - 1 <= INT64_MAX
  }

  /** Exactly these lengths and sizes make the source panic. */
  predicate PanicsOn(n: nat, size: int) {
    || size == 0
    || (size < 0 && (n > 2 * -size || (n <= 1 && !(n == 0 && size == INT64_MIN))))
    || (size > 0 && !Fits(n, size) && n + 2 * size - 1 <= TWO_64)
  }

  lemma AtLeastOne(a: nat, k: nat)
    requires k > 0
    ensures Share(a, k) >= 1 <==> a >= k
  {
    assert a == a / k * k + a % k;
  }

  /** A negative size makes the number of chunks negative, zero or positive, by the length of the data alone. */
  lemma NegativeSize(n: nat, size: int)
    requires INT64_MIN <= size < 0 && n <= INT64_MAX
    ensures var total := Count(n, size);
            && (total < 0 <==> n > 2 * -size)
            && (total > 0 <==> n <= 1 && !(n == 0 && size == INT64_MIN))
  {
    hide Share;
    var k, a := -size, Wrapped(n + size - 1);
    if a >= 0 {
      AtLeastOne(a, k);
    } else {
      AtLeastOne(-a, k);
    }
  }

  lemma PositiveSize(n: nat, size: int)
    requires Fits(n, size)
    ensures Count(n, size) == Total(n, size)
  {
    assert Wrapped(n + size - 1) == n + size - 1;
  }

  /** A sum that wraps is negative, so the number of chunks is negative or zero. */
  lemma WrappedSize(n: nat, size: int)
    requires 0 < size <= INT64_MAX && n <= INT64_MAX && !Fits(n, size)
    ensures Count(n, size) <= 0
    ensures Count(n, size) < 0 <==> n + 2 * size - 1 <= TWO_64
  {
    hide Share;
    var a := Wrapped(n + size - 1);
    assert a == n + size - 1 - TWO_64;
    AtLeastOne(-a, size);
  }

  /**
    * Four bytes and the largest size: no chunk and no error. Three bytes: a panic. Nothing and the smallest size: no
    * panic.
    */
  lemma ExtremeSizes()
    ensures !Fits(4, INT64_MAX) && !PanicsOn(4, INT64_MAX) && Count(4, INT64_MAX) == 0
    ensures PanicsOn(3, INT64_MAX) && Count(3, INT64_MAX) < 0
    ensures !PanicsOn(0, INT64_MIN) && Count(0, INT64_MIN) == 0
  {
    hide Count;
    WrappedSize(4, INT64_MAX);
    WrappedSize(3, INT64_MAX);
    NegativeSize(0, INT64_MIN);
  }

  /**
   * Slices the data one chunk at a time. Nothing checks the size: zero divides by zero, and a negative one, or one so
   * large that the sum wraps, ends in a negative capacity or slice bound or loses the data without an error. The
   * quotient itself cannot overflow, because the smallest sum never meets the size -1.
   */
  method CreateChunks(data: Bytes, app: string, size: int) returns (r: Cutting)
    requires |data| <= INT64_MAX && INT64_MIN <= size <= INT64_MAX
    ensures r.Panics? <==> PanicsOn(|data|, size)
    ensures r.Pieces? && Joined(r.chunks) == data <==> Fits(|data|, size) || (|data| == 0 && size == INT64_MIN)
    ensures r.Pieces? && !Fits(|data|, size) ==> r.chunks == []
    ensures Fits(|data|, size) ==>
              && r == Pieces(Chunks(data, app, size))
              && (forall i :: 0 <= i < |r.chunks| ==>
                    r.chunks[i].app == app && r.chunks[i].idx == i && r.chunks[i].total == |r.chunks|)
              && forall c :: c in r.chunks ==> 0 < |c.data| <= size && (c.idx < c.total - 1 ==> |c.data| == size)
  {
    if size == 0 {
      return Panics;
    }
    var dataSize := |data|;
    var total := Quotient(Wrapped(dataSize + size - 1), size);
    assert total == Count(dataSize, size);
    hide Count, Quotient, Wrapped, Chunks, Joined, Total;
    if size < 0 {
      NegativeSize(dataSize, size);
    } else if Fits(dataSize, size) {
      PositiveSize(dataSize, size);
      ChunksRebuild(data, app, size);
      ChunksNumbered(data, app, size);
    } else {
      WrappedSize(dataSize, size);
    }
    NothingJoined();
    if total < 0 {
      return Panics;
    }
    r := Slices(data, app, size, total);
  }

  lemma ChunksNumbered(data: Bytes, app: string, size: nat)
    requires size > 0
    ensures var chunks := Chunks(data, app, size);
            forall i :: 0 <= i < |chunks| ==> chunks[i].app == app && chunks[i].idx == i && chunks[i].total == |chunks|
  {
  }

  lemma NothingJoined()
    ensures Joined([]) == []
  {
  }

  /** The loop: the sums in it stay within 64 bits, and a slice out of bounds panics. */
  method Slices(data: Bytes, app: string, size: int, total: nat) returns (r: Cutting)
    requires |data| <= INT64_MAX && INT64_MIN <= size <= INT64_MAX && size != 0
    requires size > 0 && total > 0 ==> Fits(|data|, size) && total == Total(|data|, size)
    ensures total == 0 ==> r == Pieces([])
    ensures size < 0 && total > 0 ==> r.Panics?
    ensures Fits(|data|, size) && total == Total(|data|, size) ==> r == Pieces(Chunks(data, app, size))
  {
    var dataSize := |data|;
    var chunks := [];
    for i := 0 to total
      invariant size > 0 && total > 0 ==> chunks == Chunks(data, app, size)[..i]
      invariant i == 0 ==> chunks == []
      invariant size < 0 ==> i == 0
    {
      if size > 0 {
        StartsInside(dataSize, size, i);
      }
      var start := i * size;
      assert INT64_MIN <= start <= INT64_MAX && INT64_MIN <= start + size <= INT64_MAX;
      var end := Min(start + size, dataSize);
      if !(0 <= start <= end <= dataSize) {
        return Panics;
      }
      chunks := chunks + [Chunk(app, i, total, data[start..end])];
      assert size > 0 ==> chunks == Chunks(data, app, size)[..i + 1];
    }
    return Pieces(chunks);
  }
}
