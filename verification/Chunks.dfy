/**
  The chunk pages of `pallets/chunks-manager/src/lib.rs`: the paged range read `get_chunks`
  against the single read `get_chunk`.
*/
module Chunks {
  import opened Prelude
  import opened Powers

  type Chunk(!new, ==)

  datatype ChunkError = ChunkNotFound | InvalidChunkRange

  /** Pages stored for one ring exponent, with the configured page size. */
  datatype Store = Store(ringExponent: nat, pageSize: nat, pages: map<nat, seq<Chunk>>) {
    /** The documented configuration: the page size is a power of two. */
    ghost predicate PageSizeIsPowerOfTwo() {
      exists k: nat :: pageSize == Pow2(k)
    }
  }

  /** Bitwise and of unsigned numbers. */
  function BitAnd(a: nat, b: nat): (r: nat)
    ensures r <= b
  {
    if a == 0 || b == 0 then 0
    else 2 * BitAnd(a / 2, b / 2) + (a % 2) * (b % 2)
  }

  function TotalPages(s: Store): nat
    requires s.pageSize > 0
  {
    Max(1, Pow2(s.ringExponent) / s.pageSize)
  }

  /** `get_location`: the page holding a chunk index and the position inside it. */
  function Location(s: Store, index: nat): (nat, nat)
    requires s.pageSize > 0
  {
    (BitAnd(index / s.pageSize, SatSub(TotalPages(s), 1)), index % s.pageSize)
  }

  /** `get_chunk`. */
  function GetChunk(s: Store, index: nat): Result<Chunk, ChunkError>
    requires s.pageSize > 0
  {
    var (page, position) := Location(s, index);
    if page in s.pages && position < |s.pages[page]| then Ok(s.pages[page][position])
    else Err(ChunkNotFound)
  }

  /** Masking with one less than a power of two is reduction modulo it. */
  lemma {:induction false} MaskIsModulo(a: nat, k: nat)
    ensures BitAnd(a, Pow2(k) - 1) == a % Pow2(k)
  {
    if k > 0 {
      MaskIsModulo(a / 2, k - 1);
      MaskStep(a, Pow2(k - 1), Pow2(k));
    }
  }

  lemma MaskStep(a: nat, h: nat, p: nat)
    requires h > 0 && p == 2 * h && BitAnd(a / 2, h - 1) == (a / 2) % h
    ensures BitAnd(a, p - 1) == a % p
  {
    HalveModulo(a, h);
    MaskHalves(a, h);
  }

  /** One unfolding of the mask `2 * h - 1`. */
  lemma MaskHalves(a: nat, h: nat)
    requires h > 0
    ensures BitAnd(a, 2 * h - 1) == 2 * BitAnd(a / 2, h - 1) + a % 2
  {
    assert (2 * h - 1) / 2 == h - 1 && (2 * h - 1) % 2 == 1;
    if a == 0 {
      assert BitAnd(0, h - 1) == 0;
    }
  }

  lemma HalveModulo(a: nat, h: nat)
    requires h > 0
    ensures a % (2 * h) == 2 * ((a / 2) % h) + a % 2
  {
    var q, r := a / 2 / h, (a / 2) % h;
    DivRebuild(a / 2, h);
    assert a == 2 * (q * h + r) + a % 2;
    assert 2 * (q * h) == q * (2 * h);
    DivModUnique(a, 2 * h, q, 2 * r + a % 2);
  }

  /** Quotient of powers of two. */
  lemma PowerQuotient(e: nat, k: nat)
    ensures Max(1, Pow2(e) / Pow2(k)) == Pow2(if e < k then 0 else e - k)
  {
    if k <= e {
      Pow2Add(e - k, k);
      MulDiv(Pow2(e - k), Pow2(k));
    } else {
      Pow2Monotone(e, k);
      DivModUnique(Pow2(e), Pow2(k), 0, Pow2(e));
    }
  }

  /** Under a power-of-two page size the page index is taken modulo the page count. */
  lemma LocationIsModulo(s: Store, index: nat)
    requires s.pageSize > 0 && s.PageSizeIsPowerOfTwo()
    ensures Location(s, index) == ((index / s.pageSize) % TotalPages(s), index % s.pageSize)
    ensures TotalPages(s) * s.pageSize == Max(Pow2(s.ringExponent), s.pageSize)
  {
    var e := PageCount(s);
    MaskedLocation(s, index, TotalPages(s), e);
  }

  /** The page count is a power of two. */
  lemma PageCount(s: Store) returns (e: nat)
    requires s.pageSize > 0 && s.PageSizeIsPowerOfTwo()
    ensures TotalPages(s) == Pow2(e)
    ensures TotalPages(s) * s.pageSize == Max(Pow2(s.ringExponent), s.pageSize)
  {
    var k: nat :| s.pageSize == Pow2(k);
    e := if s.ringExponent < k then 0 else s.ringExponent - k;
    PowerQuotient(s.ringExponent, k);
    PagesCover(s.ringExponent, k);
  }

  lemma MaskedLocation(s: Store, index: nat, pages: nat, e: nat)
    requires s.pageSize > 0 && pages == TotalPages(s) && pages == Pow2(e)
    ensures Location(s, index) == ((index / s.pageSize) % pages, index % s.pageSize)
  {
    MaskIsModulo(index / s.pageSize, e);
  }

  lemma PagesCover(e: nat, k: nat)
    ensures Pow2(if e < k then 0 else e - k) * Pow2(k) == Max(Pow2(e), Pow2(k))
  {
    if k <= e {
      Pow2Add(e - k, k);
      Pow2Monotone(k, e);
    } else {
      Pow2Monotone(e, k);
    }
  }

  /** Reads repeat with period `max(ring size, page size)`. */
  lemma ReadsArePeriodic(s: Store, index: nat)
    requires s.pageSize > 0 && s.PageSizeIsPowerOfTwo()
    ensures GetChunk(s, index + Max(Pow2(s.ringExponent), s.pageSize)) == GetChunk(s, index)
  {
    LocationIsModulo(s, index);
    LocationIsModulo(s, index + TotalPages(s) * s.pageSize);
    TurnAround(index, s.pageSize, TotalPages(s));
  }

  /** Adding a whole turn of `t` pages of size `p` changes neither page nor position. */
  lemma TurnAround(index: nat, p: nat, t: nat)
    requires p > 0 && t > 0
    ensures ((index + t * p) / p) % t == (index / p) % t
    ensures (index + t * p) % p == index % p
  {
    var q, r := index / p, index % p;
    DivRebuild(index, p);
    assert index + t * p == (q + t) * p + r;
    DivModUnique(index + t * p, p, q + t, r);
    AddModulus(q, t);
  }

  lemma AddModulus(q: nat, t: nat)
    requires t > 0
    ensures (q + t) % t == q % t
  {
    DivRebuild(q, t);
    var k := q / t;
    assert q + t == (k + 1) * t + q % t;
    DivModUnique(q + t, t, k + 1, q % t);
  }

  /** The chunk is stored in its page, at its position. */
  ghost predicate StoredAt(s: Store, chunk: Chunk, i: nat)
    requires s.pageSize > 0
  {
    var page, position := i / s.pageSize, i % s.pageSize;
    page in s.pages && position < |s.pages[page]| && s.pages[page][position] == chunk
  }

  /** The pages hold the chunks of the ring in order, page by page. */
  ghost predicate Holds(s: Store, chunks: seq<Chunk>)
    requires s.pageSize > 0
  {
    forall i :: 0 <= i < |chunks| ==> StoredAt(s, chunks[i], i)
  }

  /** A read answers the chunk stored at its index, counted around a ring of a power of two chunks. */
  lemma ReadsWhatIsStored(s: Store, chunks: seq<Chunk>, index: nat)
    requires s.pageSize > 0 && s.PageSizeIsPowerOfTwo() && s.pageSize <= |chunks| == Pow2(s.ringExponent) && Holds(s, chunks)
    ensures index % |chunks| < |chunks| && GetChunk(s, index) == Ok(chunks[index % |chunks|])
  {
    LocationIsModulo(s, index);
    RemainderBelow(index, |chunks|);
    PageOfRemainder(index, s.pageSize, TotalPages(s), |chunks|);
    LocatedRead(s, chunks, index, index % |chunks|);
  }

  lemma RemainderBelow(a: nat, n: nat)
    requires n > 0
    ensures 0 <= a % n < n
  {
  }

  lemma LocatedRead(s: Store, chunks: seq<Chunk>, index: nat, i: nat)
    requires s.pageSize > 0 && Holds(s, chunks) && i < |chunks| && Location(s, index) == (i / s.pageSize, i % s.pageSize)
    ensures GetChunk(s, index) == Ok(chunks[i])
  {
    assert StoredAt(s, chunks[i], i);
  }

  /** Page and position of an index are those of its remainder around the ring. */
  lemma PageOfRemainder(index: nat, p: nat, t: nat, n: nat)
    requires p > 0 && t > 0 && n == t * p && n > 0
    ensures (index / p) % t == (index % n) / p
    ensures index % p == (index % n) % p
  {
    var k, i := index / n, index % n;
    DivRebuild(index, n);
    DivRebuild(i, p);
    var q, r := i / p, i % p;
    assert index == (k * t + q) * p + r by {
      assert k * (t * p) == (k * t) * p;
      assert (k * t) * p + q * p == (k * t + q) * p;
    }
    DivModUnique(index, p, k * t + q, r);
    QuotientBelow(i, p, t, q, r);
    DivModUnique(k * t + q, t, k, q);
  }

  lemma QuotientBelow(i: nat, p: nat, t: nat, q: nat, r: nat)
    requires i < t * p && i == q * p + r && p > 0
    ensures q < t
  {
    if q >= t {
      if t < q {
        MulGap(t, q, p);
      }
    }
  }

  /** `result` is the sequence of single reads from `start` on. */
  ghost predicate Reads(s: Store, start: nat, result: seq<Chunk>)
    requires s.pageSize > 0
  {
    forall i {:trigger result[i]} :: 0 <= i < |result| ==> GetChunk(s, start + i) == Ok(result[i])
  }

  /** Every single read of the range succeeds. */
  ghost predicate AllPresent(s: Store, start: nat, end: nat)
    requires s.pageSize > 0
  {
    forall i :: start <= i < end ==> GetChunk(s, i).Ok?
  }

  /** Indices of one absolute page share the stored page and have consecutive positions. */
  lemma SamePage(s: Store, index: nat, offset: nat)
    requires s.pageSize > 0 && index % s.pageSize + offset < s.pageSize
    ensures Location(s, index + offset) == (Location(s, index).0, Location(s, index).1 + offset)
  {
    var p := s.pageSize;
    DivRebuild(index, p);
    DivModUnique(index + offset, p, index / p, index % p + offset);
  }

  lemma ReadInPage(s: Store, index: nat, offset: nat, page: nat, position: nat)
    requires s.pageSize > 0 && (page, position) == Location(s, index)
    requires position + offset < s.pageSize
    ensures GetChunk(s, index + offset)
         == if page in s.pages && position + offset < |s.pages[page]|
            then Ok(s.pages[page][position + offset]) else Err(ChunkNotFound)
  {
    SamePage(s, index, offset);
  }

  /** The loop body of `get_chunks`: take what the current page holds of the range. */
  method ReadPage(s: Store, index: nat, end: nat) returns (r: Result<seq<Chunk>, ChunkError>)
    requires s.pageSize > 0 && index < end
    ensures r.Ok? ==> 0 < |r.value| <= end - index && Reads(s, index, r.value)
    ensures r.Err? ==> r.error == ChunkNotFound && !AllPresent(s, index, end)
  {
    var (page, position) := Location(s, index);
    assert position < s.pageSize;
    var count := Min(SatSub(s.pageSize, position), SatSub(end, index));
    if page !in s.pages || |s.pages[page]| < position + count {
      ReadInPage(s, index, count - 1, page, position);
      assert GetChunk(s, index + (count - 1)).Err?;
      return Err(ChunkNotFound);
    }
    var slice := s.pages[page][position..position + count];
    forall i | 0 <= i < |slice|
      ensures GetChunk(s, index + i) == Ok(slice[i])
    {
      ReadInPage(s, index, i, page, position);
    }
    r := Ok(slice);
  }

  /** `get_chunks`: page by page, with the same answers and the same failures as single reads. */
  method GetChunks(s: Store, start: nat, end: nat) returns (r: Result<seq<Chunk>, ChunkError>)
    requires s.pageSize > 0
    requires end <= U32_MAX
    ensures r == Err(InvalidChunkRange) <==> start >= end
    ensures start < end ==> (r.Ok? <==> AllPresent(s, start, end))
    ensures r.Ok? ==> |r.value| == end - start && Reads(s, start, r.value)
  {
    if start >= end {
      return Err(InvalidChunkRange);
    }
    var result: seq<Chunk> := [];
    var index := start;
    while index < end
      invariant start <= index <= end
      invariant |result| == index - start
      invariant Reads(s, start, result)
    {
      var slice := ReadPage(s, index, end);
      if slice.Err? {
        return slice;
      }
      ExtendReads(s, start, result, slice.value);
      result := result + slice.value;
      index := index + |slice.value|;
    }
    ReadsCover(s, start, end, result);
    r := Ok(result);
  }

  lemma ExtendReads(s: Store, start: nat, result: seq<Chunk>, slice: seq<Chunk>)
    requires s.pageSize > 0
    requires Reads(s, start, result) && Reads(s, start + |result|, slice)
    ensures Reads(s, start, result + slice)
  {
    var all := result + slice;
    forall i | 0 <= i < |all|
      ensures GetChunk(s, start + i) == Ok(all[i])
    {
      if i < |result| {
        assert all[i] == result[i];
      } else {
        assert all[i] == slice[i - |result|];
      }
    }
  }

  lemma ReadsCover(s: Store, start: nat, end: nat, result: seq<Chunk>)
    requires s.pageSize > 0 && start <= end && |result| == end - start
    requires Reads(s, start, result)
    ensures AllPresent(s, start, end)
  {
    forall i | start <= i < end
      ensures GetChunk(s, i).Ok?
    {
      assert GetChunk(s, start + (i - start)) == Ok(result[i - start]);
    }
  }
}
