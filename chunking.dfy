/**
 The greedy size-bounded chunker of mirror_and_push.py (`chunk_by_size`).

 Records are of an arbitrary type `T`; the byte length of a record's compact
 JSON/UTF-8 encoding is abstracted as `encLen: T -> nat`. The chunker scans the
 records once, keeping the current chunk and the running total of its records'
 encoded lengths; a record whose length would push that total above `maxBytes`
 first closes the current chunk (even when it is still empty) and then opens a
 new one.
 */
module Chunking {

  /** The default limit of `chunk_by_size`: 5 MiB. */
  const DefaultMaxBytes: int := 5 * 1024 * 1024

  /** Sum of the encoded lengths of the records of `c`. */
  function SumLen<T(==)>(c: seq<T>, encLen: T -> nat): nat
  {
    if c == [] then 0 else encLen(c[0]) + SumLen(c[1..], encLen)
  }

  /** All chunks joined back together, in order. */
  function Flatten<T(==)>(cs: seq<seq<T>>): seq<T>
  {
    if cs == [] then [] else cs[0] + Flatten(cs[1..])
  }

  lemma {:induction false} SumLenAppend<T>(a: seq<T>, b: seq<T>, encLen: T -> nat)
    ensures SumLen(a + b, encLen) == SumLen(a, encLen) + SumLen(b, encLen)
  {
    if a == [] {
      assert a + b == b;
    } else {
      assert (a + b)[1..] == a[1..] + b;
      SumLenAppend(a[1..], b, encLen);
    }
  }

  lemma {:induction false} SumLenElement<T>(c: seq<T>, j: nat, encLen: T -> nat)
    requires j < |c|
    ensures encLen(c[j]) <= SumLen(c, encLen)
  {
    if j > 0 {
      SumLenElement(c[1..], j - 1, encLen);
    }
  }

  lemma {:induction false} FlattenAppend<T>(a: seq<seq<T>>, b: seq<seq<T>>)
    ensures Flatten(a + b) == Flatten(a) + Flatten(b)
  {
    if a == [] {
      assert a + b == b;
    } else {
      assert (a + b)[1..] == a[1..] + b;
      FlattenAppend(a[1..], b);
    }
  }

  lemma {:induction false} FlattenLength<T>(cs: seq<seq<T>>)
    requires forall k :: 0 <= k < |cs| ==> cs[k] != []
    ensures |cs| <= |Flatten(cs)|
  {
    if cs != [] {
      FlattenLength(cs[1..]);
    }
  }

  // ---------------------------------------------------------------------------
  // The reference description of a chunking, independent of the scan
  // ---------------------------------------------------------------------------

  /** A chunk the code can produce: a single record of any size, or records whose total fits. */
  predicate Fits<T(==)>(c: seq<T>, encLen: T -> nat, maxBytes: int)
  {
    |c| <= 1 || SumLen(c, encLen) <= maxBytes
  }

  /** `next` had to start a new chunk: its first record did not fit after `prev`. */
  predicate Splits<T(==)>(prev: seq<T>, next: seq<T>, encLen: T -> nat, maxBytes: int)
  {
    next != [] && SumLen(prev, encLen) + encLen(next[0]) > maxBytes
  }

  /** `ts` cuts `items` into non-empty consecutive chunks, each fitting, each maximal. */
  predicate Tiling<T(==)>(items: seq<T>, ts: seq<seq<T>>, encLen: T -> nat, maxBytes: int)
  {
    && (forall k :: 0 <= k < |ts| ==> ts[k] != [])
    && Flatten(ts) == items
    && (forall k :: 0 <= k < |ts| ==> Fits(ts[k], encLen, maxBytes))
    && (forall k :: 0 < k < |ts| ==> Splits(ts[k - 1], ts[k], encLen, maxBytes))
  }

  /** The very first record alone is longer than the limit. */
  predicate FirstOversized<T(==)>(items: seq<T>, encLen: T -> nat, maxBytes: int)
  {
    items != [] && encLen(items[0]) > maxBytes
  }

  /**
   What `chunk_by_size` yields, described without the scan: the greedy tiling
   of the records, preceded by one empty chunk exactly when the first record
   alone is over the limit (the size test runs while the chunk is still empty).
   */
  predicate IsChunking<T(==)>(items: seq<T>, cs: seq<seq<T>>, encLen: T -> nat, maxBytes: int)
  {
    if FirstOversized(items, encLen, maxBytes) then
      cs != [] && cs[0] == [] && Tiling(items, cs[1..], encLen, maxBytes)
    else
      Tiling(items, cs, encLen, maxBytes)
  }

  // ---------------------------------------------------------------------------
  // The scan, as a function of the records consumed so far
  // ---------------------------------------------------------------------------

  /** The loop's state: chunks yielded so far, the open chunk and its running size. */
  datatype ScanState<T> = ScanState(emitted: seq<seq<T>>, current: seq<T>, size: nat)

  /** The state of the loop after it has consumed `items`. */
  function Scan<T(==)>(items: seq<T>, encLen: T -> nat, maxBytes: int): ScanState<T>
    decreases |items|
  {
    if items == [] then ScanState([], [], 0)
    else
      var s := Scan(items[..|items| - 1], encLen, maxBytes);
      var x := items[|items| - 1];
      if s.size + encLen(x) > maxBytes then
        ScanState(s.emitted + [s.current], [x], encLen(x))
      else
        ScanState(s.emitted, s.current + [x], s.size + encLen(x))
  }

  /** Everything `chunk_by_size` yields: the scan's chunks, then the open chunk if non-empty. */
  function Chunks<T(==)>(items: seq<T>, encLen: T -> nat, maxBytes: int): seq<seq<T>>
  {
    var s := Scan(items, encLen, maxBytes);
    if s.current == [] then s.emitted else s.emitted + [s.current]
  }

  // ---------------------------------------------------------------------------
  // The scan produces the reference chunking
  // ---------------------------------------------------------------------------

  lemma {:induction false} TilingSplit<T>(items: seq<T>, ts: seq<seq<T>>, x: T, encLen: T -> nat, maxBytes: int)
    requires Tiling(items, ts, encLen, maxBytes) && ts != []
    requires SumLen(ts[|ts| - 1], encLen) + encLen(x) > maxBytes
    ensures Tiling(items + [x], ts + [[x]], encLen, maxBytes)
  {
    var ts' := ts + [[x]];
    FlattenAppend(ts, [[x]]);
    assert Flatten([[x]]) == [x] + Flatten([]);
    forall k | 0 < k < |ts'| ensures Splits(ts'[k - 1], ts'[k], encLen, maxBytes) {
      if k < |ts| {
        assert ts'[k - 1] == ts[k - 1] && ts'[k] == ts[k];
      }
    }
  }

  lemma {:induction false} TilingGrow<T>(items: seq<T>, ts: seq<seq<T>>, x: T, encLen: T -> nat, maxBytes: int)
    requires Tiling(items, ts, encLen, maxBytes) && ts != []
    requires SumLen(ts[|ts| - 1], encLen) + encLen(x) <= maxBytes
    ensures Tiling(items + [x], ts[..|ts| - 1] + [ts[|ts| - 1] + [x]], encLen, maxBytes)
  {
    var n := |ts|;
    var last := ts[n - 1];
    var ts' := ts[..n - 1] + [last + [x]];
    assert ts == ts[..n - 1] + [last];
    FlattenAppend(ts[..n - 1], [last]);
    FlattenAppend(ts[..n - 1], [last + [x]]);
    assert Flatten([last]) == last + Flatten([]);
    assert Flatten([last + [x]]) == (last + [x]) + Flatten([]);
    SumLenAppend(last, [x], encLen);
    assert SumLen([x], encLen) == encLen(x) + SumLen([x][1..], encLen);
    forall k | 0 <= k < n ensures ts'[k] != [] && Fits(ts'[k], encLen, maxBytes) {
      if k < n - 1 {
        assert ts'[k] == ts[k];
      }
    }
    forall k | 0 < k < n ensures Splits(ts'[k - 1], ts'[k], encLen, maxBytes) {
      assert ts'[k - 1] == ts[k - 1];
      if k < n - 1 {
        assert ts'[k] == ts[k];
      } else {
        assert ts'[k][0] == ts[k][0];
      }
    }
  }

  lemma {:induction false} TilingNonEmpty<T>(items: seq<T>, ts: seq<seq<T>>, encLen: T -> nat, maxBytes: int)
    requires Tiling(items, ts, encLen, maxBytes)
    ensures ts == [] <==> items == []
  {
  }

  /** Starting a new chunk for `x` keeps the result a chunking of the longer input. */
  lemma {:induction false} ChunkingSplit<T>(items: seq<T>, cs: seq<seq<T>>, x: T, encLen: T -> nat, maxBytes: int)
    requires items != [] && IsChunking(items, cs, encLen, maxBytes)
    requires cs != [] && SumLen(cs[|cs| - 1], encLen) + encLen(x) > maxBytes
    ensures IsChunking(items + [x], cs + [[x]], encLen, maxBytes)
  {
    assert (items + [x])[0] == items[0];
    if FirstOversized(items, encLen, maxBytes) {
      var ts := cs[1..];
      TilingNonEmpty(items, ts, encLen, maxBytes);
      assert ts[|ts| - 1] == cs[|cs| - 1];
      TilingSplit(items, ts, x, encLen, maxBytes);
      assert (cs + [[x]])[1..] == ts + [[x]];
    } else {
      TilingSplit(items, cs, x, encLen, maxBytes);
    }
  }

  /** Appending `x` to the open chunk keeps the result a chunking of the longer input. */
  lemma {:induction false} ChunkingGrow<T>(items: seq<T>, cs: seq<seq<T>>, x: T, encLen: T -> nat, maxBytes: int)
    requires items != [] && IsChunking(items, cs, encLen, maxBytes)
    requires cs != [] && SumLen(cs[|cs| - 1], encLen) + encLen(x) <= maxBytes
    ensures IsChunking(items + [x], cs[..|cs| - 1] + [cs[|cs| - 1] + [x]], encLen, maxBytes)
  {
    assert (items + [x])[0] == items[0];
    var cs' := cs[..|cs| - 1] + [cs[|cs| - 1] + [x]];
    if FirstOversized(items, encLen, maxBytes) {
      var ts := cs[1..];
      TilingNonEmpty(items, ts, encLen, maxBytes);
      assert ts[|ts| - 1] == cs[|cs| - 1];
      TilingGrow(items, ts, x, encLen, maxBytes);
      assert cs'[1..] == ts[..|ts| - 1] + [ts[|ts| - 1] + [x]];
    } else {
      TilingGrow(items, cs, x, encLen, maxBytes);
    }
  }

  /**
   The loop invariant: after a non-empty prefix, the open chunk is non-empty,
   `size` is its total, and the yielded chunks followed by it form the chunking.
   */
  predicate ScanInv<T(==)>(items: seq<T>, s: ScanState<T>, encLen: T -> nat, maxBytes: int)
  {
    if items == [] then s == ScanState([], [], 0)
    else
      && s.current != []
      && s.size == SumLen(s.current, encLen)
      && IsChunking(items, s.emitted + [s.current], encLen, maxBytes)
  }

  lemma ScanFirst<T>(x: T, encLen: T -> nat, maxBytes: int)
    ensures ScanInv([x], Scan([x], encLen, maxBytes), encLen, maxBytes)
  {
  }

  lemma ScanStep<T>(p: seq<T>, x: T, encLen: T -> nat, maxBytes: int)
    requires p != [] && ScanInv(p, Scan(p, encLen, maxBytes), encLen, maxBytes)
    ensures ScanInv(p + [x], Scan(p + [x], encLen, maxBytes), encLen, maxBytes)
  {
    var s := Scan(p, encLen, maxBytes);
    assert (p + [x])[..|p|] == p;
    var cs := s.emitted + [s.current];
    assert cs[|cs| - 1] == s.current;
    if s.size + encLen(x) > maxBytes {
      ChunkingSplit(p, cs, x, encLen, maxBytes);
      assert SumLen([x], encLen) == encLen(x) + SumLen([x][1..], encLen);
    } else {
      ChunkingGrow(p, cs, x, encLen, maxBytes);
      assert cs[..|cs| - 1] == s.emitted;
      SumLenAppend(s.current, [x], encLen);
      assert SumLen([x], encLen) == encLen(x) + SumLen([x][1..], encLen);
    }
  }

  /** Every prefix's scan state satisfies the loop invariant. */
  lemma {:induction false} ScanIsChunking<T>(items: seq<T>, encLen: T -> nat, maxBytes: int)
    ensures ScanInv(items, Scan(items, encLen, maxBytes), encLen, maxBytes)
    decreases |items|
  {
    if items != [] {
      var p := items[..|items| - 1];
      assert items == p + [items[|items| - 1]];
      if p == [] {
        ScanFirst(items[0], encLen, maxBytes);
      } else {
        ScanIsChunking(p, encLen, maxBytes);
        ScanStep(p, items[|items| - 1], encLen, maxBytes);
      }
    }
  }

  /** What the chunker yields is the reference chunking of its input. */
  lemma {:induction false} ChunksIsChunking<T>(items: seq<T>, encLen: T -> nat, maxBytes: int)
    ensures IsChunking(items, Chunks(items, encLen, maxBytes), encLen, maxBytes)
  {
    ScanIsChunking(items, encLen, maxBytes);
    if items == [] {
      assert Tiling(items, [], encLen, maxBytes);
    }
  }

  // ---------------------------------------------------------------------------
  // The reference chunking is unique
  // ---------------------------------------------------------------------------

  lemma {:induction false} TilingHead<T>(items: seq<T>, ts: seq<seq<T>>, encLen: T -> nat, maxBytes: int)
    requires Tiling(items, ts, encLen, maxBytes) && ts != []
    ensures |ts[0]| <= |items| && items[..|ts[0]|] == ts[0]
    ensures Tiling(items[|ts[0]|..], ts[1..], encLen, maxBytes)
  {
  }

  /** Two tilings of the same records start with the same chunk length: greedy takes all that fits. */
  lemma {:induction false} TilingHeadMaximal<T>(items: seq<T>, t1: seq<seq<T>>, t2: seq<seq<T>>, encLen: T -> nat, maxBytes: int)
    requires Tiling(items, t1, encLen, maxBytes) && t1 != []
    requires Tiling(items, t2, encLen, maxBytes) && t2 != []
    ensures |t2[0]| <= |t1[0]|
  {
    var a, b := |t1[0]|, |t2[0]|;
    TilingHead(items, t1, encLen, maxBytes);
    TilingHead(items, t2, encLen, maxBytes);
    if a < b {
      var rest := t1[1..];
      TilingNonEmpty(items[a..], rest, encLen, maxBytes);
      assert Flatten(rest) == rest[0] + Flatten(rest[1..]);
      assert items[a] == t1[1][0];
      assert Splits(t1[0], t1[1], encLen, maxBytes);
      assert items[..b] == items[..a] + items[a..b];
      SumLenAppend(items[..a], items[a..b], encLen);
      assert false;
    }
  }

  lemma {:induction false} TilingUnique<T>(items: seq<T>, t1: seq<seq<T>>, t2: seq<seq<T>>, encLen: T -> nat, maxBytes: int)
    requires Tiling(items, t1, encLen, maxBytes) && Tiling(items, t2, encLen, maxBytes)
    ensures t1 == t2
    decreases |items|
  {
    TilingNonEmpty(items, t1, encLen, maxBytes);
    TilingNonEmpty(items, t2, encLen, maxBytes);
    if items != [] {
      TilingHeadMaximal(items, t1, t2, encLen, maxBytes);
      TilingHeadMaximal(items, t2, t1, encLen, maxBytes);
      TilingHead(items, t1, encLen, maxBytes);
      TilingHead(items, t2, encLen, maxBytes);
      var a := |t1[0]|;
      TilingUnique(items[a..], t1[1..], t2[1..], encLen, maxBytes);
      assert t1 == [t1[0]] + t1[1..];
      assert t2 == [t2[0]] + t2[1..];
    }
  }

  /**
   The chunker's output is exactly the reference chunking: it is one, and
   there is no other.
   */
  lemma {:induction false} ChunksCharacterized<T>(items: seq<T>, cs: seq<seq<T>>, encLen: T -> nat, maxBytes: int)
    ensures IsChunking(items, cs, encLen, maxBytes) <==> cs == Chunks(items, encLen, maxBytes)
  {
    var c0 := Chunks(items, encLen, maxBytes);
    ChunksIsChunking(items, encLen, maxBytes);
    if IsChunking(items, cs, encLen, maxBytes) {
      if FirstOversized(items, encLen, maxBytes) {
        TilingUnique(items, cs[1..], c0[1..], encLen, maxBytes);
        assert cs == [cs[0]] + cs[1..];
        assert c0 == [c0[0]] + c0[1..];
      } else {
        TilingUnique(items, cs, c0, encLen, maxBytes);
      }
    }
  }

  // ---------------------------------------------------------------------------
  // Properties of what the chunker yields
  // ---------------------------------------------------------------------------

  /** No record is lost, duplicated or reordered. */
  lemma {:induction false} ChunksConcat<T>(items: seq<T>, encLen: T -> nat, maxBytes: int)
    ensures Flatten(Chunks(items, encLen, maxBytes)) == items
  {
    var cs := Chunks(items, encLen, maxBytes);
    ChunksIsChunking(items, encLen, maxBytes);
    if FirstOversized(items, encLen, maxBytes) {
      assert Flatten(cs) == cs[0] + Flatten(cs[1..]);
    }
  }

  /**
   Every chunk holds records whose encoded lengths sum to at most `maxBytes`
   (equality allowed), unless it holds at most one record.
   */
  lemma {:induction false} ChunksWithinLimit<T>(items: seq<T>, encLen: T -> nat, maxBytes: int)
    ensures var cs := Chunks(items, encLen, maxBytes);
      forall k :: 0 <= k < |cs| ==> Fits(cs[k], encLen, maxBytes)
    ensures var cs := Chunks(items, encLen, maxBytes);
      0 <= maxBytes ==> forall k :: 0 <= k < |cs| ==> |cs[k]| == 1 || SumLen(cs[k], encLen) <= maxBytes
  {
    var cs := Chunks(items, encLen, maxBytes);
    ChunksIsChunking(items, encLen, maxBytes);
    if FirstOversized(items, encLen, maxBytes) {
      forall k | 0 < k < |cs| ensures Fits(cs[k], encLen, maxBytes) {
        assert cs[k] == cs[1..][k - 1];
      }
    }
  }

  /**
   A chunk is empty exactly when it is the first one and the first record
   alone is over the limit; so empty input yields nothing at all.
   */
  lemma {:induction false} ChunksEmptiness<T>(items: seq<T>, encLen: T -> nat, maxBytes: int)
    ensures var cs := Chunks(items, encLen, maxBytes);
      forall k :: 0 <= k < |cs| ==> (cs[k] == [] <==> k == 0 && FirstOversized(items, encLen, maxBytes))
    ensures Chunks(items, encLen, maxBytes) == [] <==> items == []
  {
    var cs := Chunks(items, encLen, maxBytes);
    ChunksIsChunking(items, encLen, maxBytes);
    if FirstOversized(items, encLen, maxBytes) {
      forall k | 0 < k < |cs| ensures cs[k] != [] {
        assert cs[k] == cs[1..][k - 1];
      }
    } else {
      TilingNonEmpty(items, cs, encLen, maxBytes);
    }
  }

  /**
   Greedy maximality: each chunk after the first was started because its
   first record would have pushed the previous chunk's total over the limit.
   */
  lemma {:induction false} ChunksGreedy<T>(items: seq<T>, encLen: T -> nat, maxBytes: int)
    ensures var cs := Chunks(items, encLen, maxBytes);
      forall k :: 0 < k < |cs| ==>
        cs[k] != [] && SumLen(cs[k - 1], encLen) + encLen(cs[k][0]) > maxBytes
  {
    var cs := Chunks(items, encLen, maxBytes);
    ChunksIsChunking(items, encLen, maxBytes);
    if FirstOversized(items, encLen, maxBytes) {
      var ts := cs[1..];
      forall k | 0 < k < |cs| ensures Splits(cs[k - 1], cs[k], encLen, maxBytes) {
        if k == 1 {
          TilingHead(items, ts, encLen, maxBytes);
          assert cs[1][0] == items[0];
        } else {
          assert cs[k - 1] == ts[k - 2] && cs[k] == ts[k - 1];
        }
      }
    }
  }

  /** One pass yields at most one chunk per record, plus the leading empty one. */
  lemma {:induction false} ChunksCount<T>(items: seq<T>, encLen: T -> nat, maxBytes: int)
    ensures |Chunks(items, encLen, maxBytes)| <= |items| + 1
    ensures !FirstOversized(items, encLen, maxBytes) ==> |Chunks(items, encLen, maxBytes)| <= |items|
  {
    var cs := Chunks(items, encLen, maxBytes);
    ChunksIsChunking(items, encLen, maxBytes);
    if FirstOversized(items, encLen, maxBytes) {
      FlattenLength(cs[1..]);
    } else {
      FlattenLength(cs);
    }
  }

  /** A record longer than the limit never shares its chunk with another record. */
  lemma {:induction false} OversizedAlone<T>(items: seq<T>, encLen: T -> nat, maxBytes: int)
    ensures var cs := Chunks(items, encLen, maxBytes);
      forall k, j :: 0 <= k < |cs| && 0 <= j < |cs[k]| && encLen(cs[k][j]) > maxBytes ==>
        cs[k] == [cs[k][j]]
  {
    var cs := Chunks(items, encLen, maxBytes);
    ChunksWithinLimit(items, encLen, maxBytes);
    forall k, j | 0 <= k < |cs| && 0 <= j < |cs[k]| && encLen(cs[k][j]) > maxBytes
      ensures cs[k] == [cs[k][j]]
    {
      SumLenElement(cs[k], j, encLen);
    }
  }

  // ---------------------------------------------------------------------------
  // The docstring's bound versus the code's
  // ---------------------------------------------------------------------------

  /** Byte length of the compact JSON array of a chunk: brackets, records, commas between. */
  function ListDumpLen<T(==)>(c: seq<T>, encLen: T -> nat): nat
  {
    2 + SumLen(c, encLen) + (if c == [] then 0 else |c| - 1)
  }

  /**
   The code bounds the sum of the records' own lengths, not the serialized
   list: a chunk of two or more records may dump to up to `|c| + 1` bytes over.
   */
  lemma {:induction false} ChunkDumpBound<T>(items: seq<T>, encLen: T -> nat, maxBytes: int)
    ensures var cs := Chunks(items, encLen, maxBytes);
      forall k :: 0 <= k < |cs| && |cs[k]| >= 2 ==> ListDumpLen(cs[k], encLen) <= maxBytes + |cs[k]| + 1
  {
    ChunksWithinLimit(items, encLen, maxBytes);
  }

  /** Two records of 50 bytes under a limit of 100 share one chunk whose array dump is 103 bytes. */
  lemma DocstringBoundExceeded()
    ensures var size := (n: nat) => n;
      Chunks<nat>([50, 50], size, 100) == [[50, 50]] && ListDumpLen<nat>([50, 50], size) == 103
  {
    var size := (n: nat) => n;
    var items: seq<nat> := [50, 50];
    var cs: seq<seq<nat>> := [[50, 50]];
    var one: seq<nat> := [50];
    assert SumLen(one, size) == 50 + SumLen(one[1..], size);
    assert SumLen(items, size) == 50 + SumLen(items[1..], size);
    assert items[1..] == [50];
    assert Flatten(cs) == items + Flatten(cs[1..]);
    assert Tiling(items, cs, size, 100);
    ChunksCharacterized(items, cs, size, 100);
  }

  /** Records of 40 bytes under a limit of 100 go two, then one. */
  lemma ScenarioForty()
    ensures Chunks<nat>([40, 40, 40], (n: nat) => n, 100) == [[40, 40], [40]]
  {
    var size := (n: nat) => n;
    var items: seq<nat> := [40, 40, 40];
    var cs: seq<seq<nat>> := [[40, 40], [40]];
    var one: seq<nat> := [40];
    assert SumLen(one, size) == 40 + SumLen(one[1..], size);
    var two: seq<nat> := [40, 40];
    assert two[1..] == one;
    assert SumLen(two, size) == 40 + SumLen(two[1..], size);
    assert Flatten(cs[1..]) == [40] + Flatten(cs[1..][1..]);
    assert Flatten(cs) == [40, 40] + Flatten(cs[1..]);
    assert Splits(cs[0], cs[1], size, 100);
    assert Tiling(items, cs, size, 100);
    ChunksCharacterized(items, cs, size, 100);
  }

  // ---------------------------------------------------------------------------
  // The chunker itself
  // ---------------------------------------------------------------------------

  /** `chunk_by_size`: one pass, yielding chunks into a materialized list. */
  method ChunkBySize<T(==)>(items: seq<T>, encLen: T -> nat, maxBytes: int := DefaultMaxBytes) returns (chunks: seq<seq<T>>)
    ensures chunks == Chunks(items, encLen, maxBytes)
    ensures IsChunking(items, chunks, encLen, maxBytes)
  {
    chunks := [];
    var chunk: seq<T> := [];
    var size: nat := 0;
    for i := 0 to |items|
      invariant ScanState(chunks, chunk, size) == Scan(items[..i], encLen, maxBytes)
    {
      var b := encLen(items[i]);
      assert items[..i + 1][..i] == items[..i];
      if size + b > maxBytes {
        chunks := chunks + [chunk];
        chunk, size := [], 0;
      }
      chunk := chunk + [items[i]];
      size := size + b;
    }
    assert items[..|items|] == items;
    if chunk != [] {
      chunks := chunks + [chunk];
    }
    ChunksIsChunking(items, encLen, maxBytes);
  }
}
