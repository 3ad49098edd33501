/**
 * Chunking one segment into consecutive pages of at most `m` items: the
 * first `m` items, the next `m`, and so on, the last page holding the
 * remainder.  Chunk sizes are not balanced.
 */
module Paginator {
  import opened Seqs

  /**
   * The number of pages of at most `m` items that `n` items need: the
   * ceiling of `n / m`, counted by whole pages.
   */
  function CeilDiv(n: nat, m: nat): (q: nat)
    requires m >= 1
    ensures q <= n
    ensures n > 0 <==> q > 0
    ensures n <= m ==> q <= 1
    decreases n
  {
    if n == 0 then 0 else if n <= m then 1 else 1 + CeilDiv(n - m, m)
  }

  /** `CeilDiv(n, m)` is the ceiling of `n / m`: the least `q` with `n <= q * m`. */
  lemma {:induction false} CeilDivBounds(n: nat, m: nat)
    requires m >= 1
    ensures n <= CeilDiv(n, m) * m
    ensures n > 0 ==> (CeilDiv(n, m) - 1) * m < n
    decreases n
  {
    if n > m {
      CeilDivBounds(n - m, m);
      var q := CeilDiv(n - m, m);
      assert (q + 1) * m == q * m + m;
      assert q * m == (q - 1) * m + m;
    }
  }

  /** `s` cut into consecutive pages of `m` items, the last one shorter. */
  function Chunk<T>(s: seq<T>, m: nat): (r: seq<seq<T>>)
    requires m >= 1
    ensures r == [] <==> s == []
    ensures |r| <= |s|
    decreases |s|
  {
    if |s| <= m then (if s == [] then [] else [s])
    else [s[..m]] + Chunk(s[m..], m)
  }

  /** Every segment of `segs` chunked, the pages in segment order. */
  function ChunkAll<T>(segs: seq<seq<T>>, m: nat): seq<seq<T>>
    requires m >= 1
  {
    if segs == [] then [] else Chunk(segs[0], m) + ChunkAll(segs[1..], m)
  }

  /** The sum over `segs` of the number of pages each one needs. */
  function PageCountSum<T>(segs: seq<seq<T>>, m: nat): nat
    requires m >= 1
  {
    if segs == [] then 0 else CeilDiv(|segs[0]|, m) + PageCountSum(segs[1..], m)
  }

  /** The pages of a segment hold exactly its items, in order. */
  lemma {:induction false} ChunkConcat<T>(s: seq<T>, m: nat)
    requires m >= 1
    ensures Concat(Chunk(s, m)) == s
    decreases |s|
  {
    if |s| > m {
      ChunkConcat(s[m..], m);
      assert ([s[..m]] + Chunk(s[m..], m))[1..] == Chunk(s[m..], m);
      assert s == s[..m] + s[m..];
    } else if s != [] {
      assert Concat([s]) == s + Concat([s][1..]);
    }
  }

  /**
   * The sizes of a segment's pages: there are ceil(|s| / m) of them, each
   * non-empty and at most `m` long, and every page but the last is exactly
   * `m` long.  A segment no longer than `m` is one whole page.
   */
  lemma {:induction false} ChunkSizes<T>(s: seq<T>, m: nat)
    requires m >= 1
    ensures |Chunk(s, m)| == CeilDiv(|s|, m)
    ensures forall p :: p in Chunk(s, m) ==> 0 < |p| <= m
    ensures forall i :: 0 <= i < |Chunk(s, m)| - 1 ==> |Chunk(s, m)[i]| == m
    ensures 0 < |s| <= m ==> Chunk(s, m) == [s]
    decreases |s|
  {
    if |s| > m {
      var r := Chunk(s, m);
      var q := Chunk(s[m..], m);
      ChunkSizes(s[m..], m);
      assert r == [s[..m]] + q;
      forall p | p in r
        ensures 0 < |p| <= m
      {
        if p != s[..m] {
          assert p in q;
        }
      }
      forall i | 0 <= i < |r| - 1
        ensures |r[i]| == m
      {
        if i > 0 {
          assert r[i] == q[i - 1];
        }
      }
    }
  }

  /** The last page of a non-empty segment holds what the full pages before it leave. */
  lemma {:induction false} LastPage<T>(s: seq<T>, m: nat)
    requires m >= 1
    requires s != []
    ensures Chunk(s, m) != []
    ensures |Chunk(s, m)[|Chunk(s, m)| - 1]| == |s| - (|Chunk(s, m)| - 1) * m
    decreases |s|
  {
    if |s| > m {
      var r, q := Chunk(s, m), Chunk(s[m..], m);
      LastPage(s[m..], m);
      var k := |q|;
      assert r == [s[..m]] + q;
      assert |r| - 1 == k && r[k] == q[k - 1];
      assert |q[k - 1]| == (|s| - m) - (k - 1) * m;
      assert (k - 1) * m + m == k * m;
    }
  }

  /** Page `i` of a segment is the run of items starting at item `i * m`. */
  lemma {:induction false} ChunkAt<T>(s: seq<T>, m: nat, i: nat)
    requires m >= 1
    requires i < |Chunk(s, m)|
    ensures i * m < |s|
    ensures Chunk(s, m)[i] == s[i * m .. if (i + 1) * m <= |s| then (i + 1) * m else |s|]
    decreases |s|
  {
    if |s| > m && i > 0 {
      assert Chunk(s, m) == [s[..m]] + Chunk(s[m..], m);
      ChunkAt(s[m..], m, i - 1);
      assert (i - 1) * m + m == i * m;
      assert i * m + m == (i + 1) * m;
    }
  }

  /** The pages of all segments hold exactly their items, in order. */
  lemma {:induction false} ChunkAllConcat<T>(segs: seq<seq<T>>, m: nat)
    requires m >= 1
    ensures Concat(ChunkAll(segs, m)) == Concat(segs)
  {
    if segs != [] {
      ChunkAllConcat(segs[1..], m);
      ChunkConcat(segs[0], m);
      ConcatAppend(Chunk(segs[0], m), ChunkAll(segs[1..], m));
    }
  }

  /** Every page of a segment is a run of that segment. */
  lemma ChunkPagesAreRuns<T>(s: seq<T>, m: nat)
    requires m >= 1
    ensures forall p :: p in Chunk(s, m) ==> IsInfix(p, s)
  {
    forall p | p in Chunk(s, m)
      ensures IsInfix(p, s)
    {
      var i :| 0 <= i < |Chunk(s, m)| && Chunk(s, m)[i] == p;
      ChunkAt(s, m, i);
      var hi := if (i + 1) * m <= |s| then (i + 1) * m else |s|;
      assert p == s[i * m .. hi];
    }
  }

  /**
   * Chunking all segments gives the sum of their page counts, every page
   * non-empty and at most `m` long, and every page a run of one segment:
   * no page straddles a segment boundary.
   */
  lemma {:induction false} ChunkAllShape<T>(segs: seq<seq<T>>, m: nat)
    requires m >= 1
    ensures |ChunkAll(segs, m)| == PageCountSum(segs, m)
    ensures forall p :: p in ChunkAll(segs, m) ==> 0 < |p| <= m
    ensures forall p :: p in ChunkAll(segs, m) ==> exists s :: s in segs && IsInfix(p, s)
  {
    if segs != [] {
      var head := Chunk(segs[0], m);
      var tail := ChunkAll(segs[1..], m);
      ChunkAllShape(segs[1..], m);
      ChunkSizes(segs[0], m);
      ChunkPagesAreRuns(segs[0], m);
      assert segs[0] in segs;
      assert forall s :: s in segs[1..] ==> s in segs;
      assert forall p :: p in ChunkAll(segs, m) <==> p in head || p in tail;
    }
  }
}
