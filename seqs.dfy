/** Sequence helpers shared by the segmenter, the paginator and the engine. */
module Seqs {

  /** The elements of all parts, part after part. */
  function Concat<T>(parts: seq<seq<T>>): seq<T> {
    if parts == [] then [] else parts[0] + Concat(parts[1..])
  }

  /** `part` is a contiguous run of `whole`. */
  predicate IsInfix<T(==)>(part: seq<T>, whole: seq<T>) {
    exists lo, hi :: 0 <= lo <= hi <= |whole| && part == whole[lo..hi]
  }

  lemma {:induction false} ConcatAppend<T>(a: seq<seq<T>>, b: seq<seq<T>>)
    ensures Concat(a + b) == Concat(a) + Concat(b)
  {
    if a == [] {
      assert a + b == b;
    } else {
      assert (a + b)[1..] == a[1..] + b;
      ConcatAppend(a[1..], b);
    }
  }

  /** When no part is empty, there are at most as many parts as elements. */
  lemma {:induction false} ConcatCountsParts<T>(parts: seq<seq<T>>)
    requires forall p :: p in parts ==> p != []
    ensures |parts| <= |Concat(parts)|
  {
    if parts != [] {
      assert parts[0] in parts;
      assert forall p :: p in parts[1..] ==> p in parts;
      ConcatCountsParts(parts[1..]);
    }
  }
}
