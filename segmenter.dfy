/**
 * Cutting the flattened item sequence into segments at page-break items.
 * Page breaks belong to no segment and to no response list; empty segments
 * are discarded.
 */
module Segmenter {
  import opened Wrappers
  import opened Seqs
  import opened SurveyItems

  /** An item is a page break exactly when it is a single item typed `pageBreak`. */
  predicate IsPageBreak(item: SurveyItem) {
    item.SingleItem? && item.itemType == Some(PageBreakType)
  }

  /** The page-break items of `xs`, in order. */
  function Breaks(xs: seq<SurveyItem>): seq<SurveyItem> {
    if xs == [] then [] else (if IsPageBreak(xs[0]) then [xs[0]] else []) + Breaks(xs[1..])
  }

  /** The keys of the page-break items of `xs`. */
  function BreakKeys(xs: seq<SurveyItem>): set<string> {
    set x | x in xs && IsPageBreak(x) :: x.key
  }

  /** The answerable (non-page-break) items of `xs`, in order. */
  function Responses(xs: seq<SurveyItem>): (r: seq<SurveyItem>)
    ensures |r| <= |xs|
    ensures forall x :: x in r <==> x in xs && !IsPageBreak(x)
  {
    if xs == [] then []
    else
      var rest := Responses(xs[1..]);
      assert forall x :: x in xs <==> x == xs[0] || x in xs[1..];
      (if IsPageBreak(xs[0]) then [] else [xs[0]]) + rest
  }

  /** Every item is either a response or a page break. */
  lemma {:induction false} ResponsesCount(xs: seq<SurveyItem>)
    ensures |Responses(xs)| + |Breaks(xs)| == |xs|
  {
    if xs != [] {
      ResponsesCount(xs[1..]);
    }
  }

  /** Taking responses keeps keys apart: no two responses share a key. */
  lemma {:induction false} ResponsesKeepDistinctKeys(xs: seq<SurveyItem>)
    requires DistinctItemKeys(xs)
    ensures DistinctItemKeys(Responses(xs))
  {
    if xs != [] {
      var tail := xs[1..];
      var head := if IsPageBreak(xs[0]) then [] else [xs[0]];
      assert DistinctItemKeys(tail) by {
        forall i, j | 0 <= i < j < |tail|
          ensures tail[i].key != tail[j].key
        {
          assert tail[i] == xs[i + 1] && tail[j] == xs[j + 1];
        }
      }
      forall y | y in tail
        ensures y.key != xs[0].key
      {
        var j :| 0 <= j < |tail| && tail[j] == y;
        assert xs[j + 1] == y;
      }
      ResponsesKeepDistinctKeys(tail);
      DistinctItemKeysJoin(head, Responses(tail));
    }
  }

  /** Taking responses distributes over concatenation. */
  lemma {:induction false} ResponsesAppend(a: seq<SurveyItem>, b: seq<SurveyItem>)
    ensures Responses(a + b) == Responses(a) + Responses(b)
  {
    if a == [] {
      assert a + b == b;
    } else {
      var ab := a + b;
      assert ab[0] == a[0] && ab[1..] == a[1..] + b;
      ResponsesAppend(a[1..], b);
      var head := if IsPageBreak(a[0]) then [] else [a[0]];
      calc {
        Responses(ab);
        head + Responses(a[1..] + b);
        head + (Responses(a[1..]) + Responses(b));
        (head + Responses(a[1..])) + Responses(b);
      }
    }
  }

  /**
   * The maximal runs of answerable items between page breaks (and the ends
   * of `xs`), empty runs included: a boundary follows every page break.
   */
  function SplitAtBreaks(xs: seq<SurveyItem>): (r: seq<seq<SurveyItem>>)
    ensures |r| >= 1
  {
    if xs == [] then [[]]
    else
      var rest := SplitAtBreaks(xs[1..]);
      if IsPageBreak(xs[0]) then [[]] + rest
      else [[xs[0]] + rest[0]] + rest[1..]
  }

  /** The parts of `ss` that are not empty, in order. */
  function NonEmpty<T>(ss: seq<seq<T>>): seq<seq<T>> {
    if ss == [] then []
    else (if ss[0] == [] then [] else [ss[0]]) + NonEmpty(ss[1..])
  }

  /** The segments of `xs`: its runs between page breaks, empty runs dropped. */
  function Segment(xs: seq<SurveyItem>): (r: seq<seq<SurveyItem>>)
    ensures forall s :: s in r ==> s != []
  {
    NonEmptyConcat(SplitAtBreaks(xs));
    NonEmpty(SplitAtBreaks(xs))
  }

  /**
   * `segs` joined with the page breaks `seps` put back between consecutive
   * runs.
   */
  function Interleave(segs: seq<seq<SurveyItem>>, seps: seq<SurveyItem>): seq<SurveyItem>
    requires |segs| == |seps| + 1
  {
    if seps == [] then segs[0]
    else segs[0] + [seps[0]] + Interleave(segs[1..], seps[1..])
  }

  /** The runs hold exactly the answerable items, in order. */
  lemma {:induction false} SplitCoversResponses(xs: seq<SurveyItem>)
    ensures Concat(SplitAtBreaks(xs)) == Responses(xs)
  {
    if xs != [] {
      var rest := SplitAtBreaks(xs[1..]);
      SplitCoversResponses(xs[1..]);
      if IsPageBreak(xs[0]) {
        assert ([[]] + rest)[1..] == rest;
      } else {
        var r := [[xs[0]] + rest[0]] + rest[1..];
        assert r[1..] == rest[1..];
        assert Concat(rest) == rest[0] + Concat(rest[1..]);
      }
    }
  }

  /**
   * Cutting loses nothing but the boundaries: putting the page breaks back
   * between the runs gives `xs` again.
   */
  lemma {:induction false} SplitRoundTrip(xs: seq<SurveyItem>)
    ensures |SplitAtBreaks(xs)| == |Breaks(xs)| + 1
    ensures Interleave(SplitAtBreaks(xs), Breaks(xs)) == xs
  {
    if xs != [] {
      var tail := xs[1..];
      var rest := SplitAtBreaks(tail);
      SplitRoundTrip(tail);
      if IsPageBreak(xs[0]) {
        var segs := [[]] + rest;
        var seps := [xs[0]] + Breaks(tail);
        assert SplitAtBreaks(xs) == segs && Breaks(xs) == seps;
        assert segs[1..] == rest && seps[1..] == Breaks(tail);
        assert xs == [] + [xs[0]] + tail;
      } else {
        var segs := [[xs[0]] + rest[0]] + rest[1..];
        assert SplitAtBreaks(xs) == segs && Breaks(xs) == Breaks(tail);
        if Breaks(tail) == [] {
          assert xs == [xs[0]] + tail;
        } else {
          var seps := Breaks(tail);
          assert segs[1..] == rest[1..];
          assert Interleave(segs, seps) == ([xs[0]] + rest[0]) + [seps[0]] + Interleave(rest[1..], seps[1..]);
          assert xs == [xs[0]] + tail;
        }
      }
    }
  }

  /** No run holds a page break. */
  lemma {:induction false} SplitHasNoBreaks(xs: seq<SurveyItem>)
    ensures forall s, x :: s in SplitAtBreaks(xs) && x in s ==> !IsPageBreak(x)
  {
    if xs != [] {
      SplitHasNoBreaks(xs[1..]);
      var rest := SplitAtBreaks(xs[1..]);
      if !IsPageBreak(xs[0]) {
        assert rest[0] in rest;
        assert forall s :: s in rest[1..] ==> s in rest;
      }
    }
  }

  /** Dropping empty parts keeps the items and their order. */
  lemma {:induction false} NonEmptyConcat<T>(ss: seq<seq<T>>)
    ensures Concat(NonEmpty(ss)) == Concat(ss)
    ensures forall s :: s in NonEmpty(ss) <==> s in ss && s != []
  {
    if ss != [] {
      NonEmptyConcat(ss[1..]);
      var head := if ss[0] == [] then [] else [ss[0]];
      ConcatAppend(head, NonEmpty(ss[1..]));
      assert forall s :: s in ss <==> s == ss[0] || s in ss[1..];
      if ss[0] != [] {
        assert Concat(head) == ss[0] + Concat([]);
      }
    }
  }

  /**
   * The segments are non-empty, hold no page break, and together hold exactly
   * the answerable items in order; there is at most one more segment than
   * there are page breaks.  The segments are exactly the non-empty runs
   * between page breaks.
   */
  lemma SegmentShape(xs: seq<SurveyItem>)
    ensures forall s :: s in Segment(xs) <==> s in SplitAtBreaks(xs) && s != []
    ensures Concat(Segment(xs)) == Responses(xs)
    ensures forall s :: s in Segment(xs) ==> s != []
    ensures forall s, x :: s in Segment(xs) && x in s ==> !IsPageBreak(x)
    ensures |Segment(xs)| <= |Breaks(xs)| + 1
  {
    SplitCoversResponses(xs);
    SplitHasNoBreaks(xs);
    NonEmptyConcat(SplitAtBreaks(xs));
    NonEmptyLength(SplitAtBreaks(xs));
    SplitRoundTrip(xs);
  }

  lemma {:induction false} NonEmptyLength<T>(ss: seq<seq<T>>)
    ensures |NonEmpty(ss)| <= |ss|
  {
    if ss != [] {
      NonEmptyLength(ss[1..]);
    }
  }

  /** A sequence made only of page breaks has no segment and no response. */
  lemma OnlyBreaks(xs: seq<SurveyItem>)
    requires forall x :: x in xs ==> IsPageBreak(x)
    ensures Segment(xs) == []
    ensures Responses(xs) == []
  {
    assert forall x :: x !in Responses(xs);
    SegmentShape(xs);
    ConcatCountsParts(Segment(xs));
  }

  /** A non-empty sequence with no page break is one whole segment. */
  lemma NoBreaks(xs: seq<SurveyItem>)
    requires xs != []
    requires forall x :: x in xs ==> !IsPageBreak(x)
    ensures Segment(xs) == [xs]
  {
    NoBreaksSplit(xs);
    assert NonEmpty([xs]) == [xs] + NonEmpty([xs][1..]);
  }

  lemma {:induction false} NoBreaksSplit(xs: seq<SurveyItem>)
    requires forall x :: x in xs ==> !IsPageBreak(x)
    ensures SplitAtBreaks(xs) == [xs]
  {
    if xs != [] {
      assert xs[0] in xs;
      NoBreaksSplit(xs[1..]);
      assert [xs[0]] + xs[1..] == xs;
    }
  }

  /** A page break closes the run of answerable items before it. */
  lemma {:induction false} SplitAfterRun(run: seq<SurveyItem>, brk: SurveyItem, rest: seq<SurveyItem>)
    requires forall x :: x in run ==> !IsPageBreak(x)
    requires IsPageBreak(brk)
    ensures SplitAtBreaks(run + [brk] + rest) == [run] + SplitAtBreaks(rest)
  {
    var xs := run + [brk] + rest;
    if run == [] {
      assert xs == [brk] + rest;
    } else {
      assert run[0] in run;
      assert xs[0] == run[0] && xs[1..] == run[1..] + [brk] + rest;
      SplitAfterRun(run[1..], brk, rest);
      assert [run[0]] + run[1..] == run;
    }
  }

  /** A non-empty run followed by a page break is a segment of its own. */
  lemma SegmentAfterRun(run: seq<SurveyItem>, brk: SurveyItem, rest: seq<SurveyItem>)
    requires run != []
    requires forall x :: x in run ==> !IsPageBreak(x)
    requires IsPageBreak(brk)
    ensures Segment(run + [brk] + rest) == [run] + Segment(rest)
  {
    SplitAfterRun(run, brk, rest);
    var ss := [run] + SplitAtBreaks(rest);
    assert ss[1..] == SplitAtBreaks(rest);
  }

  /** A prefix of a sequence whose dependencies point backwards keeps that property. */
  lemma PredecessorsEarlierPrefix(xs: seq<SurveyItem>, n: nat, allowed: set<string>)
    requires n <= |xs|
    requires PredecessorsEarlier(xs, allowed)
    ensures PredecessorsEarlier(xs[..n], allowed)
  {
  }

  /** Some item of `s` has key `k`. */
  predicate HasKey(s: seq<SurveyItem>, k: string) {
    exists j :: 0 <= j < |s| && s[j].key == k
  }

  /** An earlier item's key is an earlier response's key or a page break's key. */
  lemma EarlierKey(xs: seq<SurveyItem>, j: nat)
    requires j < |xs|
    ensures xs[j].key in BreakKeys(xs) || HasKey(Responses(xs), xs[j].key)
  {
  }

  /**
   * Appending an item whose named predecessors are allowed or already present
   * keeps dependencies pointing backwards, also under a larger allowed set.
   */
  lemma PredecessorsEarlierExtend(s: seq<SurveyItem>, last: SurveyItem, allowed: set<string>, wider: set<string>)
    requires allowed <= wider
    requires PredecessorsEarlier(s, allowed)
    requires forall k :: k in last.follows ==> k in wider || HasKey(s, k)
    ensures PredecessorsEarlier(s + [last], wider)
  {
    var t := s + [last];
    forall i, k | 0 <= i < |t| && k in t[i].follows
      ensures k in wider || exists j :: 0 <= j < i && t[j].key == k
    {
      if i < |s| {
        assert t[i] == s[i];
        if k !in allowed {
          var j :| 0 <= j < i && s[j].key == k;
          assert t[j] == s[j];
        }
      } else if k !in wider {
        var j :| 0 <= j < |s| && s[j].key == k;
        assert t[j] == s[j];
      }
    }
  }

  /** Widening the allowed set keeps dependencies pointing backwards. */
  lemma PredecessorsEarlierWiden(s: seq<SurveyItem>, allowed: set<string>, wider: set<string>)
    requires allowed <= wider
    requires PredecessorsEarlier(s, allowed)
    ensures PredecessorsEarlier(s, wider)
  {
  }

  /**
   * The predecessors named by `last`, appended to `init`, are allowed, page
   * breaks, or responses among the items of `init`.
   */
  lemma LastPredecessors(init: seq<SurveyItem>, last: SurveyItem, allowed: set<string>)
    requires PredecessorsEarlier(init + [last], allowed)
    ensures forall k :: k in last.follows ==> k in allowed + BreakKeys(init) || HasKey(Responses(init), k)
  {
    var xs := init + [last];
    forall k | k in last.follows
      ensures k in allowed + BreakKeys(init) || HasKey(Responses(init), k)
    {
      assert xs[|init|] == last;
      if k !in allowed {
        var j :| 0 <= j < |init| && xs[j].key == k;
        assert init[j] == xs[j];
        EarlierKey(init, j);
      }
    }
  }

  /** One more item keeps the dependencies of the responses pointing backwards. */
  lemma ResponsesKeepPredecessorsStep(init: seq<SurveyItem>, last: SurveyItem, allowed: set<string>)
    requires PredecessorsEarlier(init + [last], allowed)
    requires PredecessorsEarlier(Responses(init), allowed + BreakKeys(init))
    ensures PredecessorsEarlier(Responses(init + [last]), allowed + BreakKeys(init + [last]))
  {
    var r0 := Responses(init);
    var wider := allowed + BreakKeys(init + [last]);
    BreakKeysAppend(init, last);
    ResponsesAppend(init, [last]);
    assert Responses([last]) == (if IsPageBreak(last) then [] else [last]) + Responses([]);
    if IsPageBreak(last) {
      assert Responses(init + [last]) == r0;
      PredecessorsEarlierWiden(r0, allowed + BreakKeys(init), wider);
    } else {
      assert Responses(init + [last]) == r0 + [last];
      LastPredecessors(init, last, allowed);
      PredecessorsEarlierExtend(r0, last, allowed + BreakKeys(init), wider);
    }
  }

  /**
   * Taking responses keeps declared dependencies: a `follows` entry of a
   * response that named an earlier item names an earlier response or a page
   * break.
   */
  lemma {:induction false} ResponsesKeepPredecessors(xs: seq<SurveyItem>, allowed: set<string>)
    requires PredecessorsEarlier(xs, allowed)
    ensures PredecessorsEarlier(Responses(xs), allowed + BreakKeys(xs))
    decreases |xs|
  {
    if xs != [] {
      var n := |xs| - 1;
      PredecessorsEarlierPrefix(xs, n, allowed);
      ResponsesKeepPredecessors(xs[..n], allowed);
      assert xs == xs[..n] + [xs[n]];
      ResponsesKeepPredecessorsStep(xs[..n], xs[n], allowed);
    }
  }

  lemma BreakKeysAppend(init: seq<SurveyItem>, last: SurveyItem)
    ensures BreakKeys(init) <= BreakKeys(init + [last])
  {
  }
}
