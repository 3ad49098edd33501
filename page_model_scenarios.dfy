/**
 * The scenarios of the page-model tests, each on a fresh survey: an engine is
 * built from the survey and its pages and responses are queried.  The
 * lemmas state each scenario for any survey of the scenario's shape; the
 * methods build the tests' own surveys and query an engine.
 */
module PageModelScenarios {
  import opened Wrappers
  import opened Seqs
  import opened SurveyItems
  import opened Segmenter
  import opened Paginator
  import opened Engine

  /** A plain single item of version 1. */
  function Plain(key: string, follows: seq<string>): SurveyItem {
    SingleItem(key, 1, None, follows)
  }

  /** A page-break item of version 1. */
  function Break(key: string, follows: seq<string>): SurveyItem {
    SingleItem(key, 1, Some(PageBreakType), follows)
  }

  /** The keys `root.1` .. `root.10` of the test definitions, in declared order. */
  const TenKeys: seq<string> :=
    ["root.1", "root.2", "root.3", "root.4", "root.5",
     "root.6", "root.7", "root.8", "root.9", "root.10"]

  /** Ten plain items `root.1` .. `root.10` under the root group. */
  function TenPlainItems(): SurveyGroupItem {
    GroupItem("root", 0, seq(10, i requires 0 <= i < 10 => Plain(TenKeys[i], [])), [])
  }

  /** Ten page-break items `root.1` .. `root.10` under the root group. */
  function TenPageBreaks(): SurveyGroupItem {
    GroupItem("root", 0, seq(10, i requires 0 <= i < 10 => Break(TenKeys[i], [])), [])
  }

  /** The key item `i` of the chained definition follows: the root, then its predecessor. */
  function ChainedFollows(i: nat): string
    requires i < 10
  {
    if i == 0 then "root" else TenKeys[i - 1]
  }

  /**
   * Ten items chained by `follows` in declared order, with page breaks at
   * positions 6 and 9.
   */
  function BreaksAtSixAndNine(): SurveyGroupItem {
    GroupItem("root", 0, seq(10, i requires 0 <= i < 10 =>
      if i == 5 || i == 8 then Break(TenKeys[i], [ChainedFollows(i)])
      else Plain(TenKeys[i], [ChainedFollows(i)])), [])
  }

  function Configured(definition: SurveyGroupItem, large: PageSize, small: PageSize): Survey {
    Survey(SurveyVersion(definition), Some(PageSizeConfig(large, small)))
  }

  function Unconfigured(definition: SurveyGroupItem): Survey {
    Survey(SurveyVersion(definition), None)
  }

  /** Ten items, none of them a page break. */
  predicate TenPlain(flat: seq<SurveyItem>) {
    |flat| == 10 && forall x :: x in flat ==> !IsPageBreak(x)
  }

  /** Ten items with page breaks exactly at positions 6 and 9. */
  predicate BreaksAtPositionsSixAndNine(flat: seq<SurveyItem>) {
    && |flat| == 10
    && IsPageBreak(flat[5]) && IsPageBreak(flat[8])
    && forall i :: 0 <= i < 10 && i != 5 && i != 8 ==> !IsPageBreak(flat[i])
  }

  lemma TenPlainItemsShape()
    ensures TenPlain(Flatten(TenPlainItems()))
  {
    FlattenPlain(TenPlainItems().items);
  }

  lemma TenPageBreaksShape()
    ensures forall x :: x in Flatten(TenPageBreaks()) ==> IsPageBreak(x)
  {
    FlattenPlain(TenPageBreaks().items);
  }

  lemma BreaksAtSixAndNineShape()
    ensures BreaksAtPositionsSixAndNine(Flatten(BreaksAtSixAndNine()))
  {
    FlattenPlain(BreaksAtSixAndNine().items);
  }

  /** The `follows` chain of the definition with breaks at six and nine is well formed. */
  lemma BreaksAtSixAndNineWellFormed()
    ensures WellFormed(BreaksAtSixAndNine())
  {
    FlattenPlain(BreaksAtSixAndNine().items);
    BreaksAtSixAndNineChain();
    BreaksAtSixAndNineKeys();
    KeysDistinct();
  }

  /** Each item of the chained definition follows the root or the item before it. */
  lemma BreaksAtSixAndNineChain()
    ensures var items := BreaksAtSixAndNine().items;
      items[0].follows == ["root"] && forall i :: 0 < i < 10 ==> items[i].follows == [items[i - 1].key]
    ensures PredecessorsEarlier(BreaksAtSixAndNine().items, {"root"})
  {
    var items := BreaksAtSixAndNine().items;
    assert forall i :: 0 <= i < 10 ==> items[i].key == TenKeys[i];
    forall i, k | 0 <= i < |items| && k in items[i].follows
      ensures k in {"root"} || exists j :: 0 <= j < i && items[j].key == k
    {
      assert k == ChainedFollows(i);
      if i > 0 {
        assert items[i - 1].key == k;
      }
    }
  }

  /** The chained definition's keys: the root, then `root.1` .. `root.10`. */
  lemma BreaksAtSixAndNineKeys()
    ensures Keys(BreaksAtSixAndNine()) == ["root"] + TenKeys
  {
    var items := BreaksAtSixAndNine().items;
    KeysPlain(items);
    assert seq(|items|, i requires 0 <= i < |items| => items[i].key) == TenKeys;
  }

  lemma KeysDistinct()
    ensures Distinct(["root"] + TenKeys)
  {
  }

  /**
   * One item per page: as many pages as responses, each holding one item.
   */
  lemma OneItemPerPage(survey: Survey, c: PageSizeClass)
    requires survey.maxItemsPerPage.Some? && survey.maxItemsPerPage.value.MaxFor(c) == 1
    ensures |SurveyPages(survey, c)| == |SurveyResponses(survey)|
    ensures forall p :: p in SurveyPages(survey, c) ==> |p| == 1
  {
    var pages := SurveyPages(survey, c);
    PageBounds(survey, c);
    PagesCoverResponses(survey, c);
    forall p | p in pages
      ensures |p| == 1
    {
    }
    SingletonParts(pages);
  }

  lemma {:induction false} SingletonParts<T>(parts: seq<seq<T>>)
    requires forall p :: p in parts ==> |p| == 1
    ensures |Concat(parts)| == |parts|
  {
    if parts != [] {
      assert parts[0] in parts;
      assert forall p :: p in parts[1..] ==> p in parts;
      SingletonParts(parts[1..]);
    }
  }

  /** Ten plain items with a maximum of one: ten pages of one item. */
  lemma TenItemsOneByOne(survey: Survey, c: PageSizeClass)
    requires survey.maxItemsPerPage.Some? && survey.maxItemsPerPage.value.MaxFor(c) == 1
    requires TenPlain(FlatItems(survey))
    ensures |SurveyPages(survey, c)| == 10
    ensures forall p :: p in SurveyPages(survey, c) ==> |p| == 1
  {
    PlainSurveyPages(survey, c);
    assert CeilDiv(10, 1) == 10;
    OneItemPerPage(survey, c);
  }

  /** Ten plain items with a maximum of four: three pages, of four or two items. */
  lemma TenItemsByFour(survey: Survey, c: PageSizeClass)
    requires survey.maxItemsPerPage.Some? && survey.maxItemsPerPage.value.MaxFor(c) == 4
    requires TenPlain(FlatItems(survey))
    ensures var flat := FlatItems(survey);
      SurveyPages(survey, c) == [flat[..4], flat[4..8], flat[8..]]
    ensures |SurveyPages(survey, c)| == 3
    ensures var pages := SurveyPages(survey, c);
      |pages[0]| == 4 && |pages[1]| == 4 && |pages[2]| == 2
    ensures forall p :: p in SurveyPages(survey, c) ==> |p| == 4 || |p| == 2
  {
    var flat := FlatItems(survey);
    PlainSurveyPages(survey, c);
    assert SurveyPages(survey, c) == Chunk(flat, 4) by {
      NoBreaks(flat);
      assert ChunkAll([flat], 4) == Chunk(flat, 4) + ChunkAll([], 4);
    }
    var b := flat[4..];
    assert flat[4..8] == b[..4] && flat[8..] == b[4..];
    assert Chunk(b[4..], 4) == [b[4..]];
    assert Chunk(b, 4) == [flat[4..8]] + Chunk(b[4..], 4);
    assert Chunk(flat, 4) == [flat[..4]] + Chunk(b, 4);
  }

  /** Ten plain items with a maximum of two: five pages. */
  lemma TenItemsByTwo(survey: Survey, c: PageSizeClass)
    requires survey.maxItemsPerPage.Some? && survey.maxItemsPerPage.value.MaxFor(c) == 2
    requires TenPlain(FlatItems(survey))
    ensures |SurveyPages(survey, c)| == 5
  {
    PlainSurveyPages(survey, c);
    assert CeilDiv(10, 2) == 5;
  }

  /** Ten plain items with a maximum of ten or more: one page. */
  lemma TenItemsFitOnePage(survey: Survey, c: PageSizeClass)
    requires survey.maxItemsPerPage.Some? && survey.maxItemsPerPage.value.MaxFor(c) >= 10
    requires TenPlain(FlatItems(survey))
    ensures |SurveyPages(survey, c)| == 1
  {
    PlainSurveyPages(survey, c);
  }

  /** Page breaks at positions 6 and 9 give segments of 5, 2 and 1 items. */
  lemma SegmentsAroundBreaks(flat: seq<SurveyItem>)
    requires BreaksAtPositionsSixAndNine(flat)
    ensures Segment(flat) == [flat[..5], flat[6..8], flat[9..]]
  {
    var a, c, d := flat[..5], flat[6..8], flat[9..];
    assert flat == a + [flat[5]] + (c + [flat[8]] + d);
    assert c + [flat[8]] + d == flat[6..];
    forall x | x in a ensures !IsPageBreak(x) {
      var i :| 0 <= i < 5 && a[i] == x;
      assert flat[i] == x;
    }
    forall x | x in c ensures !IsPageBreak(x) {
      var i :| 0 <= i < 2 && c[i] == x;
      assert flat[6 + i] == x;
    }
    forall x | x in d ensures !IsPageBreak(x) {
      assert d == [flat[9]];
    }
    NoBreaks(d);
    SegmentAfterRun(c, flat[8], d);
    SegmentAfterRun(a, flat[5], c + [flat[8]] + d);
  }

  lemma ThreeParts<T>(a: seq<T>, b: seq<T>, c: seq<T>)
    ensures Concat([a, b, c]) == a + b + c
  {
    assert [a, b, c][1..] == [b, c];
    assert [b, c][1..] == [c];
    assert [c][1..] == [];
    assert Concat([c]) == c + Concat([]);
    assert Concat([b, c]) == b + Concat([c]);
    assert Concat([a, b, c]) == a + Concat([b, c]);
  }

  /** Breaks at six and nine without a maximum: three pages and eight responses. */
  lemma BreaksUnbounded(survey: Survey, c: PageSizeClass)
    requires survey.maxItemsPerPage.None?
    requires BreaksAtPositionsSixAndNine(FlatItems(survey))
    ensures |SurveyPages(survey, c)| == 3
    ensures |SurveyResponses(survey)| == 8
  {
    var flat := FlatItems(survey);
    SegmentsAroundBreaks(flat);
    PagesCoverResponses(survey, c);
    ThreeParts(flat[..5], flat[6..8], flat[9..]);
  }

  /** Breaks at six and nine, one item per page: eight pages and eight responses. */
  lemma BreaksOnePerPage(survey: Survey, c: PageSizeClass)
    requires survey.maxItemsPerPage.Some? && survey.maxItemsPerPage.value.MaxFor(c) == 1
    requires BreaksAtPositionsSixAndNine(FlatItems(survey))
    ensures |SurveyPages(survey, c)| == 8
    ensures |SurveyResponses(survey)| == 8
  {
    var flat := FlatItems(survey);
    SegmentsAroundBreaks(flat);
    PagesCoverResponses(survey, c);
    OneItemPerPage(survey, c);
    SegmentShape(flat);
    ThreeParts(flat[..5], flat[6..8], flat[9..]);
  }

  /**
   * Breaks at six and nine, four items per page: four pages, the first
   * segment split into four items and one, the other two whole.
   */
  lemma BreaksFourPerPage(survey: Survey, c: PageSizeClass)
    requires survey.maxItemsPerPage.Some? && survey.maxItemsPerPage.value.MaxFor(c) == 4
    requires BreaksAtPositionsSixAndNine(FlatItems(survey))
    ensures var flat := FlatItems(survey);
      SurveyPages(survey, c) == [flat[..4], flat[4..5], flat[6..8], flat[9..]]
    ensures |SurveyPages(survey, c)| == 4
    ensures var pages := SurveyPages(survey, c);
      |pages[0]| == 4 && |pages[1]| == 1 && |pages[2]| == 2 && |pages[3]| == 1
  {
    var flat := FlatItems(survey);
    var segs := SurveySegments(survey);
    SegmentsAroundBreaks(flat);
    var a, b, d := flat[..5], flat[6..8], flat[9..];
    assert segs == [a, b, d];
    assert a[..4] == flat[..4] && a[4..] == flat[4..5];
    assert Chunk(a, 4) == [flat[..4]] + Chunk(flat[4..5], 4);
    assert Chunk(a, 4) == [flat[..4], flat[4..5]];
    assert Chunk(b, 4) == [b] && Chunk(d, 4) == [d];
    assert segs[1..] == [b, d] && segs[1..][1..] == [d] && [d][1..] == [];
    assert ChunkAll([d], 4) == [d];
    assert ChunkAll([b, d], 4) == [b, d];
  }

  /** 'max one item': ten pages of one item each. */
  method MaxOneItem() returns (pages: seq<Page>)
    ensures |pages| == 10
    ensures forall p :: p in pages ==> |p| == 1
  {
    var engine := new SurveyEngineCore(Configured(TenPlainItems(), 1, 1));
    pages := engine.GetSurveyPages(None);
    TenPlainItemsShape();
    TenItemsOneByOne(engine.survey, Large);
  }

  /** 'max four items': three pages, of four or two items. */
  method MaxFourItems() returns (pages: seq<Page>)
    ensures |pages| == 3
    ensures |pages[0]| == 4 && |pages[1]| == 4 && |pages[2]| == 2
    ensures forall p :: p in pages ==> |p| == 4 || |p| == 2
  {
    var engine := new SurveyEngineCore(Configured(TenPlainItems(), 4, 4));
    pages := engine.GetSurveyPages(None);
    TenPlainItemsShape();
    TenItemsByFour(engine.survey, Large);
  }

  /** 'different large and small setting': three large pages, five small ones. */
  method DifferentLargeAndSmall() returns (pagesL: seq<Page>, pagesS: seq<Page>)
    ensures |pagesL| == 3
    ensures |pagesS| == 5
  {
    var engine := new SurveyEngineCore(Configured(TenPlainItems(), 4, 2));
    pagesL := engine.GetSurveyPages(Some(Large));
    pagesS := engine.GetSurveyPages(Some(Small));
    TenPlainItemsShape();
    TenItemsByFour(engine.survey, Large);
    TenItemsByTwo(engine.survey, Small);
  }

  /** 'more than survey items present': one page for each class. */
  method MoreThanSurveyItems() returns (pagesL: seq<Page>, pagesS: seq<Page>)
    ensures |pagesL| == 1
    ensures |pagesS| == 1
  {
    var engine := new SurveyEngineCore(Configured(TenPlainItems(), 41, 22));
    pagesL := engine.GetSurveyPages(Some(Large));
    pagesS := engine.GetSurveyPages(Some(Small));
    TenPlainItemsShape();
    TenItemsFitOnePage(engine.survey, Large);
    TenItemsFitOnePage(engine.survey, Small);
  }

  /** 'page break item after each other': no page and no response. */
  method PageBreaksAfterEachOther() returns (pages: seq<Page>, responses: seq<SurveyItem>)
    ensures |pages| == 0
    ensures |responses| == 0
  {
    var engine := new SurveyEngineCore(Unconfigured(TenPageBreaks()));
    pages := engine.GetSurveyPages(None);
    responses := engine.GetResponses();
    TenPageBreaksShape();
    OnlyBreaksSurvey(engine.survey, Large);
  }

  /** 'page break item typical usecase': three pages and eight responses. */
  method PageBreakTypicalUseCase() returns (pages: seq<Page>, responses: seq<SurveyItem>)
    ensures |pages| == 3
    ensures |responses| == 8
  {
    var engine := new SurveyEngineCore(Unconfigured(BreaksAtSixAndNine()));
    pages := engine.GetSurveyPages(None);
    responses := engine.GetResponses();
    BreaksAtSixAndNineShape();
    BreaksUnbounded(engine.survey, Large);
  }

  /** 'max one item per page together with pagebreaks': eight pages and eight responses. */
  method MaxOneItemWithPageBreaks() returns (pages: seq<Page>, responses: seq<SurveyItem>)
    ensures |pages| == 8
    ensures |responses| == 8
  {
    var engine := new SurveyEngineCore(Configured(BreaksAtSixAndNine(), 1, 1));
    pages := engine.GetSurveyPages(None);
    responses := engine.GetResponses();
    BreaksAtSixAndNineShape();
    BreaksOnePerPage(engine.survey, Large);
  }

  /** 'max four items per page together with pagebreak': four pages. */
  method MaxFourItemsWithPageBreaks() returns (pages: seq<Page>)
    ensures |pages| == 4
    ensures |pages[0]| == 4 && |pages[1]| == 1 && |pages[2]| == 2 && |pages[3]| == 1
  {
    var engine := new SurveyEngineCore(Configured(BreaksAtSixAndNine(), 4, 4));
    pages := engine.GetSurveyPages(None);
    BreaksAtSixAndNineShape();
    BreaksFourPerPage(engine.survey, Large);
  }

  /**
   * One engine queried repeatedly, as in 'different large and small
   * setting': the same class gives equal pages each time, and the two
   * classes group the same items in the same order.
   */
  method RepeatedQueries(survey: Survey) returns (first: seq<Page>, again: seq<Page>, small: seq<Page>)
    ensures first == again
    ensures Concat(first) == Concat(small) == SurveyResponses(survey)
  {
    var engine := new SurveyEngineCore(survey);
    first := engine.GetSurveyPages(Some(Large));
    again := engine.GetSurveyPages(Some(Large));
    small := engine.GetSurveyPages(Some(Small));
  }
}
