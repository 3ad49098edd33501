/**
 * The survey engine core: built once from a survey, it answers which pages a
 * viewport class sees and which items need a response.
 */
module Engine {
  import opened Wrappers
  import opened Seqs
  import opened SurveyItems
  import opened Segmenter
  import opened Paginator

  /** The viewport classes a page-size configuration provides for. */
  datatype PageSizeClass = Large | Small

  /** The class used when `getSurveyPages` is called without one. */
  const DefaultPageSizeClass: PageSizeClass := Large

  /** A maximum number of items per page; never less than one. */
  type PageSize = m: int | 1 <= m witness 1

  /** The maximum number of items per page for each viewport class. */
  datatype PageSizeConfig = PageSizeConfig(large: PageSize, small: PageSize) {

    /** The maximum for viewport class `c`. */
    function MaxFor(c: PageSizeClass): PageSize {
      match c
      case Large => large
      case Small => small
    }
  }

  /** The current revision of a survey. */
  datatype SurveyVersion = SurveyVersion(surveyDefinition: SurveyGroupItem)

  /** A survey: its current revision and an optional page-size configuration. */
  datatype Survey = Survey(current: SurveyVersion, maxItemsPerPage: Option<PageSizeConfig>)

  /** A page: the answerable items shown together. */
  type Page = seq<SurveyItem>

  /** The definition's single items in declared order, page breaks included. */
  function FlatItems(survey: Survey): seq<SurveyItem> {
    Flatten(survey.current.surveyDefinition)
  }

  /** The segments of the survey: its runs of answerable items between page breaks. */
  function SurveySegments(survey: Survey): seq<seq<SurveyItem>> {
    Segment(FlatItems(survey))
  }

  /** The items that need a response, in order. */
  function SurveyResponses(survey: Survey): (r: seq<SurveyItem>)
    ensures forall x :: x in r <==> x in FlatItems(survey) && !IsPageBreak(x)
  {
    Responses(FlatItems(survey))
  }

  /**
   * The pages viewport class `c` sees: each segment is chunked by the class's
   * maximum, or is one whole page when the survey has no configuration.
   */
  function SurveyPages(survey: Survey, c: PageSizeClass): (r: seq<Page>)
    ensures forall p :: p in r ==> p != []
    ensures survey.maxItemsPerPage.Some? ==>
      forall p :: p in r ==> |p| <= survey.maxItemsPerPage.value.MaxFor(c)
  {
    match survey.maxItemsPerPage
    case None => SurveySegments(survey)
    case Some(config) =>
      ChunkAllShape(SurveySegments(survey), config.MaxFor(c));
      ChunkAll(SurveySegments(survey), config.MaxFor(c))
  }

  /**
   * For every class the pages, read in order, are exactly the responses; no
   * page is empty and none holds a page break.
   */
  lemma PagesCoverResponses(survey: Survey, c: PageSizeClass)
    ensures Concat(SurveyPages(survey, c)) == SurveyResponses(survey)
    ensures forall p :: p in SurveyPages(survey, c) ==> p != []
    ensures forall p, x :: p in SurveyPages(survey, c) && x in p ==> !IsPageBreak(x)
  {
    var segs := SurveySegments(survey);
    SegmentShape(FlatItems(survey));
    match survey.maxItemsPerPage
    case None =>
    case Some(config) =>
      var m := config.MaxFor(c);
      ChunkAllConcat(segs, m);
      ChunkAllShape(segs, m);
      forall p, x | p in SurveyPages(survey, c) && x in p
        ensures !IsPageBreak(x)
      {
        var s :| s in segs && IsInfix(p, s);
        var lo, hi :| 0 <= lo <= hi <= |s| && p == s[lo..hi];
        assert x in s;
      }
  }

  /**
   * Viewport classes differ only in grouping: both see the same items in the
   * same order, so the page lengths of either add up to the response count.
   */
  lemma ClassesAgreeOnItems(survey: Survey)
    ensures Concat(SurveyPages(survey, Large)) == Concat(SurveyPages(survey, Small))
    ensures |Concat(SurveyPages(survey, Large))| == |SurveyResponses(survey)|
  {
    PagesCoverResponses(survey, Large);
    PagesCoverResponses(survey, Small);
  }

  /**
   * With a configuration, class `c` gets at most its maximum per page, the sum
   * over segments of ceil(length / maximum) pages, and every page lies inside
   * one segment; without one, every segment is exactly one page.
   */
  lemma PageBounds(survey: Survey, c: PageSizeClass)
    ensures survey.maxItemsPerPage.Some? ==>
      var m := survey.maxItemsPerPage.value.MaxFor(c);
      && |SurveyPages(survey, c)| == PageCountSum(SurveySegments(survey), m)
      && (forall p :: p in SurveyPages(survey, c) ==> |p| <= m)
    ensures forall p :: p in SurveyPages(survey, c) ==>
      exists s :: s in SurveySegments(survey) && IsInfix(p, s)
    ensures survey.maxItemsPerPage.None? ==> SurveyPages(survey, c) == SurveySegments(survey)
  {
    var segs := SurveySegments(survey);
    match survey.maxItemsPerPage
    case None =>
      forall p | p in segs
        ensures IsInfix(p, p)
      {
        assert p == p[0..|p|];
      }
    case Some(config) =>
      ChunkAllShape(segs, config.MaxFor(c));
  }

  /**
   * A configured survey without page breaks, of `n > 0` items: ceil(n / m)
   * pages, every page but the last holding `m` items and the last the
   * remainder; `m >= n` gives exactly one page.
   */
  lemma PlainSurveyPages(survey: Survey, c: PageSizeClass)
    requires survey.maxItemsPerPage.Some?
    requires FlatItems(survey) != []
    requires forall x :: x in FlatItems(survey) ==> !IsPageBreak(x)
    ensures var n, m, pages := |FlatItems(survey)|, survey.maxItemsPerPage.value.MaxFor(c), SurveyPages(survey, c);
      && |pages| == CeilDiv(n, m)
      && (forall i :: 0 <= i < |pages| - 1 ==> |pages[i]| == m)
      && |pages[|pages| - 1]| == n - (|pages| - 1) * m
      && (m >= n ==> pages == [FlatItems(survey)])
  {
    var flat := FlatItems(survey);
    var m := survey.maxItemsPerPage.value.MaxFor(c);
    assert SurveyPages(survey, c) == Chunk(flat, m) by {
      NoBreaks(flat);
      assert SurveySegments(survey) == [flat];
      assert ChunkAll([flat], m) == Chunk(flat, m) + ChunkAll([], m);
    }
    ChunkSizes(flat, m);
    LastPage(flat, m);
  }

  /** A survey whose items are all page breaks has no page and no response. */
  lemma OnlyBreaksSurvey(survey: Survey, c: PageSizeClass)
    requires forall x :: x in FlatItems(survey) ==> IsPageBreak(x)
    ensures SurveyPages(survey, c) == []
    ensures SurveyResponses(survey) == []
  {
    OnlyBreaks(FlatItems(survey));
  }

  /**
   * In a well-formed definition no two responses share a key, and none
   * carries the root group's key: a response is identified by its key.
   */
  lemma ResponseKeysDistinct(survey: Survey)
    requires WellFormed(survey.current.surveyDefinition)
    ensures DistinctItemKeys(SurveyResponses(survey))
    ensures forall x :: x in SurveyResponses(survey) ==> x.key != survey.current.surveyDefinition.key
  {
    ResponsesKeepDistinctKeys(FlatItems(survey));
  }

  /**
   * In a well-formed definition, every `follows` entry of a response names
   * the root group, a page break, or a response that comes earlier.
   */
  lemma ResponsesKeepDependencies(survey: Survey)
    requires WellFormed(survey.current.surveyDefinition)
    ensures PredecessorsEarlier(SurveyResponses(survey),
      {survey.current.surveyDefinition.key} + BreakKeys(FlatItems(survey)))
  {
    ResponsesKeepPredecessors(FlatItems(survey), {survey.current.surveyDefinition.key});
  }

  /** The engine, built once from a survey and queried any number of times. */
  class SurveyEngineCore {
    const survey: Survey

    constructor (survey: Survey)
      ensures this.survey == survey
    {
      this.survey := survey;
    }

    /**
     * The pages for `pageSizeClass`, or for the default class when it is
     * omitted.  The pages are non-empty, hold no page break, and read in
     * order are exactly the responses.
     */
    method GetSurveyPages(pageSizeClass: Option<PageSizeClass>) returns (pages: seq<Page>)
      ensures pages == SurveyPages(survey, pageSizeClass.GetOr(DefaultPageSizeClass))
      ensures Concat(pages) == SurveyResponses(survey)
      ensures forall p :: p in pages ==> p != []
    {
      var c := pageSizeClass.GetOr(DefaultPageSizeClass);
      pages := SurveyPages(survey, c);
      PagesCoverResponses(survey, c);
    }

    /** The answerable items of the whole definition, in declared order. */
    method GetResponses() returns (responses: seq<SurveyItem>)
      ensures responses == SurveyResponses(survey)
      ensures forall x :: x in responses <==> x in FlatItems(survey) && !IsPageBreak(x)
    {
      responses := SurveyResponses(survey);
    }
  }
}
