# Survey page model

A Dafny model of how the survey engine core of survey-engine.ts turns a survey definition into pages and a response list. The behaviour modelled is the one pinned down by `src/__tests__/page-model.test.ts`. The engine's own sources (`src/engine`, `src/data_types`) are not part of this model.

A survey holds its current definition, a root group of items, and an optional `maxItemsPerPage` with a maximum for the `large` and the `small` viewport class. The engine (`Engine.SurveyEngineCore`) is built once from a survey and answers two queries:

- `GetSurveyPages(class?)`: the definition is flattened into its single items in declared order (nested groups in place). It is cut at `pageBreak` items: the breaks are dropped and empty segments are discarded. Each segment is then chunked into consecutive pages of at most the class's maximum, with the last page holding the remainder. Without `maxItemsPerPage`, each segment is one whole page. The class defaults to `large` when omitted.
- `GetResponses()`: the answerable (non-`pageBreak`) items, in declared order.

Files and modules:

- `wrappers.dfy` (`Wrappers`): `Option`.
- `seqs.dfy` (`Seqs`): `Concat` of a sequence of sequences, contiguous runs.
- `survey_items.dfy` (`SurveyItems`): the item tree, `Flatten`, and the well-formedness of keys and `follows`.
- `segmenter.dfy` (`Segmenter`): page breaks, `Responses`, `SplitAtBreaks`, `Segment`.
- `paginator.dfy` (`Paginator`): `Chunk`, `ChunkAll`, ceiling division.
- `engine.dfy` (`Engine`): `Survey`, the page-size configuration, `SurveyPages`, `SurveyResponses`, and the `SurveyEngineCore` class.
- `page_model_scenarios.dfy` (`PageModelScenarios`): the test file's definitions and one method per test case. Each method builds a fresh engine and verifies the lengths the test expects. Each scenario is also stated as a lemma about any survey of that shape.

`follows` is modelled as a well-formedness predicate, not as a reordering. Every key a single item names must be the root's key or the key of an item declared earlier. In the tests, every `follows` entry names the previous item or `root`, so declared order already satisfies it.

## Model

| member | source | states |
|---|---|---|
| SurveyItems.Flatten | src/__tests__/page-model.test.ts:8-22 | flattening a tree yields only single items, never a group |
| SurveyItems.FlattenAll | src/__tests__/page-model.test.ts:11-22 | flattening a list of siblings yields only single items |
| SurveyItems.FlattenAllAppend | src/__tests__/page-model.test.ts:11-22 | flattening distributes over concatenation of sibling lists (declared order is kept) |
| SurveyItems.FlattenGroupInPlace | src/__tests__/page-model.test.ts:139-154 | a nested group contributes its children's items exactly where it stands |
| SurveyItems.FlattenPlain | src/__tests__/page-model.test.ts:11-22 | a definition made only of single items flattens to exactly its declared item list |
| SurveyItems.Keys | src/__tests__/page-model.test.ts:8-22 | the keys of a tree start with the tree's own key, so a group's key is checked for uniqueness alongside its children's |
| SurveyItems.KeysPlain | src/__tests__/page-model.test.ts:11-22 | a list of single items has exactly their keys, in declared order |
| SurveyItems.FlatKeysInKeys | src/__tests__/page-model.test.ts:139-154 | every flattened item's key is one of the tree's keys |
| SurveyItems.FlatKeysInKeysAll | src/__tests__/page-model.test.ts:139-154 | every flattened item's key is one of the sibling trees' keys |
| SurveyItems.FlatKeysDistinct | src/__tests__/page-model.test.ts:139-154 | a tree whose keys are all distinct flattens to items with distinct keys |
| SurveyItems.FlatKeysDistinctAll | src/__tests__/page-model.test.ts:139-154 | sibling trees whose keys are all distinct flatten to items with distinct keys |
| SurveyItems.RootKeyNotFlat | src/__tests__/page-model.test.ts:139-154 | with distinct tree keys, no flattened item carries the root's key and no two share a key |
| SurveyItems.WellFormed | src/__tests__/page-model.test.ts:114-123 | the condition that keys are distinct across the whole tree and every `follows` entry names the root or an earlier item; entails that the flattened items have distinct keys, none of them the root's (what it buys for responses: ResponseKeysDistinct, ResponsesKeepDependencies) |
| Segmenter.IsPageBreak | src/__tests__/page-model.test.ts:119-122 | the classification the segmenter cuts at: a single item typed `pageBreak`; what it means for pages is stated by SplitHasNoBreaks, SplitRoundTrip and Responses |
| Segmenter.Responses | src/__tests__/page-model.test.ts:104 | an item is a response iff it is in the flat order and is not a page break; never more responses than items |
| Segmenter.ResponsesCount | src/__tests__/page-model.test.ts:131-134 | every flat item is a response or a page break: the response count is the item count minus the break count |
| Segmenter.ResponsesKeepDistinctKeys | src/__tests__/page-model.test.ts:104 | taking responses keeps keys distinct |
| Segmenter.ResponsesAppend | src/__tests__/page-model.test.ts:134 | taking responses distributes over concatenation (it preserves order) |
| Segmenter.SplitAtBreaks | src/__tests__/page-model.test.ts:119-122 | cutting at page breaks gives at least one (possibly empty) run; SplitRoundTrip gives the exact count |
| Segmenter.SplitCoversResponses | src/__tests__/page-model.test.ts:131-134 | the runs, read in order, are exactly the responses |
| Segmenter.SplitRoundTrip | src/__tests__/page-model.test.ts:113-124 | there is exactly one more run than there are page breaks, and putting each break back between consecutive runs restores the flat sequence (cutting loses only the boundaries) |
| Segmenter.SplitHasNoBreaks | src/__tests__/page-model.test.ts:131-134 | no run contains a page break |
| Segmenter.NonEmptyConcat | src/__tests__/page-model.test.ts:101-102 | dropping empty runs keeps every item and its order; the kept runs are exactly the non-empty ones |
| Segmenter.Segment | src/__tests__/page-model.test.ts:107-135 | segmenting at page breaks: no segment is empty (the rest of its meaning is in SegmentShape and OnlyBreaks) |
| Segmenter.SegmentShape | src/__tests__/page-model.test.ts:107-135 | the segments are exactly the non-empty runs between page breaks; they hold no page break, read in order are exactly the responses, and number at most breaks + 1 |
| Segmenter.OnlyBreaks | src/__tests__/page-model.test.ts:76-105 | a sequence of page breaks only has no segment and no response |
| Segmenter.NoBreaks | src/__tests__/page-model.test.ts:11-25 | a non-empty sequence without page breaks is one whole segment |
| Segmenter.SplitAfterRun | src/__tests__/page-model.test.ts:118-120 | a page break closes the run of answerable items before it |
| Segmenter.SegmentAfterRun | src/__tests__/page-model.test.ts:118-120 | a non-empty run followed by a page break is a segment of its own, ahead of the segments after the break |
| Segmenter.PredecessorsEarlierExtend | src/__tests__/page-model.test.ts:114-123 | appending an item whose `follows` keys are allowed or already present keeps every dependency pointing backwards |
| Segmenter.ResponsesKeepPredecessorsStep | src/__tests__/page-model.test.ts:114-123 | one more flat item keeps the responses' dependencies pointing backwards |
| Segmenter.ResponsesKeepPredecessors | src/__tests__/page-model.test.ts:114-123 | if the flat order respects `follows`, every response's `follows` key names an allowed key, a page break, or an earlier response |
| Paginator.CeilDiv | src/__tests__/page-model.test.ts:40-50 | the page count of n items: never more pages than items, no page exactly when there is no item, one page when n <= m (CeilDivBounds: the ceiling of n / m) |
| Paginator.CeilDivBounds | src/__tests__/page-model.test.ts:40-50 | the page count `CeilDiv(n, m)` is the ceiling of n / m: `(q - 1) * m < n <= q * m` |
| Paginator.Chunk | src/__tests__/page-model.test.ts:40-50 | chunking a segment: no page exactly when the segment is empty, never more pages than items (contents, sizes and positions: ChunkConcat, ChunkSizes, LastPage, ChunkAt) |
| Paginator.ChunkConcat | src/__tests__/page-model.test.ts:40-50 | the pages of a segment, read in order, are exactly the segment |
| Paginator.ChunkSizes | src/__tests__/page-model.test.ts:40-72 | a segment gives ceil(len / m) pages, each of 1..m items, every page but the last exactly m; a segment of at most m items is one page |
| Paginator.LastPage | src/__tests__/page-model.test.ts:45-49 | the last page holds the remainder `len - (pages - 1) * m` |
| Paginator.ChunkAt | src/__tests__/page-model.test.ts:40-50 | page i is the run of the segment from item i * m up to (i + 1) * m or the segment's end (chunks are not balanced) |
| Paginator.ChunkAll | src/__tests__/page-model.test.ts:172-185 | chunking every segment, pages in segment order (stated by ChunkAllConcat and ChunkAllShape) |
| Paginator.ChunkAllConcat | src/__tests__/page-model.test.ts:172-185 | the pages of all segments, read in order, are exactly the segments' items |
| Paginator.ChunkPagesAreRuns | src/__tests__/page-model.test.ts:172-185 | every page of a segment is a contiguous run of that segment |
| Paginator.ChunkAllShape | src/__tests__/page-model.test.ts:156-185 | chunking all segments gives the sum of their ceil(len / m), every page 1..m items and inside one segment (no page straddles a page break) |
| Engine.SurveyResponses | src/__tests__/page-model.test.ts:104 | an item is a response iff it is a flat item of the definition and not a page break |
| Engine.SurveyPages | src/__tests__/page-model.test.ts:29-185 | the pages a class sees: none is empty and, with a configuration, none exceeds the class's maximum (contents: PagesCoverResponses, PageBounds) |
| Engine.PagesCoverResponses | src/__tests__/page-model.test.ts:156-170 | for every class the pages, read in order, equal the response list; no page is empty or holds a page break |
| Engine.ClassesAgreeOnItems | src/__tests__/page-model.test.ts:52-61 | the large and small classes see the same items in the same order; page lengths add up to the response count |
| Engine.PageBounds | src/__tests__/page-model.test.ts:156-185 | with a configuration: sum over segments of ceil(len / m) pages, each at most m, each inside one segment; without one: the pages are the segments |
| Engine.PlainSurveyPages | src/__tests__/page-model.test.ts:29-72 | n > 0 items without breaks: ceil(n / m) pages, all but the last of m items, the last of the remainder, one page when m >= n |
| Engine.OnlyBreaksSurvey | src/__tests__/page-model.test.ts:76-105 | a definition of page breaks only gives no page and no response |
| Engine.ResponseKeysDistinct | src/__tests__/page-model.test.ts:107-135 | in a well-formed definition no two responses share a key and none carries the root's key |
| Engine.ResponsesKeepDependencies | src/__tests__/page-model.test.ts:107-135 | in a well-formed definition every response's `follows` names the root, a page break, or an earlier response |
| Engine.SurveyEngineCore.constructor | src/__tests__/page-model.test.ts:30-32 | the engine holds the survey it was built from |
| Engine.SurveyEngineCore.GetSurveyPages | src/__tests__/page-model.test.ts:33 | returns the pages of the given class or of `large`; they are non-empty and read in order are the responses |
| Engine.SurveyEngineCore.GetResponses | src/__tests__/page-model.test.ts:104 | returns the responses: exactly the non-break flat items |
| PageModelScenarios.TenPlainItemsShape | src/__tests__/page-model.test.ts:6-26 | the ten-item definition flattens to ten items, none a page break |
| PageModelScenarios.TenPageBreaksShape | src/__tests__/page-model.test.ts:77-96 | the page-break definition flattens to page breaks only |
| PageModelScenarios.BreaksAtSixAndNineShape | src/__tests__/page-model.test.ts:139-154 | the chained definition flattens to ten items with page breaks at positions 6 and 9 only |
| PageModelScenarios.BreaksAtSixAndNineWellFormed | src/__tests__/page-model.test.ts:139-154 | the chained definition has no repeated key (root included) and each `follows` names the root or an earlier item |
| PageModelScenarios.BreaksAtSixAndNineChain | src/__tests__/page-model.test.ts:143-152 | the first item follows exactly `root` and every later item exactly the item declared just before it, so every `follows` names the root or an earlier item |
| PageModelScenarios.BreaksAtSixAndNineKeys | src/__tests__/page-model.test.ts:139-154 | the chained definition's keys are `root`, then `root.1` .. `root.10` |
| PageModelScenarios.OneItemPerPage | src/__tests__/page-model.test.ts:156-170 | with a maximum of one there are as many pages as responses, each of one item |
| PageModelScenarios.TenItemsOneByOne | src/__tests__/page-model.test.ts:29-38 | ten plain items, maximum 1: ten pages of one item |
| PageModelScenarios.TenItemsByFour | src/__tests__/page-model.test.ts:40-50 | ten plain items, maximum 4: the pages are exactly items 1-4, 5-8 and 9-10, so three pages of 4, 4 and 2 items |
| PageModelScenarios.TenItemsByTwo | src/__tests__/page-model.test.ts:59-60 | ten plain items, maximum 2: five pages |
| PageModelScenarios.TenItemsFitOnePage | src/__tests__/page-model.test.ts:63-72 | ten plain items, maximum of 10 or more: one page |
| PageModelScenarios.SegmentsAroundBreaks | src/__tests__/page-model.test.ts:139-154 | breaks at positions 6 and 9 give exactly the segments of items 1-5, 7-8 and 10 |
| PageModelScenarios.BreaksUnbounded | src/__tests__/page-model.test.ts:107-135 | breaks at 6 and 9, no maximum: three pages and eight responses |
| PageModelScenarios.BreaksOnePerPage | src/__tests__/page-model.test.ts:156-170 | breaks at 6 and 9, maximum 1: eight pages and eight responses |
| PageModelScenarios.BreaksFourPerPage | src/__tests__/page-model.test.ts:172-185 | breaks at 6 and 9, maximum 4: the pages are exactly items 1-4, item 5, items 7-8 and item 10, so four pages of 4, 1, 2 and 1 items |
| PageModelScenarios.MaxOneItem | src/__tests__/page-model.test.ts:29-38 | a fresh engine's default pages: ten, each of one item |
| PageModelScenarios.MaxFourItems | src/__tests__/page-model.test.ts:40-50 | a fresh engine's default pages: three, of 4, 4 and 2 items |
| PageModelScenarios.DifferentLargeAndSmall | src/__tests__/page-model.test.ts:52-61 | one engine: three large pages and five small pages |
| PageModelScenarios.MoreThanSurveyItems | src/__tests__/page-model.test.ts:63-72 | maxima 41 and 22: one page for each class |
| PageModelScenarios.PageBreaksAfterEachOther | src/__tests__/page-model.test.ts:76-105 | page breaks only: zero pages and zero responses |
| PageModelScenarios.PageBreakTypicalUseCase | src/__tests__/page-model.test.ts:107-135 | breaks at 6 and 9, no maximum: three pages and eight responses |
| PageModelScenarios.MaxOneItemWithPageBreaks | src/__tests__/page-model.test.ts:156-170 | breaks at 6 and 9, maximum 1: eight pages and eight responses |
| PageModelScenarios.MaxFourItemsWithPageBreaks | src/__tests__/page-model.test.ts:172-185 | breaks at 6 and 9, maximum 4: four pages, of 4, 1, 2 and 1 items |
| PageModelScenarios.RepeatedQueries | src/__tests__/page-model.test.ts:57-59 | querying one engine twice with a class gives equal pages; both classes see the response list |

## Left out

- The test harness (`describe`, `test`, `expect`). The `forEach` checks become quantified postconditions of the scenario methods.
- The reassignment of `testSurvey.maxItemsPerPage` between test cases (lines 41, 53, 64). It is fixture setup: each case is modelled as a fresh, immutable survey.
- Reordering by `follows` when an edge disagrees with declared order, and cycle detection (an `InvalidDependency` error). No test exercises such an edge and the engine source is not part of this model. `SurveyItems.WellFormed` states the condition under which declared order already satisfies every dependency.
- `SurveyItems.WellFormed` requires every key of the tree (root, nested groups and single items) to be distinct, but accepts only the root's key or an earlier single item's key in `follows`. A `follows` entry naming a nested group's key is not modelled, and neither are a group's own `follows` entries.
- The error for an unknown viewport class (`UnknownPageSizeClass`). The class is the datatype `{Large, Small}`, so that case cannot arise.
- The default class when `getSurveyPages()` is called without one. The model uses `Large`, but the tests that omit the class all have `large == small`, so they do not pin which class is the default.
- A maximum below one. `PageSize` admits only integers of at least 1, and the engine's behaviour for 0 or negative maxima is not shown.
- The `version` field is carried in the data but plays no part in paging. Rendering, conditions and skip logic, response values and timestamps are not modelled either.
- Whether the engine copies items or computes pages lazily or eagerly. Pages are modelled as values computed from the immutable survey on each query.
