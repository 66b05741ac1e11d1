# Pain-point paging, relative intervals and progress milestones

A Dafny model of four small pieces of the Idea Flow publisher: the page that the StoryWeb
resource cuts out of the ranked pain-point list, the relative-interval arithmetic every band
and milestone relies on, the construction and path naming of a progress milestone, and the
start/position alias of a positionable record.

- `paging.dfy` (module `StoryWebPaging`): `findPainfulStoryPoints` as a function returning a
  `PagedResult` or the exception the Java code throws. The page arithmetic is modelled as
  written, including its off-by-one (see Findings). The ranked list is the result of an
  arbitrary function of the requested tags.
- `relative_interval.dfy` (module `RelativeIntervals`): `AbstractRelativeInterval` as a value:
  end, position and the half-open `shouldContain` test.
- `journey.dfy` (module `Journey`): `ProgressMilestone` as a class whose constructor may
  rewrite the `fullPath` of the event it is given, and the getters that delegate to that event.
  `TagsUtil.extractUniqueHashTags` is a function parameter of the constructor.
- `positionable.dfy` (module `Positionables`): `AbstractPositionable` as a class whose
  `SetStart` moves `position` and nothing else.
- `java_text.dfy` (module `JavaText`): how Java renders a `long` id when it is appended to a
  string, with its parse-back, so that milestone paths can be proved to identify milestones.
- `wrappers.dfy` (module `Wrappers`): `Option` for Java nulls and absent parameters, `Result`
  for thrown exceptions.

The page is modelled as the code computes it, not as a reader might expect: an out-of-range
page, an empty ranked list and a page size of zero make the resource throw rather than return
an empty page, and page 2 of 25 pain points at 10 per page holds 4 of them, not 5.

## Model

| member | source | states |
|---|---|---|
| `StoryWebPaging.PageOf` | src/main/groovy/org/openmastery/storyweb/resources/StoryWebResource.java:54-66 | a page size of zero throws division by zero; otherwise the call succeeds exactly when the list is non-empty, the page size positive and 0 <= page < page count, and fails with the out-of-range subList bounds; on success the contents are the slice from page*perPage capped below the last element, page number and page size are echoed, the page count is the ceiling of size/perPage, hasPrevious iff page > 0 and hasNext iff the next page starts inside the list |
| `StoryWebPaging.PageSlice` | src/main/groovy/org/openmastery/storyweb/resources/StoryWebResource.java:55-59 | a page holds exactly min(cap, (page+1)*perPage) - page*perPage items, so at most perPage and exactly perPage when the next page starts below the cap, and item i is list item page*perPage+i, always below the cap (so never the last element as written) |
| `StoryWebPaging.FindPainfulStoryPoints` | src/main/groovy/org/openmastery/storyweb/resources/StoryWebResource.java:48-66 | the resource's result is the page (`PageOf`) of the metrics service's ranked list for the requested tags; the project argument is not used |
| `StoryWebPaging.NumPagesIsCeiling` | src/main/groovy/org/openmastery/storyweb/resources/StoryWebResource.java:57 | for perPage > 0 the page count t satisfies (t-1)*perPage < size <= t*perPage, i.e. it is the ceiling of size/perPage |
| `StoryWebPaging.JavaDivTruncates` | src/main/groovy/org/openmastery/storyweb/resources/StoryWebResource.java:57 | the modelled `/` and `%` are Java's: quotient times divisor plus remainder is the dividend, the remainder is smaller than the divisor in magnitude and has the dividend's sign |
| `StoryWebPaging.JavaRemMagnitude` | src/main/groovy/org/openmastery/storyweb/resources/StoryWebResource.java:57 | Java's remainder is the remainder of the magnitudes with the dividend's sign |
| `StoryWebPaging.PageStartsInList` | src/main/groovy/org/openmastery/storyweb/resources/StoryWebResource.java:55-57 | for perPage > 0 a page starts inside the list exactly when 0 <= page < page count |
| `StoryWebPaging.PageArithmetic` | src/main/groovy/org/openmastery/storyweb/resources/StoryWebResource.java:55-63 | the next page starts perPage after this one; for perPage > 0 the start of this page and of the next lie in the list exactly for the counted pages, which is what hasNext tests |
| `StoryWebPaging.ProjectIsIgnored` | src/main/groovy/org/openmastery/storyweb/resources/StoryWebResource.java:48-52 | two calls that differ only in the project argument return the same result |
| `StoryWebPaging.PagesBeforeArePrefix` | src/main/groovy/org/openmastery/storyweb/resources/StoryWebResource.java:55-59 | consecutive pages join without gap or overlap: the first k pages, concatenated, are the prefix of the list up to min(cap, k*perPage) |
| `StoryWebPaging.AsWrittenPagesOmitLast` | src/main/groovy/org/openmastery/storyweb/resources/StoryWebResource.java:56-59 | reading every page in turn yields every pain point except the last, each once and in rank order |
| `StoryWebPaging.TwentyFiveByTenPageTwo` | src/main/groovy/org/openmastery/storyweb/resources/StoryWebResource.java:55-64 | 25 pain points, 10 per page, page 2: items 20 to 23, 3 pages, no next page, a previous page |
| `StoryWebPaging.IntendedPageOf` | src/main/groovy/org/openmastery/storyweb/resources/StoryWebResource.java:56 | with the end index capped at size, the page succeeds exactly for perPage > 0 and 0 <= page*perPage <= size, and is the slice capped at size |
| `StoryWebPaging.IntendedPagesReassemble` | src/main/groovy/org/openmastery/storyweb/resources/StoryWebResource.java:56 | with the end index capped at size, all pages concatenated are the whole ranked list |
| `RelativeIntervals.EndIsStartPlusDuration` | src/main/java/org/openmastery/publisher/api/AbstractRelativeInterval.java:20-26 | the end minus the start is the duration, and an interval's relative position is its start |
| `RelativeIntervals.ShouldContainIsHalfOpen` | src/main/java/org/openmastery/publisher/api/AbstractRelativeInterval.java:28-33 | a position is contained exactly when it is at or after the start and less than one duration past it |
| `RelativeIntervals.StartInEndOut` | src/main/java/org/openmastery/publisher/api/AbstractRelativeInterval.java:29-30 | the start is contained exactly when the duration is positive; the end never is |
| `RelativeIntervals.EmptyIntervalContainsNothing` | src/main/java/org/openmastery/publisher/api/AbstractRelativeInterval.java:29-30 | an interval of zero or negative duration contains no position |
| `RelativeIntervals.OnlyStartIsTested` | src/main/java/org/openmastery/publisher/api/AbstractRelativeInterval.java:28-33 | an interval passed to shouldContain is accepted exactly when its start lies in the container, whatever its end |
| `RelativeIntervals.OverhangingElementAccepted` | src/main/java/org/openmastery/publisher/api/AbstractRelativeInterval.java:28-33 | [0,10) accepts [5,25) although [5,25) does not lie within [0,10) |
| `RelativeIntervals.ContainmentIsMonotone` | src/main/java/org/openmastery/publisher/api/AbstractRelativeInterval.java:28-33 | a position held by an interval is held by every interval around it |
| `Positionables.Positionable.constructor` | src/main/java/org/openmastery/publisher/api/AbstractPositionable.java:13-18 | the all-arguments constructor sets task id, position and relative position |
| `Positionables.Positionable.GetStart` | src/main/java/org/openmastery/publisher/api/AbstractPositionable.java:23-26 | getStart always equals getPosition |
| `Positionables.Positionable.SetStart` | src/main/java/org/openmastery/publisher/api/AbstractPositionable.java:28-31 | afterwards getStart and getPosition return the new value; task id and relative position are unchanged (not recomputed) |
| `JavaText.NaturalToString` | src/main/java/org/openmastery/publisher/api/journey/ProgressMilestone.java:52 | the decimal text of a number is non-empty and all digits |
| `JavaText.LongToString` | src/main/java/org/openmastery/publisher/api/journey/ProgressMilestone.java:52 | the text of a long id is non-empty, digits with at most a leading minus sign |
| `JavaText.ParseNaturalToString` | src/main/java/org/openmastery/publisher/api/journey/ProgressMilestone.java:52 | parsing the decimal text of a natural number gives the number back |
| `JavaText.ParseLongToString` | src/main/java/org/openmastery/publisher/api/journey/ProgressMilestone.java:52 | parsing the text of a long id gives the id back |
| `JavaText.LongToStringInjective` | src/main/java/org/openmastery/publisher/api/journey/ProgressMilestone.java:52 | different ids render as different text |
| `Journey.ProgressMilestone.constructor` | src/main/java/org/openmastery/publisher/api/journey/ProgressMilestone.java:32-44 | the milestone keeps the event and parent path, starts at the event's relative position, has context tags extracted from the comment and no pain tags, and no duration or capacity yet; a NOTE event gets the milestone's full path, any other event keeps its path; no other event field changes |
| `Journey.ProgressMilestone.GetStart` | src/main/java/org/openmastery/publisher/api/journey/ProgressMilestone.java:68-71 | getStart always equals getPosition |
| `Journey.MilestoneDelegatesToEvent` | src/main/java/org/openmastery/publisher/api/journey/ProgressMilestone.java:47-84 | getId, getPosition and getDescription return the event's id, position and comment; getStart equals getPosition; frequency is 1 and there are no child elements |
| `Journey.MilestonePathShape` | src/main/java/org/openmastery/publisher/api/journey/ProgressMilestone.java:51-58 | a full path starts with the parent path and continues with the relative path, which starts with "/milestone/" |
| `Journey.FullPathShape` | src/main/java/org/openmastery/publisher/api/journey/ProgressMilestone.java:51-58 | a milestone's full path is its parent path followed by "/milestone/" and its event id |
| `Journey.MilestonePathInjective` | src/main/java/org/openmastery/publisher/api/journey/ProgressMilestone.java:51-58 | equal full paths come from equal parent paths and equal event ids |
| `Journey.SlashBeforeDigits` | src/main/java/org/openmastery/publisher/api/journey/ProgressMilestone.java:51-52 | in a full path the character before the id's digits is the '/' ending "/milestone/" |
| `Journey.FullPathIdentifiesMilestone` | src/main/java/org/openmastery/publisher/api/journey/ProgressMilestone.java:51-58 | two milestones with the same full path share parent path and event id |
| `Journey.MilestoneContainsItsEvent` | src/main/java/org/openmastery/publisher/api/journey/ProgressMilestone.java:35 | a milestone started at its event's position holds that event, once a duration is set, exactly when the duration is positive |

## Left out

- The metrics service's ranking and tag filtering (`findAndFilterBiggestPainPoints`): its code is not part of this model; the ranked list is an arbitrary function of the tags.
- JAX-RS annotations and the query-parameter defaults (page 0, 10 per page): transport plumbing; a null `Integer` page number or page size (which would throw on unboxing) is not modelled.
- StoryWebPaging.PageOf: Java `int` overflow in `pageNumber * elementsPerPage` and `(pageNumber + 1) * elementsPerPage` is excluded by a precondition rather than modelled as wrap-around.
- StoryWebPaging.PageOf: the exceptions of `subList` are one `IndexOutOfBounds` error, as the `List` interface states; `ArrayList` would raise `IllegalArgumentException` when the start index exceeds the end index.
- RelativeIntervals: the `Long` fields are taken as present; a null duration or start (which throws on unboxing) is not modelled, and `long` overflow of start plus duration is not modelled. Being a function of a value, `ShouldContain` changes no fields by construction.
- Lombok-generated members: the setters (`setStart` is hand-written and modelled), `equals`, `hashCode`, `toString`, the no-argument constructors, and the all-arguments constructor of `ProgressMilestone`, which only assigns every field; only the hand-written `ProgressMilestone(parentPath, event)` constructor is modelled.
- TagsUtil.extractUniqueHashTags: its code is not part of this model; it is a parameter of the milestone constructor.
- Event: Event.java is not part of this model; the model keeps only the event fields a milestone reads or writes, and the event kinds listed are assumed. A null event, comment, event id or parent path is not modelled: a null event throws, and a null id or parent path would be rendered as the text "null" in the full path (".../milestone/null").
- `CapacityDistribution` is an abstract type that the milestone only carries; joda `LocalDateTime` is an integer; `@JsonIgnore` has no behaviour.
- The band timeline factory, capacity aggregation, state tracker, the timeline and task resources, the task client, persistence interfaces and entities: not part of this model.

## Findings

| source | as written | input that shows it | evidently intended | confidence | as-written member | corrected member |
|---|---|---|---|---|---|---|
| src/main/groovy/org/openmastery/storyweb/resources/StoryWebResource.java:56 | `lastIndex = min(size - 1, (pageNumber + 1) * elementsPerPage)` is then used as the exclusive end of `subList`, so the last pain point is never on any page | 25 pain points, 10 per page, page 2 returns 4 items (indices 20 to 23); 1 pain point, page 0 returns an empty page | `min(size, (pageNumber + 1) * elementsPerPage)`, so that the pages together return the whole list | medium, not executed | `StoryWebPaging.AsWrittenPagesOmitLast` | `StoryWebPaging.IntendedPagesReassemble` |
