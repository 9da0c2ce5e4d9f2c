# Blimari learning-path core in Dafny

Blimari builds a personalised learning path ("trilha") for a topic. The
learner answers a few questions and picks content sources. A processing
page then runs four steps:

- **search**: discover content;
- **filter**: approve items;
- **organize**: arrange them into sections;
- **finalize**: save the path.

Saved paths track which items are done and compute a progress percentage.
A middleware, which the router runs only on the dashboard and processing
pages and the paths below them, protects those pages and keeps the user
table in line with the authentication provider.

This project models that logic as pure functions over immutable
datatypes. It covers:

- the content discovery service;
- both discover endpoints, and the save and progress endpoints;
- the two processing pages, the source-selection page and the two
  questionnaire pages, each written as a state-transition function;
- the middleware.

Network answers are parameters: search results, page fetches, and the
filter, organize, insights and save endpoints' answers. The same goes for
the clock (`Date.now()` in sample ids) and the random cultural score.
Database calls are modelled by their effect on a small in-memory
database, and a flag says which call throws: the middleware's lookups and
writes, the save endpoint's insert, and the progress endpoint's flag write
and recount.

Modules, one per source file or concept:

- `Wrappers`, `Text`, `Types`, `JsMath` and `StableSort` are shared
  vocabulary. `JsMath` covers `Math.round` and `Math.ceil` of a quotient.
  `StableSort` covers `Array.prototype.sort` with a numeric comparator,
  followed by `slice`.
- `Duration` and `ScrapedText` hold the string processing of the
  discovery service.
- `Discovery` models `src/services/content/discovery.service.ts`.
- `DiscoverRoute` and `MockDiscover` model the two discover endpoints.
- `SaveRoute` and `ProgressRoute` model the learning-path endpoints.
- `Steps`, `Processing` and `LegacyProcessing` model the processing pages.
- `SourcesPage`, `Questions` and `TimedQuestions` model the selection and
  questionnaire pages.
- `Middleware` models `src/middleware.ts`.

Three places where the model departs from what a reader of the code might
expect:

- **Finalize reads live content.** In `src/app/create/processing/page.tsx`
  the finalize step tests the content captured when the run began. The model
  has the step read the content the earlier steps produced, and records the
  code's behaviour as a finding.
- **An empty search stalls the run.** A search that finds nothing leaves the
  filter, organize and finalize steps in "processing", and the page never
  reports completion. The model follows the code's early returns here, not
  a reading in which every step always completes.
- **Two database calls are missing.** `db.updateUser` (called by the
  middleware) and `db.getLearningPathById` (called by the progress endpoint)
  are not defined in `src/lib/database/neon.ts`, so each call throws every
  time it is reached. Both are recorded as findings, each with an as-written
  member. The rest of the model uses the evident intent. The update is a
  user write that fails only when the `Faults` parameter says so. The
  read-back returns the stored counters.

## Model

| member | source | states |
|---|---|---|
| Text.Lower | src/services/content/discovery.service.ts:335 | lower-casing keeps the length and maps each character through the ASCII lower-case map |
| JsMath.RoundRatio | src/app/api/learning-paths/progress/route.ts:25 | in integers: 2p lies in [q(2r-1), q(2r+1)), so halves round up |
| JsMath.RoundRatioNearest | src/app/api/learning-paths/progress/route.ts:25 | the result lies within one half of the exact rational quotient |
| JsMath.RoundRatioMonotone | src/app/api/learning-paths/progress/route.ts:25 | rounding a quotient is monotone in the numerator |
| JsMath.RoundRatioExact | src/app/api/learning-paths/progress/route.ts:25 | a whole multiple of the divisor rounds to exactly its quotient |
| JsMath.CeilRatio | src/services/content/discovery.service.ts:278 | the result is the least integer not below the exact quotient |
| StableSort.Sort | src/services/content/discovery.service.ts:32 | the result is a permutation of the input, sorted highest key first |
| StableSort.SortIsStable | src/services/content/discovery.service.ts:32 | items with equal keys keep their input order |
| StableSort.TopN | src/services/content/discovery.service.ts:31-33 | keeps min(n, length) items, sorted, drawn from the input, and no dropped item outranks a kept one |
| StableSort.TopNKeepsFirstTies | src/services/content/discovery.service.ts:31-33 | among items with equal key, the kept ones are the earliest in input order |
| StableSort.TopNHeadIsMax | app/api/content/discover/route.ts:48-52 | the first kept item has the highest key of the whole input |
| Duration.FindPT | src/services/content/discovery.service.ts:264 | finds the leftmost "PT", where the unanchored pattern starts matching |
| Duration.ParseYouTubeDuration | src/services/content/discovery.service.ts:263-272 | a text without "PT" reads as 0 minutes |
| Duration.ParseFormat | src/services/content/discovery.service.ts:263-271 | parsing a rendered PT[nH][nM][nS] gives 60·H + M + round(S/60), absent parts counting 0 |
| Duration.ExampleMinutesSeconds | src/services/content/discovery.service.ts:264-271 | "PT1M30S" reads as 2 minutes |
| Duration.ExampleHours | src/services/content/discovery.service.ts:264-271 | "PT1H" reads as 60 minutes |
| Duration.ExampleDays | src/services/content/discovery.service.ts:264-265 | a duration with a day part and no "PT" reads as 0 |
| Duration.OutOfOrderExample | src/services/content/discovery.service.ts:264 | groups are read only in H, M, S order, so "PT1M1H" reads as 1 |
| ScrapedText.DropSpaces | src/services/content/discovery.service.ts:256 | removes exactly the leading whitespace run |
| ScrapedText.TrimEnd | src/services/content/discovery.service.ts:256 | removes exactly the trailing whitespace run |
| ScrapedText.Normalize | src/services/content/discovery.service.ts:255-256 | collapsing whitespace then trimming equals joining the text's words with single spaces |
| ScrapedText.CollapseTrimIsUnwords | src/services/content/discovery.service.ts:255-256 | on a text without leading space, collapse-then-trim is the single-space join of its words |
| ScrapedText.UnwordsIsNormal | src/services/content/discovery.service.ts:255-256 | joining words gives a text with no leading, trailing or doubled whitespace |
| ScrapedText.WordsOfUnwords | src/services/content/discovery.service.ts:255-256 | splitting a single-space join gives back the words |
| ScrapedText.NormalizeSound | src/services/content/discovery.service.ts:255-256 | the cleaned text is normal and has the same words as the input |
| ScrapedText.NormalizeIdempotent | src/services/content/discovery.service.ts:255-256 | cleaning twice is cleaning once |
| ScrapedText.Truncate | src/services/content/discovery.service.ts:259 | text up to 2000 characters is kept; longer text becomes its first 2000 characters plus "..." |
| ScrapedText.ExtractMainContent | src/services/content/discovery.service.ts:249-260 | the result is the truncation of the normalised text, which has the input's words |
| Discovery.CountSpaces | src/services/content/discovery.service.ts:277 | the number of ' ' characters in the text |
| Discovery.SplitOnSpace | src/services/content/discovery.service.ts:277 | splitting on ' ' gives one more piece than there are spaces, none holding a space |
| Discovery.SplitJoin | src/services/content/discovery.service.ts:277 | joining the pieces with ' ' restores the text |
| Discovery.EstimateReadingTime | src/services/content/discovery.service.ts:275-279 | at least 1, and the ceiling of word count / 200 |
| Discovery.ShortTextReadsInOneMinute | src/services/content/discovery.service.ts:275-278 | the estimate is 1 minute exactly when the text has fewer than 200 spaces |
| Discovery.ParseDifficulty | src/services/content/discovery.service.ts:334-345 | 1, 3, 5 exactly for beginner, intermediate, advanced in any ASCII case; 2 otherwise |
| Discovery.DifficultyLabel | src/services/content/discovery.service.ts:334-345 | exactly levels 1, 3 and 5 have a label |
| Discovery.DifficultyRoundTrip | src/services/content/discovery.service.ts:334-345 | each level's label parses back to that level |
| Discovery.DifficultyIgnoresCase | src/services/content/discovery.service.ts:335 | parsing a lower-cased label gives the same level |
| Discovery.UpperCaseExample | src/services/content/discovery.service.ts:335-343 | "Beginner" is 1 and "EXPERT" falls to the default 2 |
| Discovery.VideoItem | src/services/content/discovery.service.ts:60-70 | a video item links to its watch URL, defaults a missing description to "" and carries the parsed duration |
| Discovery.FullDescription | src/services/content/discovery.service.ts:202-223 | a page is described exactly when the fetch succeeded |
| Discovery.ArticleItem | src/services/content/discovery.service.ts:109-119 | an article uses the page text when it is non-empty, else the snippet, and its reading time is that text's |
| Discovery.RepoText | src/services/content/discovery.service.ts:167 | README, else repository description, else "" |
| Discovery.RepoItem | src/services/content/discovery.service.ts:164-174 | a repository item's id is its numeric id in decimal and it links to the repository page |
| Discovery.SearchYouTube | src/services/content/discovery.service.ts:36-86 | one video item per result, in order; a failed search gives none |
| Discovery.SearchGoogle | src/services/content/discovery.service.ts:89-135 | one article item per result, in order; a failed search gives none |
| Discovery.SearchGitHub | src/services/content/discovery.service.ts:138-198 | one tutorial item per result, in order; a failed search gives none |
| Discovery.FailedSearchIsEmpty | src/services/content/discovery.service.ts:36-49 | an unconfigured, throwing or item-less search contributes nothing |
| Discovery.Gather | src/services/content/discovery.service.ts:7-26 | only requested, searchable types appear, videos before articles before tutorials |
| Discovery.GatherIgnoresOrder | src/services/content/discovery.service.ts:10-26 | only the set of requested types matters |
| Discovery.ScoreCulturally | src/services/content/discovery.service.ts:326-331 | each item gets its cultural score and nothing else changes |
| Discovery.DiscoverContent | src/services/content/discovery.service.ts:4-34 | at most `limit` items of requested types, sorted by combined score, the best of what was gathered |
| Discovery.UnsearchedTypesFindNothing | src/services/content/discovery.service.ts:10-33 | a request for types no search handles returns nothing |
| DiscoverRoute.MapSource | src/app/api/content/discover/route.ts:13-27 | youtube→video, github→tutorial, google-search and web→article, books→book, anything else dropped |
| DiscoverRoute.MapSources | src/app/api/content/discover/route.ts:13-28 | no more types than tags, each coming from some tag |
| DiscoverRoute.MapSourcesAppend | src/app/api/content/discover/route.ts:13-28 | mapping is tag by tag: order kept, duplicates kept |
| DiscoverRoute.MapSourcesSingle | src/app/api/content/discover/route.ts:28 | a known tag maps to its one type, an unknown tag to nothing |
| DiscoverRoute.WebAndGoogleExample | src/app/api/content/discover/route.ts:19-22 | ["web","google-search"] gives two article types; an unknown tag is dropped |
| DiscoverRoute.Handle | src/app/api/content/discover/route.ts:5-55 | 500 on an unreadable body, 400 on a falsy topic or non-array sources, else at most 10 sorted items from discovery with difficulty "beginner" |
| DiscoverRoute.BooksOnlyIsEmpty | src/app/api/content/discover/route.ts:23-24 | a books-only request succeeds with no content |
| MockDiscover.YouTubeBatch | app/api/content/discover/route.ts:60-89 | two rated youtube items |
| MockDiscover.GitHubBatch | app/api/content/discover/route.ts:91-115 | two rated github items |
| MockDiscover.WebBatch | app/api/content/discover/route.ts:117-130 | one rated web item |
| MockDiscover.MediumBatch | app/api/content/discover/route.ts:132-146 | one rated medium item |
| MockDiscover.BooksBatch | app/api/content/discover/route.ts:148-162 | one rated books item |
| MockDiscover.Batch | app/api/content/discover/route.ts:28-44 | a tag adds its batch size of items from that source; unknown tags add none |
| MockDiscover.Collect | app/api/content/discover/route.ts:27-45 | every collected item comes from a requested source and has a rating |
| MockDiscover.CollectAppend | app/api/content/discover/route.ts:27-45 | sources are handled in request order |
| MockDiscover.CollectSize | app/api/content/discover/route.ts:27-45 | the count is the sum of batch sizes, a repeated tag counting again |
| MockDiscover.Handle | app/api/content/discover/route.ts:16-58 | 500 or 400 on bad bodies; else the min(10, n) best-rated collected items, sorted by rating |
| MockDiscover.EmptySourcesSucceed | app/api/content/discover/route.ts:20-27 | an empty source list succeeds with no content |
| MockDiscover.FirstIsBest | app/api/content/discover/route.ts:48-52 | the first returned item has the highest rating of all collected |
| SaveRoute.TotalContent | src/app/api/learning-paths/save/route.ts:26 | 0 exactly when every section is empty |
| SaveRoute.TotalContentAppend | src/app/api/learning-paths/save/route.ts:26 | the item count is additive over sections |
| SaveRoute.TotalContentOfOneSection | src/app/api/learning-paths/save/route.ts:26 | a one-section trail counts that section's items |
| SaveRoute.Handle | src/app/api/learning-paths/save/route.ts:6-41 | 401 without a user, 400 on a missing field, 500 on an unreadable body or trail or a throwing insert; else the record handed to the insert: owned by the caller, every item counted, nothing done, progress 0, status "active" |
| SaveRoute.InsertFailureIs500 | src/app/api/learning-paths/save/route.ts:20-40 | a throwing insert turns exactly the requests that would have created a path into a 500; every other answer is unchanged |
| ProgressRoute.Percent | src/app/api/learning-paths/progress/route.ts:25 | 0 for no items; otherwise within one half of 100·done/total, at most 100, 100 when all done and 0 when none |
| ProgressRoute.PercentMonotone | src/app/api/learning-paths/progress/route.ts:25 | more completed items never lower the percentage |
| ProgressRoute.InPath | src/app/api/learning-paths/progress/route.ts:22 | exactly the path's rows |
| ProgressRoute.CountCompleted | src/app/api/learning-paths/progress/route.ts:24 | 0 exactly when none is done, the row count exactly when all are |
| ProgressRoute.SetCompleted | src/app/api/learning-paths/progress/route.ts:19 | rows with that id get the flag and nothing else changes |
| ProgressRoute.Recount | src/app/api/learning-paths/progress/route.ts:22-25 | completed count within the path size and progress at most 100 |
| ProgressRoute.StoreStats | src/app/api/learning-paths/progress/route.ts:28-32 | only an existing path's counters change |
| ProgressRoute.Handle | src/app/api/learning-paths/progress/route.ts:5-55 | 401, 500 or 400 before any write; a throwing flag write answers 500 with nothing written; a throwing read or counter write answers 500 with only the flag written; otherwise flag written first, then the recount stored |
| ProgressRoute.HandleAsWritten | src/app/api/learning-paths/progress/route.ts:18-53 | as written, a valid signed-in request writes the flag and the counters, then answers 500 "Failed to update progress." |
| ProgressRoute.ValidRequestFailsAfterWriting | src/app/api/learning-paths/progress/route.ts:35 | every valid request fails only after its writes are stored |
| ProgressRoute.RejectedWritesNothing | src/app/api/learning-paths/progress/route.ts:7-19 | a rejected request, or one whose flag write throws, returns no new database |
| ProgressRoute.RetryRepairsCounters | src/app/api/learning-paths/progress/route.ts:19-32 | after a failure past the flag write, sending the request again leaves what one successful request leaves |
| ProgressRoute.HandleIdempotent | src/app/api/learning-paths/progress/route.ts:18-32 | sending the same request twice leaves what sending it once left |
| ProgressRoute.InPathUnchanged | src/app/api/learning-paths/progress/route.ts:19-22 | marking an item outside the path leaves the path's rows unchanged |
| ProgressRoute.OtherPathUnchanged | src/app/api/learning-paths/progress/route.ts:19-24 | marking an item outside the path leaves its counters unchanged |
| ProgressRoute.RecountSeesNewFlag | src/app/api/learning-paths/progress/route.ts:19-24 | after marking an item of the path done, at least one item counts as done |
| Steps.InitialSteps | src/app/create/processing/page.tsx:57-90 | four pending steps: search, filter, organize, finalize |
| Steps.SetStatus | src/app/create/processing/page.tsx:123-125 | the indexed step gets the status, every other step is untouched |
| Steps.SetStatusOverwrite | src/app/create/processing/page.tsx:317-319 | the later status of a step wins; updates to different steps commute |
| Steps.TickProgress | src/app/create/processing/page.tsx:128-131 | the overall progress during step i stays within [25·i, 25·(i+1)] |
| Processing.ApplyFilter | src/app/create/processing/page.tsx:186-191 | each item is approved exactly when its id is in the list; nothing else changes |
| Processing.ApproveAll | src/app/create/processing/page.tsx:195-197 | every item approved, nothing else changes |
| Processing.FilterIgnoresForeignIds | src/app/create/processing/page.tsx:189 | approved ids absent from the content change nothing |
| Processing.FilterAllIsApproveAll | src/app/create/processing/page.tsx:186-204 | approving every id is the fallback |
| Processing.Approved | src/app/create/processing/page.tsx:208 | exactly the approved items |
| Processing.ApprovedSingle | src/app/create/processing/page.tsx:208 | one item is kept exactly when it is approved |
| Processing.ApprovedAppend | src/app/create/processing/page.tsx:208 | filtering is item by item: order and repeats are kept |
| Processing.LookupById | src/app/create/processing/page.tsx:235 | finds an item with the id exactly when one exists, and the last one when several share it |
| Processing.Place | src/app/create/processing/page.tsx:241-247 | a known id yields its item with the new description; an unknown id yields nothing |
| Processing.PlaceAll | src/app/create/processing/page.tsx:240-248 | no more items than entries |
| Processing.Reorder | src/app/create/processing/page.tsx:238-249 | no more items than the trail has entries |
| Processing.ReorderIsFlat | src/app/create/processing/page.tsx:238-249 | the section-by-section walk equals one walk over all entries |
| Processing.PlaceAllKnown | src/app/create/processing/page.tsx:239-249 | with every id known, the result lists the entries' items in trail order with their new descriptions |
| Processing.PlaceAllUnknown | src/app/create/processing/page.tsx:241-242 | unknown ids contribute nothing |
| Processing.PlaceAllFromContent | src/app/create/processing/page.tsx:235-247 | every reordered item is a content item, approved or not, with a new description |
| Processing.FallbackTrail | src/app/create/processing/page.tsx:258-261 | one "Conteúdo Recomendado" section listing the approved items in order, description or "" |
| Processing.SavePayload | src/app/create/processing/page.tsx:280-286 | the payload has every required field exactly when the topic is non-empty, and its one section counts every item |
| Processing.SavePayloadAccepted | src/app/create/processing/page.tsx:280-286 | with a topic, the save endpoint accepts the finalize payload exactly when the insert does not throw, and counts every item |
| Processing.StoreFor | src/app/create/processing/page.tsx:278-312 | the database exactly when signed in and the save succeeds, local storage otherwise |
| Processing.RunStep | src/app/create/processing/page.tsx:133-314 | filter needs content, organize needs an approved item, finalize needs content; an early return changes nothing |
| Processing.ProcessStep | src/app/create/processing/page.tsx:115-327 | step i ends completed exactly when its work finished, else processing; other steps untouched; completion only at the last step |
| Processing.EmptyContentStalls | src/app/create/processing/page.tsx:163-166 | with no content the filter and finalize steps stay processing |
| Processing.RunFrom | src/app/create/processing/page.tsx:338-347 | every step from the start index on is processing or completed, earlier ones untouched |
| Processing.RunFromStep | src/app/create/processing/page.tsx:338-347 | running from step i is running step i, then running from step i + 1 |
| Processing.StartProcessing | src/app/create/processing/page.tsx:332-350 | a started page is left alone; otherwise every step was run |
| Processing.StartProcessingAsWritten | src/app/create/processing/page.tsx:332-340 | the as-written run is latched the same way |
| Processing.StartOnce | src/app/create/processing/page.tsx:333-334 | a second start does nothing |
| Processing.OnMount | src/app/create/processing/page.tsx:352-357 | the run starts exactly when there is a topic and a source and it has not started; otherwise the page is unchanged |
| Processing.OnMountOnce | src/app/create/processing/page.tsx:352-357 | the effect firing again, with any answers, changes nothing |
| Processing.CompleteIffFinalized | src/app/create/processing/page.tsx:324-326 | the page completes exactly when the finalize step completed |
| Processing.EmptySearchNeverCompletes | src/app/create/processing/page.tsx:144-166 | an empty search leaves filter, organize and finalize processing and the page incomplete |
| Processing.AsWrittenNeverCompletes | src/app/create/processing/page.tsx:273-276 | as written, finalize sees the empty content captured at start, so no run completes |
| Processing.LiveRun | src/app/create/processing/page.tsx:134-350 | reading live content, the run follows the reference: search completes; filter completes exactly when the search found content, organize exactly when something is approved after it; the page completes, finalize completes and the path is stored exactly when organize left content, which the page then holds |
| Processing.CompletesWithContent | src/app/create/processing/page.tsx:134-327 | reading live content, a non-empty search completes all steps and stores every item approved when the filter and organize requests both fail |
| Processing.FilterAndOrganizeSucceed | src/app/create/processing/page.tsx:144-327 | when the filter approves a found item and the trail names a found item, all steps complete, the path is stored and the page holds the trail's walk over the filtered content |
| Processing.UnknownTrailStalls | src/app/create/processing/page.tsx:235-276 | a trail naming no found item empties the content: finalize stays processing, the page never completes and nothing is stored |
| Processing.NothingApprovedSkipsOrganize | src/app/create/processing/page.tsx:186-276 | a filter approving no found item leaves organize processing, yet the page completes and stores the unapproved items |
| LegacyProcessing.DemoContent | app/create/processing/page.tsx:147-191 | four rated demonstration items with ids "1" to "4" about the topic |
| LegacyProcessing.SearchContent | app/create/processing/page.tsx:133-193 | ok sets the returned content or []; not ok keeps it; an exception sets the demonstration items |
| LegacyProcessing.ProcessStep | app/create/processing/page.tsx:116-199 | the step ends completed; only the search step changes the content |
| LegacyProcessing.RunFrom | app/create/processing/page.tsx:207-211 | every step from the start index on ends completed |
| LegacyProcessing.StartProcessing | app/create/processing/page.tsx:203-216 | a started page is left alone; otherwise all steps complete and then the page does |
| LegacyProcessing.RunShowsSearchResult | app/create/processing/page.tsx:133-213 | a run ends complete, holding exactly what the search step produced |
| LegacyProcessing.StartOnce | app/create/processing/page.tsx:204-205 | a second start does nothing |
| LegacyProcessing.OnMount | app/create/processing/page.tsx:218-222 | with a topic and a source an unstarted page runs and completes; otherwise it is unchanged |
| LegacyProcessing.OnMountOnce | app/create/processing/page.tsx:218-222 | the effect firing again changes nothing |
| SourcesPage.Remove | app/create/sources/page.tsx:170 | drops every copy of the id and keeps the rest |
| SourcesPage.RemoveAbsent | app/create/sources/page.tsx:170 | removing an absent id changes nothing |
| SourcesPage.Toggle | app/create/sources/page.tsx:169-171 | a selected id is removed everywhere; another id is appended at the end |
| SourcesPage.ToggleTwice | app/create/sources/page.tsx:170 | toggling twice restores membership, and the exact list when the id was absent |
| SourcesPage.ParseAnswers | app/create/sources/page.tsx:92-95 | an array as is, an object's values, nothing when absent or unparsable |
| SourcesPage.ReadParams | app/create/sources/page.tsx:84-105 | the answers become the parsed ones when they parse; the selection is untouched |
| SourcesPage.ReadParamsSettles | app/create/sources/page.tsx:97-100 | reading the same parameters again changes nothing |
| SourcesPage.ApplySuggestions | app/create/sources/page.tsx:113-120 | with suggestions on, any recommendation list, even empty, becomes the selection; otherwise nothing changes |
| SourcesPage.GenerateInsights | app/create/sources/page.tsx:122-167 | no-op while loading; otherwise installs the insights, or the matching fallback recommending nothing |
| SourcesPage.OnAnswers | app/create/sources/page.tsx:107-111 | insights are requested exactly when there are answers, none yet and none loading; the page then holds some; otherwise it is unchanged |
| SourcesPage.OnAnswersOnce | app/create/sources/page.tsx:107-111 | insights are requested at most once, whatever the endpoint answers |
| SourcesPage.FailureClearsSelection | app/create/sources/page.tsx:146-163 | with suggestions on, a failed request empties the selection |
| SourcesPage.SuccessSelectsRecommended | app/create/sources/page.tsx:138-144 | with suggestions on, a successful request selects the recommendation |
| SourcesPage.SetUseAISuggestions | app/create/sources/page.tsx:116-119 | turning suggestions off keeps the selection |
| SourcesPage.Continue | app/create/sources/page.tsx:173-183 | no navigation exactly when nothing is selected; otherwise topic, answers and selection are passed on |
| SourcesPage.ContinueEnabledIffNavigates | app/create/sources/page.tsx:173-174 | the button is enabled exactly when continuing navigates |
| SourcesPage.CounterLabel | app/create/sources/page.tsx:326-328 | an empty selection asks for one source |
| SourcesPage.CounterLabelCount | app/create/sources/page.tsx:326-328 | a non-empty label starts with the count in digits, plural exactly above one |
| SourcesPage.CounterLabelOne | app/create/sources/page.tsx:326-328 | one source reads "1 fonte selecionada" |
| Questions.Start | app/create/questions/page.tsx:39-71 | no topic redirects home; otherwise the questions load or the endpoint's error, the default or the connection message shows |
| Questions.Answer | app/create/questions/page.tsx:73-75 | the current question's answer is set and every other entry kept |
| Questions.Next | src/app/create/questions/page.tsx:73-84 | before the last question move forward one; on it, go to source selection with topic and answers |
| Questions.Prev | src/app/create/questions/page.tsx:86-90 | move back one unless on the first question |
| Questions.NavigationKeepsRange | src/app/create/questions/page.tsx:73-90 | neither button leaves the question range |
| Questions.NextThenPrev | src/app/create/questions/page.tsx:73-90 | forward then back returns to the same question, answers intact |
| Questions.AnswerEnablesNext | app/create/questions/page.tsx:334 | answering enables the next button |
| Questions.LeavesOnlyFromLast | src/app/create/questions/page.tsx:73-84 | next leaves the questionnaire exactly on the last question |
| Questions.Progress | app/create/questions/page.tsx:178-179 | the bar is in (0, 100] and full exactly on the last question |
| Questions.ProgressGrows | app/create/questions/page.tsx:178 | moving forward moves the bar forward |
| Questions.NextLabel | src/app/create/questions/page.tsx:233 | "Finalizar" exactly on the last question |
| Questions.NextLabelTimed | app/create/questions/page.tsx:339 | "Criar Trilha" exactly on the last question |
| TimedQuestions.Click | app/create/questions/page.tsx:77-104 | a click never moves the index itself; it schedules at most one callback |
| TimedQuestions.Fire | app/create/questions/page.tsx:80-103 | the callback tests the index remembered at click time and moves the current one |
| TimedQuestions.FireFixed | app/create/questions/page.tsx:77-104 | the callback acts like an immediate next or previous on the index as it now is |
| TimedQuestions.DoubleNextLeavesRange | app/create/questions/page.tsx:80-82 | two quick next clicks on question 2 of 3 reach index 3 |
| TimedQuestions.DoublePrevLeavesRange | app/create/questions/page.tsx:98-101 | two quick previous clicks on question 2 reach index -1 |
| TimedQuestions.FixedStaysInRange | app/create/questions/page.tsx:77-104 | with the decision on the current index, no event sequence leaves the range |
| TimedQuestions.FixedAgreesWhenNotOverlapping | app/create/questions/page.tsx:77-104 | without overlapping clicks the two callbacks agree |
| Middleware.FindById | src/middleware.ts:15 | the first row with the id, or none exactly when no row has it |
| Middleware.FindByEmail | src/middleware.ts:16 | the first row with the e-mail, or none exactly when no row has it |
| Middleware.Or | src/middleware.ts:23 | the first value when it is a non-empty string, else the fallback |
| Middleware.AdoptRow | src/middleware.ts:19-29 | the e-mail row takes the provider id and the display name or its own name; other rows untouched |
| Middleware.NewRow | src/middleware.ts:30-38 | the new row has the provider id and no password hash |
| Middleware.EnsureProfile | src/middleware.ts:42-64 | a profile is added only when none exists, and a failure adds none |
| Middleware.Sync | src/middleware.ts:13-69 | a lookup failure or a user found by id leaves the database as it was; at most the user's own profile is added |
| Middleware.SyncAsWritten | src/middleware.ts:18-29 | with `updateUser` throwing, a user known only by e-mail leaves the database as it was; rows are only appended |
| Middleware.EmailOnlyNeverAdopted | src/middleware.ts:18-68 | as written, such a user is never adopted, gets no profile, and the next request takes the same branch |
| Middleware.NewUserIsCreated | src/middleware.ts:30-64 | a user unknown by id and e-mail is appended with no password and gets a profile unless the profile lookup or creation fails; a failing lookup or create writes nothing |
| Middleware.EmailMatchAdoptsRow | src/middleware.ts:18-64 | with a working update the e-mail row is adopted, so the next sync finds it by id and does nothing, and the user has a profile unless the profile lookup or creation fails; a failing lookup or update writes nothing |
| Middleware.MatchedIsProtected | src/middleware.ts:72-87 | every path the matcher admits passes the prefix test |
| Middleware.Route | src/middleware.ts:71-81 | redirect to sign-in with pathname + search exactly when signed out on a protected path |
| Middleware.Handle | src/middleware.ts:9-87 | unmatched paths pass with nothing written; on matched ones exactly the signed-out visitor is redirected and only a signed-in request syncs |
| Middleware.DecisionIgnoresSync | src/middleware.ts:66-79 | the decision never depends on the database or on which calls fail |
| Middleware.ProtectedBelow | src/middleware.ts:85-87 | every "/"-sub-path of a matched page is matched |
| Middleware.LookalikePasses | src/middleware.ts:72-87 | "/dashboardx" passes the prefix test but is not matched, so it passes with nothing written |
| Middleware.SignInIsOpen | src/middleware.ts:72-87 | the sign-in page is neither matched nor protected, so the redirect cannot loop |

## Left out

- ProgressRoute.Percent: rounds the exact rational 100·done/total. The code computes `done / total * 100` in binary floating point first, so 23 of 40 items gives 57 there rather than the exact 58. Floating point is not modelled.
- Text.Lower: maps only ASCII letters. JavaScript's `toLowerCase` also folds other letters. That makes no difference for the three difficulty labels. It does for the mock endpoint's GitHub titles and batch URLs (MockDiscover.GitHubBatch and the other batches), which lower-case the topic: "ÉTICA" becomes "ética" there but "Ética" in the model.
- Text and length computations count Unicode code points, not the UTF-16 units that `length` and `substring` count.
- Duration.ParseYouTubeDuration: reads digit runs as unbounded naturals. `parseInt` loses precision above 2^53.
- Discovery.ScoreCulturally: takes any scores from a given scorer. The code draws them at random from [0.5, 1); randomness is not modelled.
- All network calls, the quality-score formulas (floating point and the clock), the tag-stripping regular expressions and the SQL text are left out. Their results are parameters.
- MockDiscover.Handle: one timestamp stands for every `Date.now()` call of a response. The code reads the clock once per item, with awaits between batches, so ids from different batches may carry different times.
- TimedQuestions.Click: accepts `Choose` while a transition is pending, although the page shows the options only when none is; the event sequences modelled are a superset of the page's.
- URL encoding of query strings and the sign-in redirect URL, and JSON serialisation of request bodies, are left out. The model passes the values themselves.
- JSON values of unexpected types are not modelled, such as a non-string topic or an array of non-strings. Only the shapes the code tests for are.
- Discovery.DiscoverContent: `limit` is a natural number. A negative `slice` bound, which no caller passes, is not modelled.
- Discovery.ArticleItem: the search snippet is always present. The code would store `undefined` when a hit has none.
- Timers, simulated progress delays, React effect scheduling, refs and `localStorage` contents are left out. The content the steps pass to each other is one value. The timers matter only where modelled as the questionnaire's pending callbacks and the processing page's captured content.
- The processing pages' answers and sources URL parameters are taken as already parsed. Display-only state is left out: selected card, pop-ups, icons.
- Questions.Start: models only the number of questions received. Question texts, options and categories are display only.
- Middleware.Sync: the profile-service call and the local profile insert are one possible failure. The timestamps written are not modelled.
- SaveRoute.Handle: `Created(path)` is the record handed to `db.createLearningPath`, not what is stored or returned. The insert (src/lib/database/neon.ts:64-83) writes `pathData.id`, which the endpoint never supplies, and neither stores nor returns the description, progress or trail.
- ProgressRoute.Handle: an error whose message is "Unauthenticated" answers 401 (route.ts:43-47); the database faults are taken never to carry that message. The handler follows the evident intent, returning the stored counters as the path. The code reads the path back through `db.getLearningPathById`, which the database module does not define, so every valid request answers 500 after its writes. ProgressRoute.HandleAsWritten models that; see Findings.
- Middleware.AdoptRow: models the evident intent of `db.updateUser`, which the database module does not define. As written the call always throws, so no row is ever adopted. Middleware.SyncAsWritten models that; see Findings.
- Middleware.Handle: the matcher's `:path*` is read as "the page itself or any path below it after a '/'". Other path-to-regexp details, such as trailing slashes, are not modelled.

## Findings

| source | as written | input that shows it | evidently intended | confidence | as-written member | corrected member |
|---|---|---|---|---|---|---|
| app/create/questions/page.tsx:80-82 | the 300 ms callback tests the question index captured at click time, and the buttons stay enabled meanwhile | three questions, on question 2 with an answer, click "Próxima" twice within 300 ms: the index reaches 3, the question there is undefined, and reading its category at line 234 throws, so the render crashes | each click moves at most to the last question, then hands over to source selection | medium; not executed | TimedQuestions.DoubleNextLeavesRange | TimedQuestions.FixedStaysInRange |
| src/app/create/processing/page.tsx:273 | the finalize step tests the content captured when the run started, which is always empty | any topic and source, with the discover endpoint returning items | the found path is saved and the page reports completion whenever the content left after organize is non-empty: with the filter approving a found item and the trail naming one, or with both requests failing; a trail naming no found item still leaves nothing to save | medium; not executed | Processing.AsWrittenNeverCompletes | Processing.LiveRun |
| src/middleware.ts:21 | `db.updateUser` is not defined in the database module, so the call throws; the catch at lines 66-68 swallows it | a signed-in user whose e-mail matches a row with a different id | the row takes the provider's id, a profile is created, and later requests find the user by id | high; not executed | Middleware.EmailOnlyNeverAdopted | Middleware.EmailMatchAdoptsRow |
| src/app/api/learning-paths/progress/route.ts:35 | `db.getLearningPathById` is not defined in the database module, so the call throws after both writes and the catch answers 500 | any signed-in request with a content id, a path id and a completion flag | the updated path is returned with status 200 | high; not executed | ProgressRoute.HandleAsWritten | ProgressRoute.Handle |
