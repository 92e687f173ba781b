# Diary movie recommender — a Dafny model

The system has two halves. A React page lets a person write a diary entry and
get up to three movies picked for the emotion it expresses (a random emotion when the analysis
falls back), or search movies by title.
Either way, the person can open a detail overlay for one movie. A FastAPI
backend asks a language model for the diary's emotion and maps that emotion
to movie genres. It collects candidate movies from TMDB's discover listing,
removes duplicates, falls back to the popular listing when short, and picks at
random. It also filters title searches by vote count and vote average.

The model has six modules:

- `Wrappers`: the `Option` type.
- `Text`: JavaScript `trim()` and Python `strip()`, each with its own whitespace set, plus `join`.
- `MovieDetail`: the detail overlay's derivations from a movie record (director, top cast,
  Korean watch providers, logo addresses, runtime/genre/overview lines) and the events that close it.
- `PageState`: the page's thirteen state variables as a value. Each handler is a step
  function; each asynchronous handler is split into its synchronous start and its completion.
  The module also has the display conditions of the result lists and notices, and lemmas about
  single steps and whole runs of user actions and responses.
- `AppPage`: the page as a class with those thirteen fields. Each handler is a method that
  assigns the fields and is specified by the matching `PageState` step.
- `Backend`: the two endpoints, emotion classification, page-by-page collection, de-duplication,
  the popular fallback, the random selection and the search filter. Remote calls are oracles:
  `None` stands for a request error. Random choices are nondeterministic choices.

The model follows the code as written, including where it does less than one would expect:

- No response is ever discarded as stale. A late search response overwrites a newer one
  (`StaleSearchResponseApplied`), and a detail that arrives after the overlay was closed reopens
  it (`LateDetailReopensOverlay`).
- Starting a search does not clear the diary text.
- Neither workflow resets the other's attempt flag (`hasRecommended`, `hasSearched`), so after
  switching workflows the other one's "no results" notice shows (see Findings).
- The two result lists stay exclusive only while requests do not overlap
  (`SequentialRunsExclusive`). Pressing Enter in the search box starts a search while a
  recommendation loads, and then both lists can end up non-empty (`InterleavedRequestsOverlap`).

## Model

| member | source | states |
|---|---|---|
| Text.TrimEmptyIffAllSpace | frontend/src/App.js:160 | a string trims to empty exactly when every character is whitespace, so the blank-input tests reject exactly the all-whitespace inputs |
| Text.TrimStartIsSuffix | frontend/src/App.js:160 | trimming the front removes only a whitespace prefix and leaves a slice not starting with whitespace |
| Text.TrimEndIsPrefix | backend/main.py:165 | trimming the back removes only a whitespace suffix and leaves a slice not ending with whitespace |
| Text.JoinEmptyIff | frontend/src/MovieDetailModal.js:24 | with a non-empty separator, a join is empty only for no parts or one empty part |
| Text.JoinLength | frontend/src/MovieDetailModal.js:24 | the joined length is the parts' lengths plus one separator between neighbours |
| MovieDetail.FirstWithJob | frontend/src/MovieDetailModal.js:23 | the index of the first crew entry with the job, or none exactly when no entry has it |
| MovieDetail.Director | frontend/src/MovieDetailModal.js:23 | the director is the first crew entry whose job is "Director"; absent iff there are no credits or no such entry |
| MovieDetail.TopCast | frontend/src/MovieDetailModal.js:24 | the names of the first min(3, n) cast entries, in billing order |
| MovieDetail.TopActorsOfFour | frontend/src/MovieDetailModal.js:24 | four cast entries A, B, C, D give the line "A, B, C" |
| MovieDetail.CastLineShownIff | frontend/src/MovieDetailModal.js:78-83 | the cast line shows iff credits exist and the cast has two or more entries, or one with a non-empty name |
| MovieDetail.KrProviders | frontend/src/MovieDetailModal.js:27 | the KR entry is present exactly when the record has a provider object with a results map holding the key "KR", and it is that map's entry |
| MovieDetail.ProviderList | frontend/src/MovieDetailModal.js:27-30 | subscription, purchase and rental read the KR entry's `flatrate`, `buy` and `rent`; a missing provider object, results map, KR entry or list gives the empty list, and a present list is taken as is |
| MovieDetail.LogoUrl | frontend/src/MovieDetailModal.js:33-35 | the logo address is empty iff the path is absent or empty, otherwise the original-size base followed by the path |
| MovieDetail.Block | frontend/src/MovieDetailModal.js:93-137 | a category block has one logo address and one name per provider of that category, in order |
| MovieDetail.ProviderSectionShownIff | frontend/src/MovieDetailModal.js:87 | the provider section shows iff at least one of the three lists is non-empty |
| MovieDetail.ProviderBlocksShownIff | frontend/src/MovieDetailModal.js:93-137 | in a shown section a category has a block iff its own list is non-empty |
| MovieDetail.ProviderBlocksOrdered | frontend/src/MovieDetailModal.js:93-137 | the blocks come in the order subscription, purchase, rental |
| MovieDetail.ProviderLinkShownIff | frontend/src/MovieDetailModal.js:138-144 | in a shown section the "more viewing information" link shows iff the KR entry's link is truthy |
| MovieDetail.LinkOnlyInsideSection | frontend/src/MovieDetailModal.js:138-146 | without a non-empty list there is no section, so no link either |
| MovieDetail.RuntimeLine | frontend/src/MovieDetailModal.js:60-65 | the runtime line shows iff the runtime is present and non-zero, and it carries that runtime |
| MovieDetail.ZeroRuntimeRendersStrayText | frontend/src/MovieDetailModal.js:60 | as written, a runtime of 0 renders a stray "0" |
| MovieDetail.RuntimeSlotsDifferOnlyAtZero | frontend/src/MovieDetailModal.js:60-65 | the rendered runtime slot and the intended one differ exactly for a runtime of 0 |
| MovieDetail.Render | frontend/src/MovieDetailModal.js:21 | no movie renders nothing, and a movie always renders a view |
| MovieDetail.ViewLines | frontend/src/MovieDetailModal.js:51-83 | overview falls back to the fixed notice; the rating is "N/A" exactly for an absent or zero average, and the vote count is shown as received; genres only when non-empty, as their names joined by ", "; director line is the first director's name; the runtime line carries a non-zero runtime, and a runtime of 0 shows as a stray "0"; cast only when truthy |
| MovieDetail.DismissalsCloseOnce | frontend/src/MovieDetailModal.js:6-11 | Escape, the × button and a background click each close once; a content click or another key does not close |
| MovieDetail.InlineModalIgnoresEscape | frontend/src/App.js:5-25 | the inline copy that the page renders has no key listener, so Escape does not close it |
| PageState.BlankDiaryOnlySetsError | frontend/src/App.js:159-163 | a blank diary only sets "일기를 작성해주세요." and sends nothing |
| PageState.StartRecommendResets | frontend/src/App.js:165-173 | a sent recommendation clears both lists, emotion, reason, error and overlay; sets loading and the attempt flag; keeps both inputs |
| PageState.CompleteRecommendEffects | frontend/src/App.js:184-198 | loading always ends; success stores movies, emotion and reason; failure stores the prefixed detail or the fallback text |
| PageState.BlankQueryOnlySetsError | frontend/src/App.js:201-205 | a blank query only sets "검색어를 입력해주세요." and sends nothing |
| PageState.StartSearchResets | frontend/src/App.js:207-213 | a sent search clears both lists, emotion, reason and error; sets searching and the attempt flag; keeps the diary and the overlay |
| PageState.CompleteSearchEffects | frontend/src/App.js:215-228 | searching always ends; success stores exactly the results; failure keeps the list and sets the prefixed message |
| PageState.CardClickEffects | frontend/src/App.js:231-246 | a card click clears the error; success opens the overlay on the details; failure leaves the overlay alone and sets the prefixed message |
| PageState.FailureMessagesPrefixed | frontend/src/App.js:195 | every failure message is non-empty and starts with its handler's prefix |
| PageState.ClosePathsAgree | frontend/src/App.js:23-25 | on the page's open overlay, exactly the × button and a background click close it, hiding it and forgetting the movie; a content click and every key, Escape included, change nothing |
| PageState.InitialShowsNothing | frontend/src/App.js:144-157 | the initial page shows no list, no notice (the search notice as written at App.js:297) and no overlay |
| PageState.ListAndNoticeExclusive | frontend/src/App.js:297-325 | a list and its "no results" notice, the search notice as written, never show together, and neither shows while its request loads |
| PageState.EmptySearchShowsNotice | frontend/src/App.js:297-299 | a successful search with zero results shows the notice, not nothing |
| PageState.RecommendationPopulates | frontend/src/App.js:325-327 | a successful non-empty recommendation shows its list and emotion, with no error and no recommendation notice (App.js:321) |
| PageState.FailedRecommendationHidesItsNotice | frontend/src/App.js:321 | a failed recommendation shows its error, and no recommendation notice (App.js:321) and no recommended list |
| PageState.FailedSearchShowsNoticeAsWritten | frontend/src/App.js:297 | as written, a failed search shows its error and also the "no results" notice |
| PageState.FailedSearchShowsOnlyError | frontend/src/App.js:297 | with an error guard like the recommendation notice's, a failed search shows only its error |
| PageState.ApplyKeepsConsistent | frontend/src/App.js:159-251 | every action keeps the page consistent: an open overlay has a movie, and a running request has an empty list and a recorded attempt |
| PageState.ReachableConsistent | frontend/src/App.js:350 | every reachable page is consistent, so an open overlay always renders a movie |
| PageState.SequentialIsFeasible | frontend/src/App.js:277 | a run where each request completes before the next starts is a possible run |
| PageState.SequentialStepKeepsExclusive | frontend/src/App.js:165-213 | a non-overlapping step keeps at most one result list non-empty |
| PageState.SequentialRunsExclusive | frontend/src/App.js:166-171 | along any non-overlapping run from the initial page, the two result lists are never both non-empty |
| PageState.SequentialRunKeepsInvariant | frontend/src/App.js:208-211 | the exclusivity invariant holds after any non-overlapping run |
| PageState.OverlappingRequests | frontend/src/App.js:264-266 | from any idle page with both inputs filled in, a search submitted while a recommendation loads, both succeeding, leaves both lists non-empty |
| PageState.InterleavedRequestsOverlap | frontend/src/App.js:264 | the same happens on a concrete run from the initial page: type both inputs, recommend, press Enter, both succeed |
| PageState.RunAppend | frontend/src/App.js:159-251 | running two sequences of actions one after the other is running their concatenation |
| PageState.StaleSearchResponseApplied | frontend/src/App.js:222 | when two searches overlap, the response that arrives last is kept even if its request was first |
| PageState.LateDetailReopensOverlay | frontend/src/App.js:240-241 | a detail that arrives after the overlay was closed opens it again |
| PageState.SearchAfterRecommendShowsRecommendNotice | frontend/src/App.js:207-213 | as written, a search after a recommendation keeps the recommendation attempt flag and empties its list, so the recommendation's "no results" notice shows while the search loads and beside its results |
| PageState.RecommendAfterSearchShowsSearchNotice | frontend/src/App.js:165-173 | as written, a recommendation after a search keeps the search attempt flag and empties its list, so the search's "no results" notice shows above the recommended list, or beside the error when the recommendation fails |
| PageState.IntendedRecommendHidesSearchNotice | frontend/src/App.js:165-173 | a recommend start that also forgets the search attempt hides the search notice from the start and after either outcome, and otherwise agrees with the written step |
| PageState.IntendedSearchHidesRecommendNotice | frontend/src/App.js:207-213 | a search start that also forgets the recommendation attempt hides the recommendation notice from the start and after either outcome, and otherwise agrees with the written step |
| AppPage.App.constructor | frontend/src/App.js:144-157 | all thirteen state variables start at their initial values |
| AppPage.App.SetDiary | frontend/src/App.js:275 | the diary box's change handler replaces only the diary |
| AppPage.App.SetSearchQuery | frontend/src/App.js:263 | the search box's change handler replaces only the query |
| AppPage.App.StartRecommend | frontend/src/App.js:159-173 | the new state is the recommend start step of the old one, and the page stays consistent |
| AppPage.App.CompleteRecommend | frontend/src/App.js:184-198 | the new state is the recommend completion step; loading is off |
| AppPage.App.StartSearch | frontend/src/App.js:201-213 | the new state is the search start step of the old one |
| AppPage.App.CompleteSearch | frontend/src/App.js:215-228 | the new state is the search completion step; searching is off |
| AppPage.App.StartCardClick | frontend/src/App.js:231-232 | the card click clears only the error |
| AppPage.App.CompleteCardClick | frontend/src/App.js:233-245 | the new state is the detail completion step, and an open overlay always has a view to render |
| AppPage.App.CloseModal | frontend/src/App.js:248-251 | closing hides the overlay and forgets the movie |
| AppPage.App.OnOverlayEvent | frontend/src/App.js:23-25 | an event on the page's open overlay closes it exactly when it is a click on the × button or the background, and otherwise changes nothing; the inline overlay has no key listener; an open overlay always has a view to render |
| Backend.EmotionTablesAgree | backend/main.py:45-66 | both tables have the same eight emotions, which are the keys offered to the model |
| Backend.AnalyzeEmotion | backend/main.py:71-87 | an answer text always yields a known emotion, and the stripped text itself when it is one; a quota error yields none; any other failure is a 500 error |
| Backend.PagesConsultOnlyRange | backend/main.py:110 | only pages 1 to 10 of a listing are consulted |
| Backend.PagesStopAtEmpty | backend/main.py:116-122 | no page after an empty or failing page is consulted |
| Backend.FetchPages | backend/main.py:110-122 | the page loop collects exactly the concatenated pages before the first empty or failing one |
| Backend.CollectedKeepsPrefix | backend/main.py:117 | collection only appends: what was collected before stays in front |
| Backend.CollectedStops | backend/main.py:104-107 | a collection that ends under the threshold took every genre's pages, in genre order |
| Backend.CollectionMayOvershoot | backend/main.py:106 | the threshold is checked only between genres, so one genre can bring in more movies than it |
| Backend.Collect | backend/main.py:104-122 | the genre loop computes the collection with the threshold of three times the count |
| Backend.UnseenDistinct | backend/main.py:125-130 | de-duplication keeps pairwise distinct ids, none of them already seen |
| Backend.UnseenIds | backend/main.py:127-130 | every id of the input that was not already seen is kept |
| Backend.UnseenIsSubsequence | backend/main.py:127-130 | de-duplication keeps the input's order |
| Backend.UnseenKeepsFirstOccurrences | backend/main.py:128-130 | the first occurrence of each new id is the one kept |
| Backend.AppendUnseen | backend/main.py:127-130 | the de-duplication loop appends exactly the unseen first occurrences and records all ids |
| Backend.Sample | backend/main.py:160 | sampling draws exactly k entries without replacement, and distinct ids stay distinct |
| Backend.CandidatesDistinct | backend/main.py:133-154 | the candidates have distinct ids; the fallback only appends, and only when fewer than the count were collected |
| Backend.RepeatedListingGivesOneCandidate | backend/test_main.py:49-50 | when every listing page holds the same movie, that movie is the only candidate |
| Backend.GetMovieRecommendation | backend/main.py:89-160 | one of the three sort orders is used; min(count, candidates) distinct candidates are returned, and none only when there are no candidates |
| Backend.RecommendMovie | backend/main.py:163-190 | blank diary gives 400; analysis failure gives 500; no candidates gives 404; otherwise 1 to 3 distinct movies drawn from the candidates collected for the emotion's genres, plus the popular fallback, with that emotion's reason and the quota marker exactly on a quota error |
| Backend.QualityFilterSpec | backend/main.py:207 | the filter keeps exactly the movies with at least 50 votes and an average of at least 6.0, in order; a missing field counts as 0 |
| Backend.SearchMovies | backend/main.py:192-212 | blank query gives 400; request error gives 500; otherwise the passing results, in order and each as often as received |

## Left out

- Network, environment and process: the HTTP requests, JSON parsing, CORS, API keys, the prompt's
  wording and logging. Each remote answer is an input of the model.
- The movie-details endpoint (backend/main.py:214-224) only passes the record through. It is modelled
  as the `Outcome` that the card click receives.
- Markup, images, poster addresses, placeholder images and CSS are not modelled.
- MovieDetail.Render: the rating line's `toFixed(1)` rounding is not modelled, because it needs
  floating point. The view carries the unrounded average, or "N/A" for an absent or zero average.
- Backend.SearchMovies: a vote field present as JSON `null` makes the comparison at
  backend/main.py:207 raise a `TypeError`, which the handler does not catch. The model has no
  `null` case and treats such a field like an absent one, counted as 0 (`Backend.GoodEnough`).
- A body on a failed response that is not JSON, and a `detail` that is not a string, are both
  modelled as `Thrown` with some message.
- A search reply without a `results` key, and credits without `crew` or `cast`, raise exceptions in
  the source. The model's types always carry these fields.
- React batches state updates and re-renders asynchronously. The model applies each handler's
  synchronous part atomically, so a second click landing before the re-render disables the button
  is not modelled. This is why `StartRecommend` requires `!isLoading`.
- Unicode: characters are code points. UTF-16 surrogates and normalisation are not modelled.
- Backend.Sample: the uniform distribution of `random.sample` is not captured. Any choice of
  positions is allowed.
- Backend.AnalyzeEmotion: the uniform distribution of `random.choice` is not captured. Any emotion
  is allowed.
- Backend.RecommendMovie: the movies' JSON fields other than id, title and votes are not carried.

## Findings

| source | as written | input that shows it | evidently intended | confidence | as-written member | corrected member |
|---|---|---|---|---|---|---|
| frontend/src/App.js:297 | the search "no results" notice has no error guard | a search whose request fails: the error and "검색 결과가 없습니다." both show | hide the notice while an error shows, as the recommendation notice does at App.js:321 | high, not executed | PageState.FailedSearchShowsNoticeAsWritten | PageState.FailedSearchShowsOnlyError |
| frontend/src/MovieDetailModal.js:60 | `movie.runtime && (...)` renders the number itself when it is 0 | a movie record with runtime 0 shows a stray "0" in the info group | show nothing for a zero runtime | high, not executed | MovieDetail.ZeroRuntimeRendersStrayText | MovieDetail.RuntimeLine |
| frontend/src/App.js:5-25 | the page renders its own inline copy of the modal, which has no Escape listener; the standalone component with the listener is never imported | pressing Escape while the overlay is open leaves it open | Escape closes the overlay, as MovieDetailModal.js:6-11 does | medium, not executed | MovieDetail.InlineModalIgnoresEscape | MovieDetail.DismissalsCloseOnce |
| frontend/src/App.js:207-213 | starting a search empties the recommended list but keeps `hasRecommended` | recommend, then search with the diary still filled in: "추천할 영화를 찾지 못했습니다. 다른 일기를 작성해보세요." shows while the search loads and beside its results | a search also clears the recommendation attempt, so only one workflow's output shows | medium, not executed | PageState.SearchAfterRecommendShowsRecommendNotice | PageState.IntendedSearchHidesRecommendNotice |
| frontend/src/App.js:165-173 | starting a recommendation empties the search list but keeps `hasSearched` | search, then recommend with the query still filled in: "검색 결과가 없습니다." shows above the recommended list, or beside the error when the recommendation fails | a recommendation also clears the search attempt, so only one workflow's output shows | medium, not executed | PageState.RecommendAfterSearchShowsSearchNotice | PageState.IntendedRecommendHidesSearchNotice |
