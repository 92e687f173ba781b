/**
 * The page's state and how each handler changes it, as values. Every handler
 * that fetches is split in two: `Start...` is the synchronous part up to the
 * request, `Complete...` applies the request's outcome (the `try`, `catch`
 * and `finally` parts). The class in AppPage performs the same steps field by
 * field and is specified by these functions; the lemmas here are about
 * single steps, about the derived display conditions, and about whole runs.
 */
module PageState {
  import opened Wrappers
  import opened Text
  import MovieDetail

  /** A movie card of either result list. */
  datatype MovieSummary = MovieSummary(id: int, title: string, overview: Option<string>, posterPath: Option<string>)

  /** Body of a successful recommendation response. */
  datatype Recommendation = Recommendation(emotion: string, reason: string, movies: seq<MovieSummary>)

  /** Body of a successful search response. */
  datatype SearchReply = SearchReply(results: seq<MovieSummary>)

  /**
   * Why a request failed: a non-success response whose body may carry a
   * `detail`, or an exception thrown on the way (the fetch rejected, or the
   * body was not JSON) with its own message.
   */
  datatype Failure = HttpError(detail: Option<string>) | Thrown(message: string)

  datatype Outcome<T> = Ok(payload: T) | Err(failure: Failure)

  /** The page component's thirteen state variables. */
  datatype Page = Page(
    diary: string,
    movies: seq<MovieSummary>,
    emotion: string,
    reason: string,
    isLoading: bool,
    selectedMovie: Option<MovieDetail.Movie>,
    showModal: bool,
    errorMessage: string,
    hasRecommended: bool,
    searchQuery: string,
    searchResults: seq<MovieSummary>,
    isSearching: bool,
    hasSearched: bool)

  const Initial: Page := Page("", [], "", "", false, None, false, "", false, "", [], false, false)

  const EmptyDiaryMessage: string := "일기를 작성해주세요."
  const EmptyQueryMessage: string := "검색어를 입력해주세요."
  const RecommendErrorPrefix: string := "영화 추천 중 오류 발생: "
  const RecommendFallback: string := "서버에서 응답을 받지 못했습니다."
  const SearchErrorPrefix: string := "영화 검색 중 오류 발생: "
  const SearchFallback: string := "영화 검색에 실패했습니다."
  const DetailErrorPrefix: string := "영화 상세 정보를 불러오는 중 오류 발생: "
  const DetailFallback: string := "영화 상세 정보를 가져오지 못했습니다."

  /** The message of the error a failed request throws: the server's detail when truthy, else the fallback. */
  function FailureText(f: Failure, fallback: string): string {
    match f
    case HttpError(detail) => if MovieDetail.Truthy(detail) then detail.value else fallback
    case Thrown(message) => message
  }

  // ---------------------------------------------------------------- transitions

  function EditDiary(p: Page, text: string): Page { p.(diary := text) }

  function EditQuery(p: Page, text: string): Page { p.(searchQuery := text) }

  /**
   * Whether starting a recommendation issues the request: the diary is not
   * all whitespace, which is exactly when its `trim()` is non-empty
   * (TrimEmptyIffAllSpace).
   */
  predicate RecommendSent(p: Page) { !AllSpace(p.diary, IsJsSpace) }

  /** The recommend button is disabled while a recommendation is loading. */
  function StartRecommend(p: Page): Page
    requires !p.isLoading
  {
    if !RecommendSent(p) then p.(errorMessage := EmptyDiaryMessage)
    else p.(isLoading := true, movies := [], emotion := "", reason := "", selectedMovie := None,
            showModal := false, searchResults := [], errorMessage := "", hasRecommended := true)
  }

  /** The one recommendation in flight completes. */
  function CompleteRecommend(p: Page, o: Outcome<Recommendation>): Page
    requires p.isLoading
  {
    match o
    case Ok(r) => p.(movies := r.movies, emotion := r.emotion, reason := r.reason, isLoading := false)
    case Err(f) => p.(errorMessage := RecommendErrorPrefix + FailureText(f, RecommendFallback), isLoading := false)
  }

  /** Whether starting a search issues the request: the query is not all whitespace, i.e. its `trim()` is non-empty. */
  predicate SearchSent(p: Page) { !AllSpace(p.searchQuery, IsJsSpace) }

  /** The Enter key starts a search even while one is in flight, so there is no precondition. */
  function StartSearch(p: Page): Page {
    if !SearchSent(p) then p.(errorMessage := EmptyQueryMessage)
    else p.(isSearching := true, movies := [], emotion := "", reason := "", searchResults := [],
            errorMessage := "", hasSearched := true)
  }

  /** Some search completes; nothing checks that it is the latest one. */
  function CompleteSearch(p: Page, o: Outcome<SearchReply>): Page {
    match o
    case Ok(r) => p.(searchResults := r.results, isSearching := false)
    case Err(f) => p.(errorMessage := SearchErrorPrefix + FailureText(f, SearchFallback), isSearching := false)
  }

  function StartCardClick(p: Page): Page { p.(errorMessage := "") }

  function CompleteCardClick(p: Page, o: Outcome<MovieDetail.Movie>): Page {
    match o
    case Ok(d) => p.(selectedMovie := Some(d), showModal := true)
    case Err(f) => p.(errorMessage := DetailErrorPrefix + FailureText(f, DetailFallback))
  }

  function CloseModal(p: Page): Page { p.(showModal := false, selectedMovie := None) }

  /**
   * An event on the open overlay. The page renders its inline copy of the
   * overlay, which has no key listener: its close paths are the close button
   * and the background, and both go through the same `CloseModal`.
   */
  function ModalEvent(p: Page, e: MovieDetail.ModalEvent): Page {
    if MovieDetail.InlineCloseCalls(e) > 0 then CloseModal(p) else p
  }

  // ---------------------------------------------------------------- display conditions

  /** The search "no results" notice as written: it does not look at the error message. */
  predicate SearchNoticeAsWritten(p: Page) {
    !p.isSearching && p.hasSearched && |p.searchResults| == 0 && JsTrim(p.searchQuery) != ""
  }

  /** The search "no results" notice, hidden while an error is shown as the recommendation notice is. */
  predicate SearchNoResultsShown(p: Page) {
    SearchNoticeAsWritten(p) && p.errorMessage == ""
  }

  predicate SearchResultsShown(p: Page) { |p.searchResults| > 0 && !p.isSearching }

  predicate RecommendNoResultsShown(p: Page) {
    !p.isLoading && p.hasRecommended && |p.movies| == 0 && JsTrim(p.diary) != "" && p.errorMessage == ""
  }

  predicate RecommendResultsShown(p: Page) { |p.movies| > 0 && !p.isLoading }

  /** What the overlay shows: nothing unless `showModal`, and nothing for no movie. */
  function ModalView(p: Page): Option<MovieDetail.DetailView> {
    if p.showModal then MovieDetail.Render(p.selectedMovie) else None
  }

  // ---------------------------------------------------------------- single steps

  /** A blank diary only sets the error message and issues no request. */
  lemma BlankDiaryOnlySetsError(p: Page)
    requires !p.isLoading && JsTrim(p.diary) == ""
    ensures !RecommendSent(p)
    ensures StartRecommend(p) == p.(errorMessage := EmptyDiaryMessage)
  {
    TrimEmptyIffAllSpace(p.diary, IsJsSpace);
  }

  /**
   * A recommendation that is sent clears both result lists, the emotion, the
   * reason, the error and the overlay, marks loading and the attempt, and
   * keeps both inputs and the search attempt flag.
   */
  lemma StartRecommendResets(p: Page)
    requires !p.isLoading && JsTrim(p.diary) != ""
    ensures RecommendSent(p)
    ensures var q := StartRecommend(p);
      && q.movies == [] && q.emotion == "" && q.reason == "" && q.searchResults == [] && q.errorMessage == ""
      && q.selectedMovie.None? && !q.showModal && q.isLoading && q.hasRecommended
      && q.diary == p.diary && q.searchQuery == p.searchQuery && q.hasSearched == p.hasSearched
      && q.isSearching == p.isSearching
  {
    TrimEmptyIffAllSpace(p.diary, IsJsSpace);
  }

  /**
   * A recommendation always ends with loading off; a success stores the
   * payload, a failure stores the prefixed message and leaves the results
   * empty.
   */
  lemma CompleteRecommendEffects(p: Page, o: Outcome<Recommendation>)
    requires p.isLoading && p.movies == []
    ensures var q := CompleteRecommend(p, o);
      && !q.isLoading
      && (o.Ok? ==> q.movies == o.payload.movies && q.emotion == o.payload.emotion && q.reason == o.payload.reason)
      && (o.Err? ==> q.movies == [] && q.errorMessage == RecommendErrorPrefix + FailureText(o.failure, RecommendFallback))
      && (o.Err? && o.failure.HttpError? && !MovieDetail.Truthy(o.failure.detail) ==>
            q.errorMessage == RecommendErrorPrefix + RecommendFallback)
  {
  }

  /** A blank query only sets the error message and issues no request. */
  lemma BlankQueryOnlySetsError(p: Page)
    requires JsTrim(p.searchQuery) == ""
    ensures !SearchSent(p)
    ensures StartSearch(p) == p.(errorMessage := EmptyQueryMessage)
  {
    TrimEmptyIffAllSpace(p.searchQuery, IsJsSpace);
  }

  /** A search that is sent clears both result lists and the error, and leaves the overlay and recommendation flag alone. */
  lemma StartSearchResets(p: Page)
    requires JsTrim(p.searchQuery) != ""
    ensures SearchSent(p)
    ensures var q := StartSearch(p);
      && q.movies == [] && q.emotion == "" && q.reason == "" && q.searchResults == [] && q.errorMessage == ""
      && q.isSearching && q.hasSearched
      && q.showModal == p.showModal && q.selectedMovie == p.selectedMovie && q.hasRecommended == p.hasRecommended
      && q.diary == p.diary && q.isLoading == p.isLoading
  {
    TrimEmptyIffAllSpace(p.searchQuery, IsJsSpace);
  }

  /** A search always ends with searching off; a success stores exactly the reply's results. */
  lemma CompleteSearchEffects(p: Page, o: Outcome<SearchReply>)
    ensures var q := CompleteSearch(p, o);
      && !q.isSearching
      && (o.Ok? ==> q.searchResults == o.payload.results && q.errorMessage == p.errorMessage)
      && (o.Err? ==> (q.searchResults == p.searchResults
            && q.errorMessage == SearchErrorPrefix + FailureText(o.failure, SearchFallback)))
  {
  }

  /**
   * A card click first clears the error; a success opens the overlay on the
   * details, a failure leaves the overlay as it was and sets a prefixed error.
   */
  lemma CardClickEffects(p: Page, o: Outcome<MovieDetail.Movie>)
    ensures var q := CompleteCardClick(StartCardClick(p), o);
      && (o.Ok? ==> q.showModal && q.selectedMovie == Some(o.payload) && q.errorMessage == "")
      && (o.Err? ==> (q.showModal == p.showModal && q.selectedMovie == p.selectedMovie
            && q.errorMessage == DetailErrorPrefix + FailureText(o.failure, DetailFallback)))
      && q.movies == p.movies && q.searchResults == p.searchResults
  {
  }

  /** Every failure message is non-empty and begins with its handler's prefix. */
  lemma FailureMessagesPrefixed(f: Failure)
    ensures var m := RecommendErrorPrefix + FailureText(f, RecommendFallback);
      m != "" && m[..|RecommendErrorPrefix|] == RecommendErrorPrefix
    ensures var m := SearchErrorPrefix + FailureText(f, SearchFallback);
      m != "" && m[..|SearchErrorPrefix|] == SearchErrorPrefix
    ensures var m := DetailErrorPrefix + FailureText(f, DetailFallback);
      m != "" && m[..|DetailErrorPrefix|] == DetailErrorPrefix
  {
  }

  /**
   * On the open overlay, exactly the close button and the background close
   * it, hiding it and forgetting the movie; a click on the content and any
   * key, Escape included, leave the page as it was.
   */
  lemma ClosePathsAgree(p: Page, e: MovieDetail.ModalEvent)
    requires p.showModal
    ensures ModalEvent(p, e) == CloseModal(p) <==>
      e == MovieDetail.Click(MovieDetail.CloseButton) || e == MovieDetail.Click(MovieDetail.Overlay)
    ensures ModalEvent(p, e) != CloseModal(p) ==> ModalEvent(p, e) == p
    ensures e == MovieDetail.Click(MovieDetail.CloseButton) || e == MovieDetail.Click(MovieDetail.Overlay) ==>
      !ModalEvent(p, e).showModal && ModalEvent(p, e).selectedMovie.None? && ModalView(ModalEvent(p, e)).None?
    ensures e.KeyDown? || e == MovieDetail.Click(MovieDetail.Content) ==> ModalEvent(p, e) == p
  {
  }

  // ---------------------------------------------------------------- display lemmas

  /** Before anything happens neither workflow shows a list or a notice. */
  lemma InitialShowsNothing()
    ensures !SearchNoticeAsWritten(Initial) && !SearchResultsShown(Initial)
    ensures !RecommendNoResultsShown(Initial) && !RecommendResultsShown(Initial)
    ensures ModalView(Initial).None?
  {
  }

  /** A list and its "no results" notice are never shown together, and neither shows while loading. */
  lemma ListAndNoticeExclusive(p: Page)
    ensures !(SearchNoticeAsWritten(p) && SearchResultsShown(p))
    ensures !(RecommendNoResultsShown(p) && RecommendResultsShown(p))
    ensures p.isSearching ==> !SearchNoticeAsWritten(p) && !SearchResultsShown(p)
    ensures p.isLoading ==> !RecommendNoResultsShown(p) && !RecommendResultsShown(p)
  {
  }

  /** A successful search with no results shows the notice, not nothing: distinct from never having searched. */
  lemma EmptySearchShowsNotice(p: Page)
    requires !AllSpace(p.searchQuery, IsJsSpace)
    ensures var q := CompleteSearch(StartSearch(p), Ok(SearchReply([])));
      SearchNoResultsShown(q) && !SearchResultsShown(q)
  {
    TrimEmptyIffAllSpace(p.searchQuery, IsJsSpace);
  }

  /**
   * A successful non-empty recommendation shows its list and emotion with no
   * error and without its own "no results" notice; the search notice is not
   * covered here (see RecommendAfterSearchShowsSearchNotice).
   */
  lemma RecommendationPopulates(p: Page, r: Recommendation)
    requires !p.isLoading && RecommendSent(p) && |r.movies| > 0
    ensures var q := CompleteRecommend(StartRecommend(p), Ok(r));
      RecommendResultsShown(q) && q.emotion == r.emotion && q.errorMessage == "" && !RecommendNoResultsShown(q)
  {
  }

  /**
   * A failed recommendation shows its error, and the error guard hides its own
   * "no results" notice and its list; the search notice may still show
   * (see RecommendAfterSearchShowsSearchNotice).
   */
  lemma FailedRecommendationHidesItsNotice(p: Page, f: Failure)
    requires !p.isLoading && RecommendSent(p)
    ensures var q := CompleteRecommend(StartRecommend(p), Err(f));
      q.errorMessage != "" && !RecommendNoResultsShown(q) && !RecommendResultsShown(q)
  {
  }

  /** As written, a failed search shows its error and also the "no results" notice. */
  lemma FailedSearchShowsNoticeAsWritten(p: Page, f: Failure)
    requires !AllSpace(p.searchQuery, IsJsSpace)
    ensures var q := CompleteSearch(StartSearch(p), Err(f));
      q.errorMessage != "" && SearchNoticeAsWritten(q)
  {
    TrimEmptyIffAllSpace(p.searchQuery, IsJsSpace);
  }

  /** With the error guard, a failed search shows only its error. */
  lemma FailedSearchShowsOnlyError(p: Page, f: Failure)
    requires !AllSpace(p.searchQuery, IsJsSpace)
    ensures var q := CompleteSearch(StartSearch(p), Err(f));
      q.errorMessage != "" && !SearchNoResultsShown(q) && !SearchResultsShown(q)
  {
    TrimEmptyIffAllSpace(p.searchQuery, IsJsSpace);
  }

  // ---------------------------------------------------------------- the other workflow's notice

  /**
   * As written, a search started after a recommendation keeps `hasRecommended`
   * and empties the recommended list, so with the diary still filled in the
   * recommendation's "no results" notice shows while the search loads and
   * beside its results.
   */
  lemma SearchAfterRecommendShowsRecommendNotice(p: Page, r: Recommendation, sr: SearchReply)
    requires !p.isLoading && RecommendSent(p) && SearchSent(p)
    ensures var q := StartSearch(CompleteRecommend(StartRecommend(p), Ok(r)));
      RecommendNoResultsShown(q) && RecommendNoResultsShown(CompleteSearch(q, Ok(sr)))
  {
    TrimEmptyIffAllSpace(p.diary, IsJsSpace);
  }

  /**
   * As written, a recommendation started after a search keeps `hasSearched`
   * and empties the search list, so the search's "no results" notice shows
   * above the recommended list.
   */
  lemma RecommendAfterSearchShowsSearchNotice(p: Page, sr: SearchReply, r: Recommendation, f: Failure)
    requires !p.isLoading && RecommendSent(p) && SearchSent(p) && |r.movies| > 0
    ensures var q := CompleteRecommend(StartRecommend(CompleteSearch(StartSearch(p), Ok(sr))), Ok(r));
      SearchNoticeAsWritten(q) && RecommendResultsShown(q)
    ensures var q := CompleteRecommend(StartRecommend(CompleteSearch(StartSearch(p), Ok(sr))), Err(f));
      q.errorMessage != "" && SearchNoticeAsWritten(q)
  {
    TrimEmptyIffAllSpace(p.searchQuery, IsJsSpace);
  }

  /** The recommend start step that also forgets the search attempt. */
  function StartRecommendIntended(p: Page): Page
    requires !p.isLoading
  {
    if !RecommendSent(p) then StartRecommend(p) else StartRecommend(p).(hasSearched := false)
  }

  /** The search start step that also forgets the recommendation attempt. */
  function StartSearchIntended(p: Page): Page {
    if !SearchSent(p) then StartSearch(p) else StartSearch(p).(hasRecommended := false)
  }

  /**
   * With each start forgetting the other attempt, a sent recommendation hides
   * the search notice and a sent search hides the recommendation notice, from
   * the start and whatever the request's outcome; otherwise the steps agree
   * with the written ones.
   */
  lemma IntendedRecommendHidesSearchNotice(p: Page, o: Outcome<Recommendation>)
    requires !p.isLoading && RecommendSent(p)
    ensures var q := StartRecommendIntended(p);
      && !SearchNoticeAsWritten(q) && !SearchNoticeAsWritten(CompleteRecommend(q, o))
      && q.(hasSearched := p.hasSearched) == StartRecommend(p)
  {
  }

  lemma IntendedSearchHidesRecommendNotice(p: Page, o: Outcome<SearchReply>)
    requires SearchSent(p)
    ensures var q := StartSearchIntended(p);
      && !RecommendNoResultsShown(q) && !RecommendNoResultsShown(CompleteSearch(q, o))
      && q.(hasRecommended := p.hasRecommended) == StartSearch(p)
  {
  }

  // ---------------------------------------------------------------- runs

  /** A user action or the arrival of a response. */
  datatype Action =
    | TypeDiary(text: string)
    | TypeQuery(text: string)
    | ClickRecommend
    | RecommendDone(recommendation: Outcome<Recommendation>)
    | SubmitSearch
    | SearchDone(search: Outcome<SearchReply>)
    | ClickCard(movieId: int)
    | DetailDone(detail: Outcome<MovieDetail.Movie>)
    | CloseRequest
    | OverlayEvent(event: MovieDetail.ModalEvent)

  /** Whether an action can happen: a recommendation completes only while loading, the overlay's events only while it is open. */
  predicate Enabled(p: Page, a: Action) {
    match a
    case RecommendDone(_) => p.isLoading
    case OverlayEvent(_) => p.showModal
    case _ => true
  }

  /** One action; a click on the disabled recommend button does nothing. */
  function Apply(p: Page, a: Action): Page
    requires Enabled(p, a)
  {
    match a
    case TypeDiary(t) => EditDiary(p, t)
    case TypeQuery(t) => EditQuery(p, t)
    case ClickRecommend => if p.isLoading then p else StartRecommend(p)
    case RecommendDone(o) => CompleteRecommend(p, o)
    case SubmitSearch => StartSearch(p)
    case SearchDone(o) => CompleteSearch(p, o)
    case ClickCard(_) => StartCardClick(p)
    case DetailDone(o) => CompleteCardClick(p, o)
    case CloseRequest => CloseModal(p)
    case OverlayEvent(e) => ModalEvent(p, e)
  }

  predicate Feasible(p: Page, trace: seq<Action>)
    decreases |trace|
  {
    trace == [] || (Enabled(p, trace[0]) && Feasible(Apply(p, trace[0]), trace[1..]))
  }

  function Run(p: Page, trace: seq<Action>): Page
    requires Feasible(p, trace)
    decreases |trace|
  {
    if trace == [] then p else Run(Apply(p, trace[0]), trace[1..])
  }

  /**
   * Facts every reachable page satisfies: an open overlay has a movie, a
   * loading recommendation has an empty list and a recorded attempt, and
   * likewise for a running search.
   */
  predicate Consistent(p: Page) {
    && (p.showModal ==> p.selectedMovie.Some?)
    && (p.isLoading ==> p.movies == [] && p.hasRecommended)
    && (p.isSearching ==> p.searchResults == [] && p.hasSearched)
  }

  lemma ApplyKeepsConsistent(p: Page, a: Action)
    requires Consistent(p) && Enabled(p, a)
    ensures Consistent(Apply(p, a))
  {
  }

  /** Every page reachable from the initial one is consistent; in particular the open overlay always renders a movie. */
  lemma {:induction false} ReachableConsistent(p: Page, trace: seq<Action>)
    requires Consistent(p) && Feasible(p, trace)
    ensures Consistent(Run(p, trace))
    ensures Run(p, trace).showModal ==> ModalView(Run(p, trace)).Some?
    decreases |trace|
  {
    if trace != [] {
      ApplyKeepsConsistent(p, trace[0]);
      ReachableConsistent(Apply(p, trace[0]), trace[1..]);
    }
  }

  /** At most one result list is non-empty. */
  predicate Exclusive(p: Page) { p.movies == [] || p.searchResults == [] }

  /** Each request completes before the next one starts. */
  predicate OneAtATime(p: Page, a: Action) {
    match a
    case ClickRecommend => !p.isSearching
    case SubmitSearch => !p.isLoading && !p.isSearching
    case SearchDone(_) => p.isSearching
    case _ => true
  }

  predicate Sequential(p: Page, trace: seq<Action>)
    decreases |trace|
  {
    trace == [] || (Enabled(p, trace[0]) && OneAtATime(p, trace[0]) && Sequential(Apply(p, trace[0]), trace[1..]))
  }

  lemma {:induction false} SequentialIsFeasible(p: Page, trace: seq<Action>)
    requires Sequential(p, trace)
    ensures Feasible(p, trace)
    decreases |trace|
  {
    if trace != [] {
      SequentialIsFeasible(Apply(p, trace[0]), trace[1..]);
    }
  }

  predicate ExclusiveInvariant(p: Page) {
    && Consistent(p) && Exclusive(p)
    && !(p.isLoading && p.isSearching)
    && (p.isLoading ==> p.searchResults == [])
    && (p.isSearching ==> p.movies == [])
  }

  lemma SequentialStepKeepsExclusive(p: Page, a: Action)
    requires ExclusiveInvariant(p) && Enabled(p, a) && OneAtATime(p, a)
    ensures ExclusiveInvariant(Apply(p, a))
  {
    ApplyKeepsConsistent(p, a);
    match a {
      case TypeDiary(_) =>
      case TypeQuery(_) =>
      case ClickRecommend =>
      case RecommendDone(_) =>
      case SubmitSearch =>
      case SearchDone(_) =>
      case ClickCard(_) =>
      case DetailDone(_) =>
      case CloseRequest =>
      case OverlayEvent(_) =>
    }
  }

  /**
   * When every request completes before the next starts, the recommended
   * movies and the search results are never both non-empty, because each
   * start clears the other list.
   */
  lemma {:induction false} SequentialRunsExclusive(trace: seq<Action>)
    requires Sequential(Initial, trace)
    ensures Feasible(Initial, trace) && Exclusive(Run(Initial, trace))
  {
    SequentialIsFeasible(Initial, trace);
    SequentialRunKeepsInvariant(Initial, trace);
  }

  lemma {:induction false} SequentialRunKeepsInvariant(p: Page, trace: seq<Action>)
    requires ExclusiveInvariant(p) && Sequential(p, trace)
    ensures Feasible(p, trace) && ExclusiveInvariant(Run(p, trace))
    decreases |trace|
  {
    SequentialIsFeasible(p, trace);
    if trace != [] {
      SequentialStepKeepsExclusive(p, trace[0]);
      SequentialRunKeepsInvariant(Apply(p, trace[0]), trace[1..]);
    }
  }

  /**
   * Overlapping requests break that: a search started with Enter while a
   * recommendation loads, both succeeding, leaves both lists non-empty.
   */
  lemma InterleavedRequestsOverlap(m: MovieSummary)
    ensures var trace := [TypeDiary("x"), TypeQuery("y"), ClickRecommend, SubmitSearch,
                          SearchDone(Ok(SearchReply([m]))), RecommendDone(Ok(Recommendation("e", "r", [m])))];
      Feasible(Initial, trace) && !Exclusive(Run(Initial, trace))
  {
    var typing := [TypeDiary("x"), TypeQuery("y")];
    var requests := [ClickRecommend, SubmitSearch, SearchDone(Ok(SearchReply([m]))),
                     RecommendDone(Ok(Recommendation("e", "r", [m])))];
    var typed := Initial.(diary := "x", searchQuery := "y");
    RunCons(Initial, typing[0], typing[1..]);
    RunCons(EditDiary(Initial, "x"), typing[1], []);
    assert Feasible(Initial, typing) && Run(Initial, typing) == typed;
    assert typed.diary[0] == 'x' && typed.searchQuery[0] == 'y';
    OverlappingRequests(typed, m);
    RunAppend(Initial, typing, requests);
    assert typing + requests == [TypeDiary("x"), TypeQuery("y"), ClickRecommend, SubmitSearch,
                                 SearchDone(Ok(SearchReply([m]))), RecommendDone(Ok(Recommendation("e", "r", [m])))];
  }

  /** The four request steps of the overlapping run, from a page where both inputs are filled in and nothing loads. */
  lemma OverlappingRequests(p: Page, m: MovieSummary)
    requires !p.isLoading && RecommendSent(p) && SearchSent(p)
    ensures var requests := [ClickRecommend, SubmitSearch, SearchDone(Ok(SearchReply([m]))),
                             RecommendDone(Ok(Recommendation("e", "r", [m])))];
      Feasible(p, requests) && !Exclusive(Run(p, requests))
  {
    var a3, a4 := ClickRecommend, SubmitSearch;
    var a5, a6 := SearchDone(Ok(SearchReply([m]))), RecommendDone(Ok(Recommendation("e", "r", [m])));
    var p3 := Apply(p, a3);
    var p4 := Apply(p3, a4);
    var p5 := Apply(p4, a5);
    var p6 := Apply(p5, a6);
    assert p6.movies == [m] && p6.searchResults == [m];
    RunCons(p5, a6, []);
    RunCons(p4, a5, [a6]);
    RunCons(p3, a4, [a5, a6]);
    RunCons(p, a3, [a4, a5, a6]);
  }

  /** A run that starts with an enabled action is that action followed by the rest. */
  lemma RunCons(p: Page, a: Action, rest: seq<Action>)
    requires Enabled(p, a) && Feasible(Apply(p, a), rest)
    ensures Feasible(p, [a] + rest) && Run(p, [a] + rest) == Run(Apply(p, a), rest)
  {
    assert ([a] + rest)[1..] == rest;
  }

  /** Running two traces one after the other is running their concatenation. */
  lemma {:induction false} RunAppend(p: Page, first: seq<Action>, second: seq<Action>)
    requires Feasible(p, first) && Feasible(Run(p, first), second)
    ensures Feasible(p, first + second) && Run(p, first + second) == Run(Run(p, first), second)
    decreases |first|
  {
    if first != [] {
      RunAppend(Apply(p, first[0]), first[1..], second);
      assert (first + second)[1..] == first[1..] + second;
    } else {
      assert first + second == second;
    }
  }

  /**
   * No stale-response guard: when two searches overlap and the first one's
   * response arrives last, its results are the ones kept.
   */
  lemma StaleSearchResponseApplied(p: Page, first: seq<MovieSummary>, second: seq<MovieSummary>)
    requires !AllSpace(p.searchQuery, IsJsSpace)
    ensures var q := CompleteSearch(CompleteSearch(StartSearch(StartSearch(p)), Ok(SearchReply(second))), Ok(SearchReply(first)));
      q.searchResults == first && !q.isSearching
  {
  }

  /** Closing the overlay before the detail arrives does not stop the late detail from opening it. */
  lemma LateDetailReopensOverlay(p: Page, d: MovieDetail.Movie)
    ensures var q := CompleteCardClick(CloseModal(StartCardClick(p)), Ok(d));
      q.showModal && q.selectedMovie == Some(d)
  {
  }
}
