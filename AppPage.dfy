/**
 * The page component as an object whose thirteen fields are its state
 * variables. Each handler assigns the fields in the order the source calls
 * the setters, and each is specified by the matching step of PageState.
 */
module AppPage {
  import opened Wrappers
  import MovieDetail
  import PageState

  class App {
    var diary: string
    var movies: seq<PageState.MovieSummary>
    var emotion: string
    var reason: string
    var isLoading: bool
    var selectedMovie: Option<MovieDetail.Movie>
    var showModal: bool
    var errorMessage: string
    var hasRecommended: bool
    var searchQuery: string
    var searchResults: seq<PageState.MovieSummary>
    var isSearching: bool
    var hasSearched: bool

    /** The fields as one value. */
    function State(): PageState.Page
      reads this
    {
      PageState.Page(diary, movies, emotion, reason, isLoading, selectedMovie, showModal, errorMessage,
                     hasRecommended, searchQuery, searchResults, isSearching, hasSearched)
    }

    ghost predicate Valid()
      reads this
    {
      PageState.Consistent(State())
    }

    constructor ()
      ensures State() == PageState.Initial && Valid()
    {
      diary, movies, emotion, reason := "", [], "", "";
      isLoading, selectedMovie, showModal, errorMessage := false, None, false, "";
      hasRecommended := false;
      searchQuery, searchResults, isSearching, hasSearched := "", [], false, false;
    }

    /** The diary box's change handler. */
    method SetDiary(text: string)
      requires Valid()
      modifies this
      ensures Valid() && State() == PageState.EditDiary(old(State()), text)
    {
      diary := text;
    }

    /** The search box's change handler. */
    method SetSearchQuery(text: string)
      requires Valid()
      modifies this
      ensures Valid() && State() == PageState.EditQuery(old(State()), text)
    {
      searchQuery := text;
    }

    /** The recommend handler up to its request; `sent` says whether the request is issued. */
    method StartRecommend() returns (sent: bool)
      requires Valid() && !isLoading
      modifies this
      ensures sent == PageState.RecommendSent(old(State()))
      ensures Valid() && State() == PageState.StartRecommend(old(State()))
    {
      ghost var before := State();
      sent := PageState.RecommendSent(State());
      if !sent {
        errorMessage := PageState.EmptyDiaryMessage;
        return;
      }
      assert PageState.StartRecommend(before) == before.(isLoading := true, movies := [], emotion := "", reason := "",
        selectedMovie := None, showModal := false, searchResults := [], errorMessage := "", hasRecommended := true);
      isLoading, movies, emotion, reason := true, [], "", "";
      selectedMovie, showModal := None, false;
      searchResults, errorMessage, hasRecommended := [], "", true;
    }

    /** The rest of the recommend handler, once the request's outcome is known. */
    method CompleteRecommend(outcome: PageState.Outcome<PageState.Recommendation>)
      requires Valid() && isLoading
      modifies this
      ensures Valid() && State() == PageState.CompleteRecommend(old(State()), outcome)
      ensures !isLoading
    {
      match outcome {
        case Ok(r) =>
          movies := r.movies;
          emotion := r.emotion;
          reason := r.reason;
        case Err(f) =>
          errorMessage := PageState.RecommendErrorPrefix + PageState.FailureText(f, PageState.RecommendFallback);
      }
      isLoading := false;
    }

    /** The search handler up to its request; `sent` says whether the request is issued. */
    method StartSearch() returns (sent: bool)
      requires Valid()
      modifies this
      ensures sent == PageState.SearchSent(old(State()))
      ensures Valid() && State() == PageState.StartSearch(old(State()))
    {
      ghost var before := State();
      sent := PageState.SearchSent(State());
      if !sent {
        errorMessage := PageState.EmptyQueryMessage;
        return;
      }
      assert PageState.StartSearch(before) == before.(isSearching := true, movies := [], emotion := "", reason := "",
        searchResults := [], errorMessage := "", hasSearched := true);
      isSearching, movies, emotion, reason := true, [], "", "";
      searchResults, errorMessage, hasSearched := [], "", true;
    }

    /** The rest of the search handler, applied whatever search it belongs to. */
    method CompleteSearch(outcome: PageState.Outcome<PageState.SearchReply>)
      requires Valid()
      modifies this
      ensures Valid() && State() == PageState.CompleteSearch(old(State()), outcome)
      ensures !isSearching
    {
      match outcome {
        case Ok(r) =>
          searchResults := r.results;
        case Err(f) =>
          errorMessage := PageState.SearchErrorPrefix + PageState.FailureText(f, PageState.SearchFallback);
      }
      isSearching := false;
    }

    /** The card click handler up to its request for the movie's details. */
    method StartCardClick(movieId: int)
      requires Valid()
      modifies this
      ensures Valid() && State() == PageState.StartCardClick(old(State()))
    {
      errorMessage := "";
    }

    /** The rest of the card click handler. */
    method CompleteCardClick(outcome: PageState.Outcome<MovieDetail.Movie>)
      requires Valid()
      modifies this
      ensures Valid() && State() == PageState.CompleteCardClick(old(State()), outcome)
      ensures showModal ==> PageState.ModalView(State()).Some?
    {
      match outcome {
        case Ok(details) =>
          selectedMovie := Some(details);
          showModal := true;
        case Err(f) =>
          errorMessage := PageState.DetailErrorPrefix + PageState.FailureText(f, PageState.DetailFallback);
      }
    }

    method CloseModal()
      requires Valid()
      modifies this
      ensures Valid() && State() == PageState.CloseModal(old(State()))
      ensures !showModal && selectedMovie.None?
    {
      showModal := false;
      selectedMovie := None;
    }

    /** An event on the open overlay: the close button and a background click reach `CloseModal`; keys do nothing. */
    method OnOverlayEvent(e: MovieDetail.ModalEvent)
      requires Valid() && showModal
      modifies this
      ensures Valid() && State() == PageState.ModalEvent(old(State()), e)
      ensures showModal ==> PageState.ModalView(State()).Some?
    {
      if MovieDetail.InlineCloseCalls(e) > 0 {
        CloseModal();
      }
    }
  }
}
