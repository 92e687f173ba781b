/**
 * The recommendation service's selection logic: input validation, the
 * emotion tables, classification of the language model's answer, collection
 * of candidate movies page by page, de-duplication, the popular-movie
 * fallback, the final random selection, and the search quality filter.
 * Remote calls are oracles passed in as functions or values: `None` stands
 * for a request error. Random choices are nondeterministic choices.
 */
module Backend {
  import opened Wrappers
  import opened Text

  /** A movie entry of a listing; absent vote fields are `None`. */
  datatype TmdbMovie = TmdbMovie(id: int, title: string, voteCount: Option<int>, voteAverage: Option<real>)

  datatype HttpError = HttpError(status: int, detail: string)

  datatype Response<T> = Ok(body: T) | Error(error: HttpError)

  /** One listing page as the remote service returns it; `None` is a request error. */
  type ListingPage = Option<seq<TmdbMovie>>

  // ---------------------------------------------------------------- tables

  const EmotionKeys: seq<string> := ["기쁨", "행복", "슬픔", "분노", "놀람", "평온", "사랑", "지루함"]

  const EmotionGenreMap: map<string, seq<int>> := map[
    "기쁨" := [35, 10751],
    "행복" := [35, 10751, 10749],
    "슬픔" := [18, 10749, 10751],
    "분노" := [28, 53, 80],
    "놀람" := [9648, 878, 14],
    "평온" := [10749, 16, 99],
    "사랑" := [10749, 10751, 18],
    "지루함" := [12, 878, 28]]

  const EmotionReasonMap: map<string, string> := map[
    "기쁨" := "오늘의 기쁨을 두 배로 만들어 줄 유쾌하고 즐거운 영화들을 추천합니다!",
    "행복" := "행복한 당신의 하루에 웃음꽃을 피워줄 따뜻한 영화들을 추천합니다!",
    "슬픔" := "슬픔을 위로하고 마음을 따뜻하게 해줄 감동적인 영화들을 추천합니다.",
    "분노" := "쌓인 스트레스를 시원하게 날려버릴 통쾌한 액션과 모험 영화들을 추천합니다!",
    "놀람" := "예측 불가능한 반전과 흥미진진한 스토리가 가득한 영화들을 추천합니다.",
    "평온" := "잔잔한 감동과 편안함을 선사할 영화들을 추천합니다. 오늘 하루의 마무리를 함께하세요.",
    "사랑" := "사랑스러운 당신의 마음에 설렘을 더해줄 로맨틱한 영화들을 추천합니다.",
    "지루함" := "지루함을 날려버릴 흥미로운 다큐멘터리나 새로운 시각을 제공하는 영화들을 추천합니다."]

  const DefaultGenres: seq<int> := [18]
  const DefaultReason: string := "오늘 당신의 하루에 어울리는 영화들을 추천합니다!"
  const QuotaSuffix: string := " (API 할당량 초과로 임의 선택됨)"
  const SortOptions: seq<string> := ["popularity.desc", "vote_average.desc", "release_date.desc"]
  const MaxGenrePages: nat := 10
  const MaxPopularPages: nat := 2
  const RecommendCount: nat := 3
  const SearchMinVoteCount: int := 50
  const SearchMinVoteAverage: real := 6.0

  const EmptyDiaryDetail: string := "일기 내용이 비어있습니다."
  const EmptyQueryDetail: string := "검색어가 비어있습니다."
  const AnalysisFailedDetail: string := "감정 분석 중 오류가 발생했습니다."
  const NoMoviesDetail: string := "추천할 영화를 찾지 못했습니다."
  const SearchFailedDetail: string := "영화 검색 중 오류가 발생했습니다."

  /** The two tables have the same keys, and those are the keys offered to the model, in table order. */
  lemma EmotionTablesAgree()
    ensures EmotionGenreMap.Keys == EmotionReasonMap.Keys
    ensures forall k :: k in EmotionKeys <==> k in EmotionGenreMap
    ensures |EmotionKeys| == 8
  {
  }

  // ---------------------------------------------------------------- emotion analysis

  /** The language model's answer: its text, a quota error, or any other failure. */
  datatype ModelReply = Answer(text: string) | QuotaExhausted | Failed

  /**
   * Classifies the model's answer: a stripped answer that names an emotion is
   * kept, any other text is replaced by a random emotion, a quota error gives
   * no emotion, and any other failure is a 500 error.
   */
  method AnalyzeEmotion(reply: ModelReply) returns (r: Response<Option<string>>)
    ensures reply.Answer? ==> r.Ok? && r.body.Some? && r.body.value in EmotionGenreMap
    ensures reply.Answer? && PyStrip(reply.text) in EmotionGenreMap ==> r == Ok(Some(PyStrip(reply.text)))
    ensures reply.QuotaExhausted? ==> r == Ok(None)
    ensures reply.Failed? ==> r == Error(HttpError(500, AnalysisFailedDetail))
  {
    match reply {
      case Answer(text) =>
        var emotion := PyStrip(text);
        if emotion !in EmotionGenreMap {
          EmotionTablesAgree();
          var i :| 0 <= i < |EmotionKeys|;
          emotion := EmotionKeys[i];
        }
        r := Ok(Some(emotion));
      case QuotaExhausted =>
        r := Ok(None);
      case Failed =>
        r := Error(HttpError(500, AnalysisFailedDetail));
    }
  }

  // ---------------------------------------------------------------- paging

  /**
   * Pages `page` to `last` of a listing, concatenated, stopping before the
   * first page that is empty or fails.
   */
  function Pages(fetch: nat -> ListingPage, page: nat, last: nat): seq<TmdbMovie>
    decreases last + 1 - page
  {
    if page > last then []
    else match fetch(page)
      case None => []
      case Some(ms) => if ms == [] then [] else ms + Pages(fetch, page + 1, last)
  }

  /** Only pages `page` to `last` are consulted: listings that agree there give the same movies. */
  lemma {:induction false} PagesConsultOnlyRange(f: nat -> ListingPage, g: nat -> ListingPage, page: nat, last: nat)
    requires forall q :: page <= q <= last ==> f(q) == g(q)
    ensures Pages(f, page, last) == Pages(g, page, last)
    decreases last + 1 - page
  {
    if page <= last {
      PagesConsultOnlyRange(f, g, page + 1, last);
    }
  }

  /**
   * Nothing after an empty or failing page is consulted: listings that agree
   * up to that page give the same movies.
   */
  lemma {:induction false} PagesStopAtEmpty(f: nat -> ListingPage, g: nat -> ListingPage, page: nat, stop: nat, last: nat)
    requires page <= stop <= last
    requires f(stop).None? || f(stop) == Some([])
    requires forall q :: page <= q <= stop ==> f(q) == g(q)
    ensures Pages(f, page, last) == Pages(g, page, last)
    decreases stop - page
  {
    if page < stop {
      PagesStopAtEmpty(f, g, page + 1, stop, last);
    }
  }

  /** Loop over pages 1 to `last`, appending each page's results until one is empty or fails. */
  method FetchPages(fetch: nat -> ListingPage, last: nat) returns (ms: seq<TmdbMovie>)
    ensures ms == Pages(fetch, 1, last)
  {
    ms := [];
    var page := 1;
    while page <= last
      invariant 1 <= page
      invariant ms + Pages(fetch, page, last) == Pages(fetch, 1, last)
      decreases last + 1 - page
    {
      var got := fetch(page);
      if got.None? || got.value == [] {
        break;
      }
      ms := ms + got.value;
      page := page + 1;
    }
  }

  /** The discover listing of one genre under one sort order. */
  function GenreListing(discover: (string, int, nat) -> ListingPage, sortBy: string, genre: int): nat -> ListingPage {
    (page: nat) => discover(sortBy, genre, page)
  }

  /**
   * Collection over the genres in order: before each genre, stop once
   * `threshold` movies are collected; otherwise append up to ten of its pages.
   */
  function Collected(acc: seq<TmdbMovie>, genres: seq<int>, threshold: nat,
                     discover: (string, int, nat) -> ListingPage, sortBy: string): seq<TmdbMovie>
    decreases |genres|
  {
    if genres == [] || |acc| >= threshold then acc
    else Collected(acc + Pages(GenreListing(discover, sortBy, genres[0]), 1, MaxGenrePages),
                   genres[1..], threshold, discover, sortBy)
  }

  /** Every genre's pages, in genre order, with no threshold. */
  function AllGenrePages(genres: seq<int>, discover: (string, int, nat) -> ListingPage, sortBy: string): seq<TmdbMovie>
    decreases |genres|
  {
    if genres == [] then []
    else Pages(GenreListing(discover, sortBy, genres[0]), 1, MaxGenrePages) + AllGenrePages(genres[1..], discover, sortBy)
  }

  /** Collection only appends: what was collected before stays, in front. */
  lemma {:induction false} CollectedKeepsPrefix(acc: seq<TmdbMovie>, genres: seq<int>, threshold: nat,
                                                discover: (string, int, nat) -> ListingPage, sortBy: string)
    ensures var r := Collected(acc, genres, threshold, discover, sortBy);
      |r| >= |acc| && r[..|acc|] == acc
    decreases |genres|
  {
    if genres != [] && |acc| < threshold {
      var next := acc + Pages(GenreListing(discover, sortBy, genres[0]), 1, MaxGenrePages);
      CollectedKeepsPrefix(next, genres[1..], threshold, discover, sortBy);
      assert next[..|acc|] == acc;
    }
  }

  /**
   * The threshold is checked only before a genre: a collection that ends
   * under the threshold took every genre's pages.
   */
  lemma {:induction false} CollectedStops(acc: seq<TmdbMovie>, genres: seq<int>, threshold: nat,
                                          discover: (string, int, nat) -> ListingPage, sortBy: string)
    ensures var r := Collected(acc, genres, threshold, discover, sortBy);
      |r| < threshold ==> r == acc + AllGenrePages(genres, discover, sortBy)
    decreases |genres|
  {
    if genres != [] && |acc| < threshold {
      var next := acc + Pages(GenreListing(discover, sortBy, genres[0]), 1, MaxGenrePages);
      CollectedStops(next, genres[1..], threshold, discover, sortBy);
    }
  }

  /** A single genre whose first page holds more than `threshold` movies overshoots the threshold. */
  lemma CollectionMayOvershoot(m: TmdbMovie)
    ensures var discover := (s: string, g: int, p: nat) => if p == 1 then Some([m, m, m, m]) else Some([]);
      |Collected([], [35], 3, discover, "popularity.desc")| == 4
  {
    var discover := (s: string, g: int, p: nat) => if p == 1 then Some([m, m, m, m]) else Some([]);
    var f := GenreListing(discover, "popularity.desc", 35);
    assert Pages(f, 2, MaxGenrePages) == [];
    assert Pages(f, 1, MaxGenrePages) == [m, m, m, m];
    assert [35][1..] == [];
  }

  /** Collection loop: genres in order, threshold checked before each one. */
  method Collect(genres: seq<int>, threshold: nat, discover: (string, int, nat) -> ListingPage, sortBy: string)
    returns (all: seq<TmdbMovie>)
    ensures all == Collected([], genres, threshold, discover, sortBy)
  {
    all := [];
    var i := 0;
    while i < |genres|
      invariant 0 <= i <= |genres|
      invariant Collected(all, genres[i..], threshold, discover, sortBy) == Collected([], genres, threshold, discover, sortBy)
      decreases |genres| - i
    {
      if |all| >= threshold {
        break;
      }
      var pages := FetchPages(GenreListing(discover, sortBy, genres[i]), MaxGenrePages);
      assert genres[i..][1..] == genres[i + 1..];
      all := all + pages;
      i := i + 1;
    }
  }

  // ---------------------------------------------------------------- de-duplication

  function Ids(ms: seq<TmdbMovie>): set<int> {
    set m | m in ms :: m.id
  }

  /** No two entries share an id. */
  predicate DistinctIds(ms: seq<TmdbMovie>) {
    forall i, j :: 0 <= i < j < |ms| ==> ms[i].id != ms[j].id
  }

  /** `a` is `b` with some entries left out, order kept. */
  predicate IsSubsequence(a: seq<TmdbMovie>, b: seq<TmdbMovie>)
    decreases |b|
  {
    if a == [] then true
    else if b == [] then false
    else if a[0] == b[0] then IsSubsequence(a[1..], b[1..])
    else IsSubsequence(a, b[1..])
  }

  /** The entries of `ms` whose id is not in `seen` and not taken earlier in `ms`. */
  function Unseen(seen: set<int>, ms: seq<TmdbMovie>): seq<TmdbMovie>
    decreases |ms|
  {
    if ms == [] then []
    else if ms[0].id in seen then Unseen(seen, ms[1..])
    else [ms[0]] + Unseen(seen + {ms[0].id}, ms[1..])
  }

  /** The kept entries have pairwise distinct ids, none of them already seen. */
  lemma {:induction false} UnseenDistinct(seen: set<int>, ms: seq<TmdbMovie>)
    ensures DistinctIds(Unseen(seen, ms))
    ensures Ids(Unseen(seen, ms)) !! seen
    decreases |ms|
  {
    if ms != [] {
      if ms[0].id in seen {
        UnseenDistinct(seen, ms[1..]);
      } else {
        var rest := Unseen(seen + {ms[0].id}, ms[1..]);
        UnseenDistinct(seen + {ms[0].id}, ms[1..]);
        assert forall k :: 0 <= k < |rest| ==> rest[k].id in Ids(rest);
      }
    }
  }

  /** Every id of the input that was not already seen is kept. */
  lemma {:induction false} UnseenIds(seen: set<int>, ms: seq<TmdbMovie>)
    ensures Ids(Unseen(seen, ms)) == Ids(ms) - seen
    decreases |ms|
  {
    if ms != [] {
      assert Ids(ms) == {ms[0].id} + Ids(ms[1..]) by {
        assert forall m :: m in ms <==> m == ms[0] || m in ms[1..];
      }
      if ms[0].id in seen {
        UnseenIds(seen, ms[1..]);
      } else {
        UnseenIds(seen + {ms[0].id}, ms[1..]);
        var rest := Unseen(seen + {ms[0].id}, ms[1..]);
        assert Ids([ms[0]] + rest) == {ms[0].id} + Ids(rest) by {
          assert forall m :: m in [ms[0]] + rest <==> m == ms[0] || m in rest;
        }
      }
    }
  }

  /** The kept entries appear in the input's order. */
  lemma {:induction false} UnseenIsSubsequence(seen: set<int>, ms: seq<TmdbMovie>)
    ensures IsSubsequence(Unseen(seen, ms), ms)
    decreases |ms|
  {
    if ms != [] {
      if ms[0].id in seen {
        UnseenIsSubsequence(seen, ms[1..]);
        SubsequenceOfTail(Unseen(seen, ms[1..]), ms);
      } else {
        UnseenIsSubsequence(seen + {ms[0].id}, ms[1..]);
      }
    }
  }

  lemma {:induction false} SubsequenceOfTail(a: seq<TmdbMovie>, b: seq<TmdbMovie>)
    requires b != [] && IsSubsequence(a, b[1..])
    ensures IsSubsequence(a, b)
    decreases |b|, |a|
  {
    if a != [] && a[0] == b[0] {
      // a[1..] is a subsequence of b[1..] since a is
      SubsequenceDropHead(a, b[1..]);
    }
  }

  lemma {:induction false} SubsequenceDropHead(a: seq<TmdbMovie>, b: seq<TmdbMovie>)
    requires a != [] && IsSubsequence(a, b)
    ensures IsSubsequence(a[1..], b)
    decreases |b|, |a|
  {
    if a[0] == b[0] {
      if b[1..] != [] {
        if a[1..] != [] {
          SubsequenceOfTail(a[1..], b);
        }
      }
    } else {
      SubsequenceDropHead(a, b[1..]);
      if a[1..] != [] {
        SubsequenceOfTail(a[1..], b);
      }
    }
  }

  /** The first occurrence of every id not already seen is kept (and, ids being distinct, no later one). */
  lemma {:induction false} UnseenKeepsFirstOccurrences(seen: set<int>, ms: seq<TmdbMovie>, i: nat)
    requires i < |ms| && ms[i].id !in seen
    requires forall j :: 0 <= j < i ==> ms[j].id != ms[i].id
    ensures ms[i] in Unseen(seen, ms)
    decreases |ms|
  {
    if i > 0 {
      if ms[0].id in seen {
        UnseenKeepsFirstOccurrences(seen, ms[1..], i - 1);
      } else {
        UnseenKeepsFirstOccurrences(seen + {ms[0].id}, ms[1..], i - 1);
      }
    }
  }

  /** One step of the de-duplication loop. */
  lemma UnseenStep(seen: set<int>, ms: seq<TmdbMovie>, i: nat)
    requires i < |ms|
    ensures Unseen(seen, ms[i..]) ==
      if ms[i].id in seen then Unseen(seen, ms[i + 1..]) else [ms[i]] + Unseen(seen + {ms[i].id}, ms[i + 1..])
    ensures Ids(ms[..i + 1]) == Ids(ms[..i]) + {ms[i].id}
  {
    assert ms[i..][1..] == ms[i + 1..];
    assert ms[..i + 1] == ms[..i] + [ms[i]];
    assert forall m :: m in ms[..i + 1] <==> m in ms[..i] || m == ms[i];
  }

  /**
   * The de-duplication loop, also used for the fallback merge: appends to
   * `unique` every movie of `ms` whose id is not yet in `seen`, recording it.
   */
  method AppendUnseen(unique: seq<TmdbMovie>, seen: set<int>, ms: seq<TmdbMovie>)
    returns (unique': seq<TmdbMovie>, seen': set<int>)
    ensures unique' == unique + Unseen(seen, ms)
    ensures seen' == seen + Ids(ms)
  {
    unique', seen' := unique, seen;
    var i := 0;
    while i < |ms|
      invariant 0 <= i <= |ms|
      invariant unique' + Unseen(seen', ms[i..]) == unique + Unseen(seen, ms)
      invariant seen' == seen + Ids(ms[..i])
      decreases |ms| - i
    {
      UnseenStep(seen', ms, i);
      if ms[i].id !in seen' {
        unique' := unique' + [ms[i]];
        seen' := seen' + {ms[i].id};
      }
      i := i + 1;
    }
    assert ms[..i] == ms;
  }

  // ---------------------------------------------------------------- selection

  /** No entry of `a` shares an id with an entry of `b`. */
  predicate Apart(a: seq<TmdbMovie>, b: seq<TmdbMovie>) {
    forall x, y :: 0 <= x < |a| && 0 <= y < |b| ==> a[x].id != b[y].id
  }

  /** The pool without its entry at `i`: the entries before it, then those after it shifted down. */
  lemma RemoveAt(pool: seq<TmdbMovie>, i: nat)
    requires i < |pool|
    ensures var rest := pool[..i] + pool[i + 1..];
      |rest| == |pool| - 1
      && (forall b :: 0 <= b < i ==> rest[b] == pool[b])
      && (forall b :: i <= b < |rest| ==> rest[b] == pool[b + 1])
      && multiset(rest) + multiset{pool[i]} == multiset(pool)
  {
    assert pool == pool[..i] + [pool[i]] + pool[i + 1..];
  }

  /** Moving the entry at `i` from the pool to the picked entries keeps the multiset and the id separation. */
  lemma MoveToPicked(picked: seq<TmdbMovie>, pool: seq<TmdbMovie>, i: nat)
    requires i < |pool|
    ensures multiset(picked + [pool[i]]) + multiset(pool[..i] + pool[i + 1..]) == multiset(picked) + multiset(pool)
    ensures DistinctIds(picked) && DistinctIds(pool) && Apart(picked, pool) ==>
      DistinctIds(picked + [pool[i]]) && DistinctIds(pool[..i] + pool[i + 1..])
      && Apart(picked + [pool[i]], pool[..i] + pool[i + 1..])
  {
    RemoveAt(pool, i);
    var rest := pool[..i] + pool[i + 1..];
    var picked' := picked + [pool[i]];
    if DistinctIds(picked) && DistinctIds(pool) && Apart(picked, pool) {
      assert DistinctIds(rest) by {
        forall x, y | 0 <= x < y < |rest| ensures rest[x].id != rest[y].id {
          var x', y' := if x < i then x else x + 1, if y < i then y else y + 1;
          assert rest[x] == pool[x'] && rest[y] == pool[y'] && x' < y';
        }
      }
      assert Apart(picked', rest) by {
        forall x, y | 0 <= x < |picked'| && 0 <= y < |rest| ensures picked'[x].id != rest[y].id {
          var y' := if y < i then y else y + 1;
          assert rest[y] == pool[y'] && y' != i;
          if x == |picked| {
            assert picked'[x] == pool[i];
          } else {
            assert picked'[x] == picked[x];
          }
        }
      }
      assert DistinctIds(picked') by {
        forall x, y | 0 <= x < y < |picked'| ensures picked'[x].id != picked'[y].id {
          if y == |picked| {
            assert picked'[x] == picked[x] && picked'[y] == pool[i];
          }
        }
      }
    }
  }

  /**
   * `random.sample(population, k)`: `k` entries drawn one at a time without
   * replacement, each drawn position chosen nondeterministically.
   */
  method Sample(population: seq<TmdbMovie>, k: nat) returns (picked: seq<TmdbMovie>)
    requires k <= |population|
    ensures |picked| == k
    ensures multiset(picked) <= multiset(population)
    ensures DistinctIds(population) ==> DistinctIds(picked)
  {
    picked := [];
    var pool := population;
    while |picked| < k
      invariant |picked| <= k
      invariant |picked| + |pool| == |population|
      invariant multiset(picked) + multiset(pool) == multiset(population)
      invariant DistinctIds(population) ==> DistinctIds(picked) && DistinctIds(pool) && Apart(picked, pool)
      decreases k - |picked|
    {
      var i :| 0 <= i < |pool|;
      MoveToPicked(picked, pool, i);
      picked := picked + [pool[i]];
      pool := pool[..i] + pool[i + 1..];
    }
  }

  /**
   * The candidates: the de-duplicated collection, extended with unseen
   * popular movies when it has fewer than `count` entries.
   */
  function Candidates(genres: seq<int>, count: nat, discover: (string, int, nat) -> ListingPage,
                      popular: nat -> ListingPage, sortBy: string): seq<TmdbMovie>
  {
    var unique := Unseen({}, Collected([], genres, count * 3, discover, sortBy));
    if |unique| < count then unique + Unseen(Ids(unique), Pages(popular, 1, MaxPopularPages))
    else unique
  }

  /** The candidates have distinct ids, and the fallback only appends: the collected movies stay first, in order. */
  lemma CandidatesDistinct(genres: seq<int>, count: nat, discover: (string, int, nat) -> ListingPage,
                           popular: nat -> ListingPage, sortBy: string)
    ensures var unique := Unseen({}, Collected([], genres, count * 3, discover, sortBy));
      var c := Candidates(genres, count, discover, popular, sortBy);
      DistinctIds(c) && |c| >= |unique| && c[..|unique|] == unique
      && (|unique| >= count ==> c == unique)
  {
    var all := Collected([], genres, count * 3, discover, sortBy);
    var unique := Unseen({}, all);
    UnseenDistinct({}, all);
    UnseenIds({}, all);
    if |unique| < count {
      var fallback := Pages(popular, 1, MaxPopularPages);
      var extra := Unseen(Ids(unique), fallback);
      UnseenDistinct(Ids(unique), fallback);
      var c := unique + extra;
      forall i, j | 0 <= i < j < |c| ensures c[i].id != c[j].id {
        if j >= |unique| && i < |unique| {
          assert c[i] in unique && c[j] in extra;
          assert c[i].id in Ids(unique) && c[j].id in Ids(extra);
        }
      }
    }
  }

  /**
   * `get_movie_recommendation`: pick a sort order, collect, de-duplicate,
   * fall back to popular movies if short, and sample `count` of the
   * candidates (fewer if there are fewer).
   */
  method GetMovieRecommendation(genres: seq<int>, count: nat, discover: (string, int, nat) -> ListingPage,
                                popular: nat -> ListingPage)
    returns (movies: seq<TmdbMovie>, ghost sortBy: string, ghost candidates: seq<TmdbMovie>)
    ensures sortBy in SortOptions
    ensures candidates == Candidates(genres, count, discover, popular, sortBy)
    ensures |movies| == if count < |candidates| then count else |candidates|
    ensures count > 0 ==> (movies == [] <==> candidates == [])
    ensures multiset(movies) <= multiset(candidates)
    ensures DistinctIds(movies)
  {
    var s :| 0 <= s < |SortOptions|;
    var chosen := SortOptions[s];
    sortBy := chosen;
    var all := Collect(genres, count * 3, discover, chosen);
    var unique, seen := AppendUnseen([], {}, all);
    assert unique == Unseen({}, all);
    UnseenIds({}, all);
    assert seen == Ids(unique);
    if |unique| < count {
      var fallback := FetchPages(popular, MaxPopularPages);
      unique, seen := AppendUnseen(unique, seen, fallback);
    }
    assert unique == Candidates(genres, count, discover, popular, chosen);
    candidates := unique;
    CandidatesDistinct(genres, count, discover, popular, chosen);
    if unique == [] {
      return [], sortBy, candidates;
    }
    movies := Sample(unique, if count < |unique| then count else |unique|);
  }

  /** A listing whose pages in range each hold the one movie `m` gives one copy of `m` per page. */
  lemma {:induction false} ConstantPages(f: nat -> ListingPage, m: TmdbMovie, page: nat, last: nat)
    requires page <= last + 1
    requires forall q :: page <= q <= last ==> f(q) == Some([m])
    ensures Pages(f, page, last) == seq(last + 1 - page, _ => m)
    decreases last + 1 - page
  {
    if page <= last {
      ConstantPages(f, m, page + 1, last);
    }
  }

  /** Nothing is kept from entries whose ids were all seen already. */
  lemma {:induction false} UnseenAllSeen(seen: set<int>, ms: seq<TmdbMovie>)
    requires forall i :: 0 <= i < |ms| ==> ms[i].id in seen
    ensures Unseen(seen, ms) == []
    decreases |ms|
  {
    if ms != [] {
      UnseenAllSeen(seen, ms[1..]);
    }
  }

  /** A discover listing whose every page holds the single movie `m`. */
  function SameDiscover(m: TmdbMovie): (string, int, nat) -> ListingPage {
    (s: string, g: int, p: nat) => Some([m])
  }

  /** A popular listing whose every page holds the single movie `m`. */
  function SamePopular(m: TmdbMovie): nat -> ListingPage {
    (p: nat) => Some([m])
  }

  /**
   * When every listing page holds the same single movie, the first genre's
   * ten pages reach the threshold, de-duplication leaves that movie alone, and
   * the popular fallback adds nothing new: exactly one candidate.
   */
  lemma RepeatedListingGivesOneCandidate(m: TmdbMovie, genres: seq<int>, sortBy: string)
    requires genres != []
    ensures Candidates(genres, RecommendCount, SameDiscover(m), SamePopular(m), sortBy) == [m]
  {
    var discover := SameDiscover(m);
    var first := Pages(GenreListing(discover, sortBy, genres[0]), 1, MaxGenrePages);
    ConstantPages(GenreListing(discover, sortBy, genres[0]), m, 1, MaxGenrePages);
    assert Collected([], genres, RecommendCount * 3, discover, sortBy) == first;
    assert first == [m] + first[1..];
    UnseenAllSeen({m.id}, first[1..]);
    assert first != [] && first[0] == m;
    assert Unseen({}, first) == [m] + Unseen({} + {m.id}, first[1..]);
    assert {} + {m.id} == {m.id};
    ConstantPages(SamePopular(m), m, 1, MaxPopularPages);
    assert Ids([m]) == {m.id};
    UnseenAllSeen({m.id}, Pages(SamePopular(m), 1, MaxPopularPages));
    var unique := Unseen({}, Collected([], genres, RecommendCount * 3, discover, sortBy));
    assert unique == [m];
    assert Unseen(Ids(unique), Pages(SamePopular(m), 1, MaxPopularPages)) == [];
  }

  // ---------------------------------------------------------------- endpoints

  datatype Recommendation = Recommendation(emotion: string, movies: seq<TmdbMovie>, reason: string)

  /**
   * The recommendation endpoint: reject a blank diary, classify the emotion
   * (a random one, marked as such, when the quota is exhausted), recommend
   * three movies from its genres, and answer 404 when there are none.
   */
  method RecommendMovie(diary: string, reply: ModelReply, discover: (string, int, nat) -> ListingPage,
                        popular: nat -> ListingPage)
    returns (r: Response<Recommendation>, ghost emotion: string, ghost candidates: seq<TmdbMovie>)
    ensures AllSpace(diary, IsPySpace) ==> r == Error(HttpError(400, EmptyDiaryDetail))
    ensures !AllSpace(diary, IsPySpace) && reply.Failed? ==> r == Error(HttpError(500, AnalysisFailedDetail))
    ensures !AllSpace(diary, IsPySpace) && !reply.Failed? ==>
      && emotion in EmotionGenreMap
      && (reply.Answer? && PyStrip(reply.text) in EmotionGenreMap ==> emotion == PyStrip(reply.text))
      && (exists s :: s in SortOptions && candidates == Candidates(EmotionGenreMap[emotion], RecommendCount, discover, popular, s))
      && (r.Error? <==> candidates == [])
      && (r.Error? ==> r.error == HttpError(404, NoMoviesDetail))
    ensures r.Ok? ==>
      && emotion in EmotionGenreMap
      && r.body.reason == EmotionReasonMap[emotion]
      && r.body.emotion == (if reply.QuotaExhausted? then emotion + QuotaSuffix else emotion)
      && 1 <= |r.body.movies| <= RecommendCount
      && |r.body.movies| == (if |candidates| < RecommendCount then |candidates| else RecommendCount)
      && multiset(r.body.movies) <= multiset(candidates)
      && DistinctIds(r.body.movies)
  {
    TrimEmptyIffAllSpace(diary, IsPySpace);
    if PyStrip(diary) == "" {
      return Error(HttpError(400, EmptyDiaryDetail)), "", [];
    }
    var analyzed := AnalyzeEmotion(reply);
    if analyzed.Error? {
      return Error(analyzed.error), "", [];
    }
    var key: string;
    var display: string;
    if analyzed.body.None? {
      EmotionTablesAgree();
      var i :| 0 <= i < |EmotionKeys|;
      key := EmotionKeys[i];
      display := key + QuotaSuffix;
    } else {
      key := analyzed.body.value;
      display := key;
    }
    emotion := key;
    var genres := if key in EmotionGenreMap then EmotionGenreMap[key] else DefaultGenres;
    var movies;
    ghost var sortBy;
    movies, sortBy, candidates := GetMovieRecommendation(genres, RecommendCount, discover, popular);
    if movies == [] {
      return Error(HttpError(404, NoMoviesDetail)), emotion, candidates;
    }
    EmotionTablesAgree();
    var reason := if key in EmotionReasonMap then EmotionReasonMap[key] else DefaultReason;
    r := Ok(Recommendation(display, movies, reason));
  }

  /** The search quality bar; a missing vote field counts as 0. */
  predicate GoodEnough(m: TmdbMovie) {
    m.voteCount.GetOr(0) >= SearchMinVoteCount && m.voteAverage.GetOr(0.0) >= SearchMinVoteAverage
  }

  function QualityFilter(ms: seq<TmdbMovie>): seq<TmdbMovie> {
    if ms == [] then []
    else if GoodEnough(ms[0]) then [ms[0]] + QualityFilter(ms[1..])
    else QualityFilter(ms[1..])
  }

  /**
   * The filter keeps exactly the movies that meet the bar, in their order:
   * a subsequence, all of whose entries pass, holding every passing entry as
   * often as the input does.
   */
  lemma {:induction false} QualityFilterSpec(ms: seq<TmdbMovie>)
    ensures IsSubsequence(QualityFilter(ms), ms)
    ensures forall m :: m in QualityFilter(ms) ==> GoodEnough(m)
    ensures forall m :: GoodEnough(m) ==> multiset(QualityFilter(ms))[m] == multiset(ms)[m]
    decreases |ms|
  {
    if ms != [] {
      QualityFilterSpec(ms[1..]);
      assert ms == [ms[0]] + ms[1..];
      if !GoodEnough(ms[0]) {
        SubsequenceOfTail(QualityFilter(ms[1..]), ms);
      }
    }
  }

  /**
   * The search endpoint: reject a blank query, turn a request error into a
   * 500 error, and filter the results by vote count and average.
   */
  function SearchMovies(query: string, fetched: ListingPage): (r: Response<seq<TmdbMovie>>)
    ensures AllSpace(query, IsPySpace) ==> r == Error(HttpError(400, EmptyQueryDetail))
    ensures !AllSpace(query, IsPySpace) && fetched.None? ==> r == Error(HttpError(500, SearchFailedDetail))
    ensures !AllSpace(query, IsPySpace) && fetched.Some? ==>
      && r.Ok? && IsSubsequence(r.body, fetched.value)
      && (forall m :: m in r.body ==> GoodEnough(m))
      && (forall m :: m in fetched.value && GoodEnough(m) ==> m in r.body)
      && (forall m :: GoodEnough(m) ==> multiset(r.body)[m] == multiset(fetched.value)[m])
  {
    TrimEmptyIffAllSpace(query, IsPySpace);
    if PyStrip(query) == "" then Error(HttpError(400, EmptyQueryDetail))
    else match fetched
      case None => Error(HttpError(500, SearchFailedDetail))
      case Some(results) =>
        QualityFilterSpec(results);
        Ok(QualityFilter(results))
  }
}
