/**
 * The movie detail overlay: what it derives from a movie record received from
 * the detail endpoint, which sections it shows, and which user events close it.
 * The same derivations exist twice in the repository, as the standalone modal
 * component and as a copy inlined in the page component; they differ only in
 * the Escape-key listener (see InlineCloseCalls). The page renders the inline
 * copy, so the page model closes its overlay through InlineCloseCalls.
 */
module MovieDetail {
  import opened Wrappers
  import opened Text

  datatype CrewMember = CrewMember(job: string, name: string)
  datatype CastMember = CastMember(name: string)
  datatype Credits = Credits(crew: seq<CrewMember>, cast: seq<CastMember>)
  datatype Genre = Genre(id: int, name: string)
  datatype Provider = Provider(providerId: int, providerName: string, logoPath: Option<string>)

  /** One region's entry of the watch-provider map; every list and the link may be absent. */
  datatype RegionProviders = RegionProviders(
    flatrate: Option<seq<Provider>>,
    buy: Option<seq<Provider>>,
    rent: Option<seq<Provider>>,
    link: Option<string>)

  /** The `watch/providers` object: its `results` map is keyed by region code. */
  datatype WatchProviders = WatchProviders(results: Option<map<string, RegionProviders>>)

  /** A movie detail record; absent JSON fields are `None`. */
  datatype Movie = Movie(
    id: int,
    title: string,
    overview: Option<string>,
    posterPath: Option<string>,
    releaseDate: Option<string>,
    voteAverage: Option<real>,
    voteCount: Option<int>,
    runtime: Option<int>,
    genres: Option<seq<Genre>>,
    credits: Option<Credits>,
    watchProviders: Option<WatchProviders>)

  const Region: string := "KR"
  const DirectorJob: string := "Director"
  const CastSeparator: string := ", "
  const LogoBase: string := "https://image.tmdb.org/t/p/original"
  const NoOverview: string := "줄거리 정보가 없습니다."

  /** JavaScript truthiness of an optional string: present and non-empty. */
  predicate Truthy(s: Option<string>) {
    s.Some? && s.value != ""
  }

  // ---------------------------------------------------------------- director

  /** Index of the first crew entry with the given job (`Array.prototype.find`). */
  function FirstWithJob(crew: seq<CrewMember>, job: string): (r: Option<nat>)
    ensures r.Some? ==> r.value < |crew| && crew[r.value].job == job
    ensures r.Some? ==> forall k :: 0 <= k < r.value ==> crew[k].job != job
    ensures r.None? <==> forall k :: 0 <= k < |crew| ==> crew[k].job != job
  {
    if crew == [] then None
    else if crew[0].job == job then Some(0)
    else match FirstWithJob(crew[1..], job)
      case None => None
      case Some(i) => Some(i + 1)
  }

  /** The director: the first crew entry whose job is "Director", absent when there is none. */
  function Director(m: Movie): (r: Option<CrewMember>)
    ensures r.Some? ==> m.credits.Some? && r.value.job == DirectorJob
    ensures r.Some? ==> exists i :: (0 <= i < |m.credits.value.crew| && m.credits.value.crew[i] == r.value
      && forall k :: 0 <= k < i ==> m.credits.value.crew[k].job != DirectorJob)
    ensures r.None? <==> (m.credits.None?
      || forall k :: 0 <= k < |m.credits.value.crew| ==> m.credits.value.crew[k].job != DirectorJob)
  {
    match m.credits
    case None => None
    case Some(c) =>
      match FirstWithJob(c.crew, DirectorJob)
      case None => None
      case Some(i) => Some(c.crew[i])
  }

  // ---------------------------------------------------------------- cast

  /** Names of the first three cast entries, in billing order (`cast.slice(0, 3).map(a => a.name)`). */
  function TopCast(cast: seq<CastMember>): (r: seq<string>)
    ensures |r| == if |cast| < 3 then |cast| else 3
    ensures forall i :: 0 <= i < |r| ==> r[i] == cast[i].name
  {
    var top := if |cast| < 3 then cast else cast[..3];
    seq(|top|, i requires 0 <= i < |top| => top[i].name)
  }

  /** The cast line's text; absent when the record carries no credits. */
  function TopActors(m: Movie): Option<string> {
    match m.credits
    case None => None
    case Some(c) => Some(Join(TopCast(c.cast), CastSeparator))
  }

  /** Four cast entries give exactly the first three names, in order. */
  lemma TopActorsOfFour(m: Movie)
    requires m.credits.Some?
    requires m.credits.value.cast == [CastMember("A"), CastMember("B"), CastMember("C"), CastMember("D")]
    ensures TopActors(m) == Some("A, B, C")
  {
    var names := TopCast(m.credits.value.cast);
    assert names == ["A", "B", "C"];
    assert names[1..] == ["B", "C"] && names[1..][1..] == ["C"];
    assert Join(["C"], CastSeparator) == "C";
    assert Join(["B", "C"], CastSeparator) == "B" + ", " + "C" == "B, C";
    assert Join(names, CastSeparator) == "A" + ", " + "B, C" == "A, B, C";
  }

  /**
   * The cast line is shown exactly when credits are present and the cast has
   * at least two entries or one entry with a non-empty name.
   */
  lemma CastLineShownIff(m: Movie)
    ensures Truthy(TopActors(m)) <==> (m.credits.Some? &&
      (|m.credits.value.cast| >= 2 || (|m.credits.value.cast| == 1 && m.credits.value.cast[0].name != "")))
  {
    if m.credits.Some? {
      JoinEmptyIff(TopCast(m.credits.value.cast), CastSeparator);
    }
  }

  // ---------------------------------------------------------------- watch providers

  datatype Category = Subscription | Purchase | Rental

  /** The KR entry of the watch-provider map, when the record has one. */
  function KrProviders(m: Movie): (r: Option<RegionProviders>)
    ensures r.Some? <==> (m.watchProviders.Some? && m.watchProviders.value.results.Some?
      && Region in m.watchProviders.value.results.value)
    ensures r.Some? ==> r.value == m.watchProviders.value.results.value[Region]
  {
    match m.watchProviders
    case None => None
    case Some(w) =>
      match w.results
      case None => None
      case Some(byRegion) => if Region in byRegion then Some(byRegion[Region]) else None
  }

  /**
   * The provider list of one category: subscription reads `flatrate`, purchase
   * `buy` and rental `rent` of the KR entry. A missing provider object,
   * results map, KR entry or list counts as empty; a present list is taken as is.
   */
  function ProviderList(m: Movie, cat: Category): (r: seq<Provider>)
    ensures (m.watchProviders.None? || m.watchProviders.value.results.None?
      || Region !in m.watchProviders.value.results.value) ==> r == []
    ensures (m.watchProviders.Some? && m.watchProviders.value.results.Some?
      && Region in m.watchProviders.value.results.value) ==>
      var kr := m.watchProviders.value.results.value[Region];
      && (cat == Subscription ==> (kr.flatrate.None? ==> r == []) && (kr.flatrate.Some? ==> r == kr.flatrate.value))
      && (cat == Purchase ==> (kr.buy.None? ==> r == []) && (kr.buy.Some? ==> r == kr.buy.value))
      && (cat == Rental ==> (kr.rent.None? ==> r == []) && (kr.rent.Some? ==> r == kr.rent.value))
  {
    match KrProviders(m)
    case None => []
    case Some(kr) =>
      match cat
      case Subscription => kr.flatrate.GetOr([])
      case Purchase => kr.buy.GetOr([])
      case Rental => kr.rent.GetOr([])
  }

  /**
   * A provider logo's image address: empty for an absent or empty path,
   * otherwise the original-size image base followed by the path.
   */
  function LogoUrl(logoPath: Option<string>): (r: string)
    ensures r == "" <==> !Truthy(logoPath)
    ensures r != "" ==> |r| > |LogoBase| && r[..|LogoBase|] == LogoBase && r[|LogoBase|..] == logoPath.value
  {
    if Truthy(logoPath) then LogoBase + logoPath.value else ""
  }

  /** One category block of the provider section: its logos' addresses and names. */
  datatype ProviderBlock = ProviderBlock(category: Category, logoUrls: seq<string>, names: seq<string>)

  datatype ProviderSection = ProviderSection(blocks: seq<ProviderBlock>, link: Option<string>)

  function Block(m: Movie, cat: Category): (b: ProviderBlock)
    ensures b.category == cat
    ensures |b.logoUrls| == |b.names| == |ProviderList(m, cat)|
    ensures forall i :: 0 <= i < |b.names| ==>
      b.names[i] == ProviderList(m, cat)[i].providerName && b.logoUrls[i] == LogoUrl(ProviderList(m, cat)[i].logoPath)
  {
    var ps := ProviderList(m, cat);
    ProviderBlock(cat,
      seq(|ps|, i requires 0 <= i < |ps| => LogoUrl(ps[i].logoPath)),
      seq(|ps|, i requires 0 <= i < |ps| => ps[i].providerName))
  }

  /** The block of a category when its list is non-empty. */
  function BlockIfAny(m: Movie, cat: Category): seq<ProviderBlock> {
    if |ProviderList(m, cat)| > 0 then [Block(m, cat)] else []
  }

  /** The provider section: absent unless at least one of the three lists is non-empty. */
  function Providers(m: Movie): Option<ProviderSection> {
    if |ProviderList(m, Subscription)| > 0 || |ProviderList(m, Purchase)| > 0 || |ProviderList(m, Rental)| > 0 then
      var link := match KrProviders(m) case Some(kr) => kr.link case None => None;
      Some(ProviderSection(
        BlockIfAny(m, Subscription) + BlockIfAny(m, Purchase) + BlockIfAny(m, Rental),
        if Truthy(link) then link else None))
    else None
  }

  // ---------------------------------------------------------------- runtime

  /** What the runtime slot of the info group renders. */
  datatype RuntimeItem = NoRuntime | StrayZero | Minutes(minutes: int)

  /**
   * The runtime slot as written: `{movie.runtime && (...)}` renders nothing for
   * an absent runtime, but a runtime of 0 is itself rendered, as the text "0".
   */
  function RuntimeItemAsWritten(runtime: Option<int>): RuntimeItem {
    match runtime
    case None => NoRuntime
    case Some(n) => if n == 0 then StrayZero else Minutes(n)
  }

  lemma ZeroRuntimeRendersStrayText()
    ensures RuntimeItemAsWritten(Some(0)) == StrayZero
  {
  }

  /** The runtime slot as intended: the runtime line exactly when the runtime is truthy, nothing otherwise. */
  function RuntimeLine(runtime: Option<int>): (r: RuntimeItem)
    ensures r != StrayZero
    ensures r.Minutes? <==> runtime.Some? && runtime.value != 0
    ensures r.Minutes? ==> r.minutes == runtime.value
  {
    match runtime
    case None => NoRuntime
    case Some(n) => if n == 0 then NoRuntime else Minutes(n)
  }

  /** The rendered slot and the intended one differ exactly for a runtime of 0. */
  lemma RuntimeSlotsDifferOnlyAtZero(runtime: Option<int>)
    ensures RuntimeItemAsWritten(runtime) != RuntimeLine(runtime) <==> runtime == Some(0)
  {
  }

  // ---------------------------------------------------------------- the view

  /** The genre line's parts: each genre's name, in order (`genres.map(g => g.name)`). */
  function GenreNames(genres: seq<Genre>): (r: seq<string>)
    ensures |r| == |genres|
    ensures forall i :: 0 <= i < |r| ==> r[i] == genres[i].name
  {
    seq(|genres|, i requires 0 <= i < |genres| => genres[i].name)
  }

  /**
   * The derived detail view; `None` components are lines that are not shown,
   * except `rating`, whose `None` is the "N/A" text. The vote count is
   * rendered as it comes, and an absent one renders as empty text.
   */
  datatype DetailView = DetailView(
    title: string,
    releaseDate: Option<string>,
    rating: Option<real>,
    voteCount: Option<int>,
    runtime: RuntimeItem,
    genres: Option<string>,
    director: Option<string>,
    cast: Option<string>,
    providers: Option<ProviderSection>,
    overview: string)

  /**
   * The overlay's content for the selected movie, as the component renders
   * it (with the stray runtime text); nothing at all for no movie.
   */
  function Render(movie: Option<Movie>): (v: Option<DetailView>)
    ensures v.None? <==> movie.None?
  {
    match movie
    case None => None
    case Some(m) =>
      var genres := m.genres.GetOr([]);
      var actors := TopActors(m);
      Some(DetailView(
        m.title,
        m.releaseDate,
        if m.voteAverage.Some? && m.voteAverage.value != 0.0 then m.voteAverage else None,
        m.voteCount,
        RuntimeItemAsWritten(m.runtime),
        if |genres| > 0 then Some(Join(GenreNames(genres), ", ")) else None,
        match Director(m) case Some(d) => Some(d.name) case None => None,
        if Truthy(actors) then actors else None,
        Providers(m),
        if Truthy(m.overview) then m.overview.value else NoOverview))
  }

  /** The provider section is shown iff at least one of the three lists is non-empty. */
  lemma ProviderSectionShownIff(m: Movie)
    ensures Render(Some(m)).value.providers.Some? <==>
      exists cat: Category :: |ProviderList(m, cat)| > 0
  {
    if |ProviderList(m, Subscription)| == 0 && |ProviderList(m, Purchase)| == 0 && |ProviderList(m, Rental)| == 0 {
      forall cat: Category ensures |ProviderList(m, cat)| == 0 {
        match cat
        case Subscription =>
        case Purchase =>
        case Rental =>
      }
    }
  }

  /** The blocks of the provider section: one per category whose list is non-empty, in the order subscription, purchase, rental. */
  lemma SectionBlocks(m: Movie)
    requires Providers(m).Some?
    ensures Providers(m).value.blocks == BlockIfAny(m, Subscription) + BlockIfAny(m, Purchase) + BlockIfAny(m, Rental)
  {
  }

  /** Inside a shown section, each category has a block iff its own list is non-empty. */
  lemma ProviderBlocksShownIff(m: Movie, cat: Category)
    requires Providers(m).Some?
    ensures var s := Providers(m).value;
      (exists b :: b in s.blocks && b.category == cat) <==> |ProviderList(m, cat)| > 0
  {
    var s := Providers(m).value;
    SectionBlocks(m);
    BlockIfAnyShape(m, Subscription);
    BlockIfAnyShape(m, Purchase);
    BlockIfAnyShape(m, Rental);
    BlockIfAnyShape(m, cat);
    assert forall b :: b in s.blocks <==>
      b in BlockIfAny(m, Subscription) || b in BlockIfAny(m, Purchase) || b in BlockIfAny(m, Rental);
  }

  /** The blocks come in the order subscription, purchase, rental. */
  lemma ProviderBlocksOrdered(m: Movie)
    requires Providers(m).Some?
    ensures var s := Providers(m).value;
      forall i, j :: 0 <= i < j < |s.blocks| ==> CategoryRank(s.blocks[i].category) < CategoryRank(s.blocks[j].category)
  {
    SectionBlocks(m);
    var b1, b2, b3 := BlockIfAny(m, Subscription), BlockIfAny(m, Purchase), BlockIfAny(m, Rental);
    BlockIfAnyShape(m, Subscription);
    BlockIfAnyShape(m, Purchase);
    BlockIfAnyShape(m, Rental);
    var bs := b1 + b2 + b3;
    forall i | 0 <= i < |bs|
      ensures CategoryRank(bs[i].category) ==
        if i < |b1| then 0 else if i < |b1| + |b2| then 1 else 2
    {
      if i < |b1| {
        assert bs[i] in b1;
      } else if i < |b1| + |b2| {
        assert bs[i] == b2[i - |b1|] && bs[i] in b2;
      } else {
        assert bs[i] == b3[i - |b1| - |b2|] && bs[i] in b3;
      }
    }
  }

  /** Inside a shown section, the external link is there iff the region's link is truthy. */
  lemma ProviderLinkShownIff(m: Movie)
    requires Providers(m).Some?
    ensures Providers(m).value.link.Some? <==> KrProviders(m).Some? && Truthy(KrProviders(m).value.link)
  {
  }

  lemma BlockIfAnyShape(m: Movie, cat: Category)
    ensures |BlockIfAny(m, cat)| <= 1
    ensures forall b :: b in BlockIfAny(m, cat) ==> b.category == cat
    ensures |ProviderList(m, cat)| > 0 ==> Block(m, cat) in BlockIfAny(m, cat)
  {
  }

  function CategoryRank(c: Category): nat {
    match c
    case Subscription => 0
    case Purchase => 1
    case Rental => 2
  }

  /** No provider section, hence no external link, without a non-empty list. */
  lemma LinkOnlyInsideSection(m: Movie)
    requires forall cat: Category :: ProviderList(m, cat) == []
    ensures Render(Some(m)).value.providers.None?
  {
    assert ProviderList(m, Subscription) == [];
    assert ProviderList(m, Purchase) == [];
    assert ProviderList(m, Rental) == [];
  }

  /**
   * The other lines: the overview falls back to a fixed notice when absent or
   * empty, genres show only for a non-empty list, as their names joined by ", ", the director line carries
   * the first director's name, the rating is "N/A" for an absent or zero
   * average, and the runtime shows for a non-zero runtime and as a stray "0"
   * for a zero one.
   */
  lemma ViewLines(m: Movie)
    ensures var v := Render(Some(m)).value;
      && (v.overview == if Truthy(m.overview) then m.overview.value else NoOverview)
      && (v.genres.Some? <==> m.genres.Some? && |m.genres.value| > 0)
      && (v.genres.Some? ==> v.genres.value == Join(GenreNames(m.genres.value), ", "))
      && (v.director.Some? <==> Director(m).Some?)
      && (v.director.Some? ==> v.director.value == Director(m).value.name)
      && (v.rating.None? <==> m.voteAverage.None? || m.voteAverage.value == 0.0)
      && (v.rating.Some? ==> v.rating == m.voteAverage)
      && v.voteCount == m.voteCount
      && (v.runtime.Minutes? <==> m.runtime.Some? && m.runtime.value != 0)
      && (v.runtime.Minutes? ==> v.runtime.minutes == m.runtime.value)
      && (v.runtime == StrayZero <==> m.runtime == Some(0))
      && (v.cast == if Truthy(TopActors(m)) then TopActors(m) else None)
  {
  }

  // ---------------------------------------------------------------- closing

  /** The overlay's elements: the close button lies inside the content region, which lies inside the overlay. */
  datatype Element = CloseButton | Content | Overlay

  /** A click's target followed by its ancestors, innermost first: the bubbling order. */
  function BubblePath(target: Element): seq<Element> {
    match target
    case CloseButton => [CloseButton, Content, Overlay]
    case Content => [Content, Overlay]
    case Overlay => [Overlay]
  }

  /** Number of `onClose` calls while a click bubbles along `path`; the content region stops propagation. */
  function ClickCloseCalls(path: seq<Element>): nat {
    if path == [] then 0
    else match path[0]
      case Content => 0
      case CloseButton => 1 + ClickCloseCalls(path[1..])
      case Overlay => 1 + ClickCloseCalls(path[1..])
  }

  datatype ModalEvent = Click(target: Element) | KeyDown(key: string)

  /** Number of `onClose` calls an event causes in the standalone modal component, which listens for Escape. */
  function CloseCalls(e: ModalEvent): nat {
    match e
    case Click(t) => ClickCloseCalls(BubblePath(t))
    case KeyDown(k) => if k == "Escape" then 1 else 0
  }

  /**
   * Escape, the close button and a background click each call `onClose`
   * exactly once; a click on the content region and any other key do not.
   */
  lemma DismissalsCloseOnce(e: ModalEvent)
    ensures CloseCalls(e) <= 1
    ensures CloseCalls(e) == 1 <==> e == KeyDown("Escape") || e == Click(CloseButton) || e == Click(Overlay)
  {
  }

  /** Number of `onClose` calls in the copy inlined in the page component, which has no key listener. */
  function InlineCloseCalls(e: ModalEvent): nat {
    match e
    case Click(t) => ClickCloseCalls(BubblePath(t))
    case KeyDown(_) => 0
  }

  /** The page renders its inline copy, so Escape leaves the overlay open there. */
  lemma InlineModalIgnoresEscape()
    ensures InlineCloseCalls(KeyDown("Escape")) == 0
    ensures CloseCalls(KeyDown("Escape")) == 1
  {
  }
}
