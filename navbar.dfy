/**
 * The navigation bar's search box: the `/search` link built from the typed
 * (or spoken) query and the filter panel, the filter reset, the recent
 * suggestions and the active-filter badge.
 */
module Navbar {
  import opened Wrappers
  import opened Text
  import opened UrlParams
  import Seqs
  import S = SearchHistoryStore
  import SearchPage

  /** The filter panel's record `searchFilters`. */
  datatype NavFilters = NavFilters(contentType: string, year: string, genre: string, language: string)

  /** The panel's initial and cleared record. */
  const NoFilters := NavFilters("all", "", "", "")

  /** How many recent searches the suggestion list asks the store for. */
  const SuggestionLimit: nat := 5

  /**
   * The pairs of the `/search` link for query `q`: `q` always; the type when
   * it is not `'all'`; year, genre and language when non-empty.
   */
  function SearchLink(q: string, f: NavFilters): map<string, string> {
    var withType := Carry(map["q" := q], f.contentType != "all", "type", f.contentType);
    var withYear := Carry(withType, Truthy(f.year), "year", f.year);
    var withGenre := Carry(withYear, Truthy(f.genre), "genre", f.genre);
    Carry(withGenre, Truthy(f.language), "language", f.language)
  }

  /**
   * The `URLSearchParams` built by `handleSearchSubmit` and, after its
   * timer, by `handleVoiceResult`: `set` calls made one by one.
   */
  method BuildSearchParams(text: string, f: NavFilters) returns (params: Params)
    ensures Describes(params, SearchLink(Trim(text), f))
  {
    EmptyDescribes();
    ghost var m := map["q" := Trim(text)];
    SetDescribes([], map[], "q", Trim(text));
    params := Set([], "q", Trim(text));
    SetWhen(params, m, f.contentType != "all", "type", f.contentType);
    m := Carry(m, f.contentType != "all", "type", f.contentType);
    if f.contentType != "all" {
      params := Set(params, "type", f.contentType);
    }
    SetWhen(params, m, Truthy(f.year), "year", f.year);
    m := Carry(m, Truthy(f.year), "year", f.year);
    if Truthy(f.year) {
      params := Set(params, "year", f.year);
    }
    SetWhen(params, m, Truthy(f.genre), "genre", f.genre);
    m := Carry(m, Truthy(f.genre), "genre", f.genre);
    if Truthy(f.genre) {
      params := Set(params, "genre", f.genre);
    }
    SetWhen(params, m, Truthy(f.language), "language", f.language);
    m := Carry(m, Truthy(f.language), "language", f.language);
    if Truthy(f.language) {
      params := Set(params, "language", f.language);
    }
  }

  /** The names of a search link: the query always, each filter exactly when it is carried. */
  lemma SearchLinkNames(q: string, f: NavFilters)
    ensures var m := SearchLink(q, f);
      && "q" in m && m["q"] == q
      && ("type" in m <==> f.contentType != "all") && ("type" in m ==> m["type"] == f.contentType)
      && ("year" in m <==> Truthy(f.year)) && ("year" in m ==> m["year"] == f.year)
      && ("genre" in m <==> Truthy(f.genre)) && ("genre" in m ==> m["genre"] == f.genre)
      && ("language" in m <==> Truthy(f.language)) && ("language" in m ==> m["language"] == f.language)
  {
  }

  /**
   * The search page reads back what the navigation bar sent: the query, and
   * each filter, except that a type of `""` is read as `'all'`.
   */
  lemma SearchLinkRoundTrip(q: string, f: NavFilters, link: Params)
    requires q != ""
    requires Describes(link, SearchLink(q, f))
    ensures SearchPage.QueryOf(link) == q
    ensures SearchPage.FiltersOf(link)
      == SearchPage.SearchFilters(if f.contentType == "" then "all" else f.contentType, f.year, f.genre, f.language)
  {
    var m := SearchLink(q, f);
    SearchLinkNames(q, f);
    DescribedGet(link, m, "q");
    DescribedGet(link, m, "type");
    DescribedGet(link, m, "year");
    DescribedGet(link, m, "genre");
    DescribedGet(link, m, "language");
  }

  /** `hasActiveFilters`: a type other than `'all'`, or any non-empty year, genre or language. */
  predicate HasActiveFilters(f: NavFilters) {
    f.contentType != "all" || Truthy(f.year) || Truthy(f.genre) || Truthy(f.language)
  }

  /** Counted by the badge: a non-empty value other than `'all'`. */
  predicate CountsAsActive(v: string) {
    Truthy(v) && v != "all"
  }

  /** The badge's count: the record's values, in order, that count as active. */
  function ActiveCount(f: NavFilters): (n: nat)
    ensures n <= 4
    ensures n == (if CountsAsActive(f.contentType) then 1 else 0) + (if CountsAsActive(f.year) then 1 else 0)
      + (if CountsAsActive(f.genre) then 1 else 0) + (if CountsAsActive(f.language) then 1 else 0)
  {
    var vs := [f.contentType, f.year, f.genre, f.language];
    var c := (v: string) => if CountsAsActive(v) then 1 else 0;
    assert vs[1..] == [f.year, f.genre, f.language];
    assert vs[1..][1..] == [f.genre, f.language];
    assert vs[1..][1..][1..] == [f.language];
    assert vs[1..][1..][1..][1..] == [];
    assert |Seqs.Filter(vs[1..][1..][1..], CountsAsActive)| == c(f.language);
    assert |Seqs.Filter(vs[1..][1..], CountsAsActive)| == c(f.genre) + c(f.language);
    assert |Seqs.Filter(vs[1..], CountsAsActive)| == c(f.year) + c(f.genre) + c(f.language);
    |Seqs.Filter(vs, CountsAsActive)|
  }

  /**
   * The badge and `hasActiveFilters` agree except on values the panel does
   * not offer: a positive count means the filters are active, and active
   * filters give a positive count unless the type is empty or a year, genre
   * or language is literally `'all'`.
   */
  lemma ActiveCountAgrees(f: NavFilters)
    ensures ActiveCount(f) > 0 ==> HasActiveFilters(f)
    ensures HasActiveFilters(f) && f.contentType != "" && f.year != "all" && f.genre != "all" && f.language != "all"
      ==> ActiveCount(f) > 0
    ensures ActiveCount(f) == 0 <==>
      (!CountsAsActive(f.contentType) && !CountsAsActive(f.year) && !CountsAsActive(f.genre) && !CountsAsActive(f.language))
  {
    var vs := [f.contentType, f.year, f.genre, f.language];
    var kept := Seqs.Filter(vs, CountsAsActive);
    assert f.contentType in vs && f.year in vs && f.genre in vs && f.language in vs;
    if kept != [] {
      assert kept[0] in vs;
    }
  }

  /** The navigation bar's state that the search box uses. */
  class NavbarState {
    var searchQuery: string
    var showMobileMenu: bool
    var showSearchFilters: bool
    var showSearchSuggestions: bool
    var searchFilters: NavFilters
    /** The suggestion list. */
    var recentSearches: seq<string>
    /** The last `/search` link navigated to, if any. */
    var location: Option<Params>

    constructor()
      ensures searchQuery == "" && !showMobileMenu && !showSearchFilters && !showSearchSuggestions
      ensures searchFilters == NoFilters && recentSearches == [] && location == None
    {
      searchQuery := "";
      showMobileMenu := false;
      showSearchFilters := false;
      showSearchSuggestions := false;
      searchFilters := NoFilters;
      recentSearches := [];
      location := None;
    }

    /** The mount effect: the store's five most recent distinct queries. */
    method LoadRecentSearches(history: S.SearchHistoryService)
      modifies this
      ensures recentSearches == S.RecentUnique(S.Decode(history.storage), SuggestionLimit)
      ensures |recentSearches| <= SuggestionLimit
      ensures searchQuery == old(searchQuery) && searchFilters == old(searchFilters) && location == old(location)
      ensures showMobileMenu == old(showMobileMenu) && showSearchFilters == old(showSearchFilters)
      ensures showSearchSuggestions == old(showSearchSuggestions)
    {
      recentSearches := history.GetRecentUniqueSearches(SuggestionLimit);
      S.RecentUniqueDistinct(S.Decode(history.storage), SuggestionLimit);
    }

    /** Navigation to `params`, then the query box emptied and the three panels closed. */
    method Navigate(params: Params)
      modifies this
      ensures location == Some(params) && searchQuery == ""
      ensures !showMobileMenu && !showSearchFilters && !showSearchSuggestions
      ensures searchFilters == old(searchFilters) && recentSearches == old(recentSearches)
    {
      location := Some(params);
      searchQuery := "";
      showMobileMenu := false;
      showSearchFilters := false;
      showSearchSuggestions := false;
    }

    /**
     * `handleSearchSubmit`: a blank query changes nothing; otherwise the bar
     * navigates to the link of the trimmed query and the current filters,
     * empties the box and closes the panels.
     */
    method HandleSearchSubmit()
      modifies this
      ensures IsBlank(old(searchQuery)) ==>
        && location == old(location) && searchQuery == old(searchQuery)
        && showMobileMenu == old(showMobileMenu) && showSearchFilters == old(showSearchFilters)
        && showSearchSuggestions == old(showSearchSuggestions)
      ensures !IsBlank(old(searchQuery)) ==>
        && location.Some? && Describes(location.value, SearchLink(Trim(old(searchQuery)), searchFilters))
        && searchQuery == "" && !showMobileMenu && !showSearchFilters && !showSearchSuggestions
      ensures searchFilters == old(searchFilters) && recentSearches == old(recentSearches)
    {
      if Trim(searchQuery) == "" {
        return;
      }
      var params := BuildSearchParams(searchQuery, searchFilters);
      Navigate(params);
    }

    /**
     * `handleVoiceResult(transcript)`, with its timer taken as fired: a blank
     * transcript changes nothing; otherwise the transcript is shown, then the
     * bar navigates exactly as a typed submit of the same text would.
     */
    method HandleVoiceResult(transcript: string)
      modifies this
      ensures IsBlank(transcript) ==>
        && location == old(location) && searchQuery == old(searchQuery)
        && showMobileMenu == old(showMobileMenu) && showSearchFilters == old(showSearchFilters)
        && showSearchSuggestions == old(showSearchSuggestions)
      ensures !IsBlank(transcript) ==>
        && location.Some? && Describes(location.value, SearchLink(Trim(transcript), searchFilters))
        && searchQuery == "" && !showMobileMenu && !showSearchFilters && !showSearchSuggestions
      ensures searchFilters == old(searchFilters) && recentSearches == old(recentSearches)
    {
      if Trim(transcript) == "" {
        return;
      }
      searchQuery := transcript;
      var params := BuildSearchParams(transcript, searchFilters);
      Navigate(params);
    }

    /** `clearFilters`: the panel is back to its initial record, which is not active and counts 0. */
    method ClearFilters()
      modifies this
      ensures searchFilters == NoFilters
      ensures !HasActiveFilters(searchFilters) && ActiveCount(searchFilters) == 0
      ensures searchQuery == old(searchQuery) && location == old(location) && recentSearches == old(recentSearches)
      ensures showMobileMenu == old(showMobileMenu) && showSearchFilters == old(showSearchFilters)
      ensures showSearchSuggestions == old(showSearchSuggestions)
    {
      searchFilters := NoFilters;
      ActiveCountAgrees(searchFilters);
    }

    /**
     * `handleRecentSearchClick(query)`, with its timer taken as fired: the
     * link carries the query as given and nothing else, whatever the filters.
     */
    method HandleRecentSearchClick(query: string)
      modifies this
      ensures location.Some? && Describes(location.value, map["q" := query])
      ensures searchQuery == "" && !showSearchSuggestions
      ensures showMobileMenu == old(showMobileMenu) && showSearchFilters == old(showSearchFilters)
      ensures searchFilters == old(searchFilters) && recentSearches == old(recentSearches)
    {
      searchQuery := query;
      showSearchSuggestions := false;
      EmptyDescribes();
      SetDescribes([], map[], "q", query);
      var params := Set([], "q", query);
      location := Some(params);
      searchQuery := "";
    }
  }
}
