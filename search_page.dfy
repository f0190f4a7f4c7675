/**
 * The search page (`Search`): reads its filters from the URL parameters,
 * narrows the results of a search through a chain of order-preserving
 * filters, pages through further results, records each search in the
 * history store, and edits its own URL parameters to clear filters.
 */
module SearchPage {
  import opened Wrappers
  import opened Text
  import opened Seqs
  import opened UrlParams
  import Languages
  import S = SearchHistoryStore
  import P = SearchHistoryPage

  /** Results per page of the search service. */
  const PageSize: nat := 20

  const SearchFailed := "Failed to search content. Please try again."
  const LoadMoreFailed := "Failed to load more results"

  /** One search result; a missing field is `None`. */
  datatype Item = Item(
    mediaType: Option<string>,
    title: Option<string>,
    name: Option<string>,
    knownForDepartment: Option<string>,
    releaseDate: Option<string>,
    firstAirDate: Option<string>,
    overview: Option<string>,
    originalLanguage: Option<string>)

  /** What the search service returns; a missing `results` or `total_results` reads as `[]` or 0. */
  datatype Response = Response(items: seq<Item>, totalResults: nat)

  /** A string field in a JavaScript condition: set and non-empty. */
  predicate Present(v: Option<string>) {
    v.Some? && v.value != ""
  }

  /** `v || fallback` */
  function OrElse(v: Option<string>, fallback: string): (r: string)
    ensures Present(v) ==> r == v.value
    ensures !Present(v) ==> r == fallback
  {
    if Present(v) then v.value else fallback
  }

  /** The filters as the page reads them from its URL parameters. */
  datatype SearchFilters = SearchFilters(contentType: string, year: string, genre: string, language: string)

  function QueryOf(p: Params): string {
    OrElse(Get(p, "q"), "")
  }

  function FiltersOf(p: Params): SearchFilters {
    SearchFilters(OrElse(Get(p, "type"), "all"), OrElse(Get(p, "year"), ""), OrElse(Get(p, "genre"), ""), OrElse(Get(p, "language"), ""))
  }

  // ---------------------------------------------------------------- the four filters

  /** The type filter: `'movie'` and `'tv'` also accept an untyped result that has only a title or only a name. */
  predicate TypeMatches(contentType: string, x: Item) {
    if contentType == "movie" then x.mediaType == Some("movie") || (!Present(x.mediaType) && Present(x.title) && !Present(x.name))
    else if contentType == "tv" then x.mediaType == Some("tv") || (!Present(x.mediaType) && Present(x.name) && !Present(x.title))
    else if contentType == "person" then x.mediaType == Some("person") || Present(x.knownForDepartment)
    else true
  }

  /**
   * The year filter: the release date, or else the first air date, must be
   * present and fall in the given year. `releaseYear` stands for
   * `new Date(d).getFullYear().toString()`.
   */
  predicate YearMatches(year: string, x: Item, releaseYear: string -> string) {
    var date := OrElse(x.releaseDate, OrElse(x.firstAirDate, ""));
    date != "" && releaseYear(date) == year
  }

  /** The genre filter: the lower-cased genre occurs in the overview or in the title (or name). */
  predicate GenreMatches(genre: string, x: Item) {
    var overview := Lower(OrElse(x.overview, ""));
    var title := Lower(OrElse(x.title, OrElse(x.name, "")));
    Contains(overview, Lower(genre)) || Contains(title, Lower(genre))
  }

  /** The language filter: the code equals or contains the filter, or the language's name contains it. */
  predicate LanguageMatches(language: string, x: Item) {
    var code := Lower(OrElse(x.originalLanguage, ""));
    var wanted := Lower(language);
    code == wanted || Contains(code, wanted) || Contains(Lower(Languages.LanguageName(code)), wanted)
  }

  /** A result survives the chain when it passes every filter that is switched on. */
  predicate Keeps(f: SearchFilters, x: Item, releaseYear: string -> string) {
    && (f.contentType != "all" ==> TypeMatches(f.contentType, x))
    && (f.year != "" ==> YearMatches(f.year, x, releaseYear))
    && (f.genre != "" ==> GenreMatches(f.genre, x))
    && (f.language != "" ==> LanguageMatches(f.language, x))
  }

  /** `Keeps` as a value, for `Filter`. */
  function Survives(f: SearchFilters, releaseYear: string -> string): Item -> bool {
    (x: Item) => Keeps(f, x, releaseYear)
  }

  /**
   * `filtered` is what the chain leaves of `items`: exactly the filter of
   * `items` by every switched-on test, so every kept result keeps its
   * position and its multiplicity; in particular an order-preserving
   * subsequence holding exactly the results that pass.
   */
  ghost predicate FilteredFrom(filtered: seq<Item>, items: seq<Item>, f: SearchFilters, releaseYear: string -> string) {
    && filtered == Filter(items, Survives(f, releaseYear))
    && SubsequenceOf(filtered, items)
    && forall x :: x in filtered <==> x in items && Keeps(f, x, releaseYear)
  }

  /** The filters up to and including stage `stage` of the chain (1 type, 2 year, 3 genre, 4 language). */
  predicate KeepsUpTo(f: SearchFilters, x: Item, releaseYear: string -> string, stage: nat) {
    && (stage >= 1 && f.contentType != "all" ==> TypeMatches(f.contentType, x))
    && (stage >= 2 && f.year != "" ==> YearMatches(f.year, x, releaseYear))
    && (stage >= 3 && f.genre != "" ==> GenreMatches(f.genre, x))
    && (stage >= 4 && f.language != "" ==> LanguageMatches(f.language, x))
  }

  /** `KeepsUpTo` as a value, for `Filter`. */
  function UpTo(f: SearchFilters, releaseYear: string -> string, stage: nat): Item -> bool {
    (x: Item) => KeepsUpTo(f, x, releaseYear, stage)
  }

  /** After stage `stage` of the chain the list is the filter of the response by the stages so far. */
  ghost predicate Narrowed(filtered: seq<Item>, items: seq<Item>, f: SearchFilters, releaseYear: string -> string, stage: nat) {
    filtered == Filter(items, UpTo(f, releaseYear, stage))
  }

  /**
   * One `filter` stage of the chain: filtering the filter of the response by
   * the earlier stages (`prior`) with the next test (`keep`) is filtering the
   * response once by the stages so far (`after`).
   */
  lemma Stage(before: seq<Item>, items: seq<Item>, prior: Item -> bool, keep: Item -> bool, after: Item -> bool)
    requires before == Filter(items, prior)
    requires forall x :: after(x) == (prior(x) && keep(x))
    ensures Filter(before, keep) == Filter(items, after)
  {
    FilterFilter(items, prior, keep, after);
  }

  /**
   * A stage that is switched off adds no condition: the stages up to it keep
   * what the stages before it keep.
   */
  lemma SkippedStage(before: seq<Item>, items: seq<Item>, f: SearchFilters, releaseYear: string -> string, stage: nat)
    requires stage >= 1 && Narrowed(before, items, f, releaseYear, stage - 1)
    requires forall x :: KeepsUpTo(f, x, releaseYear, stage) == KeepsUpTo(f, x, releaseYear, stage - 1)
    ensures Narrowed(before, items, f, releaseYear, stage)
  {
    FilterCongruent(items, UpTo(f, releaseYear, stage - 1), UpTo(f, releaseYear, stage));
  }

  /**
   * The filter chain of `fetchResults` and `loadMoreResults`: every stage
   * that is switched on narrows the list; the result is the response
   * filtered once by every switched-on test.
   */
  method ApplyFilters(items: seq<Item>, f: SearchFilters, releaseYear: string -> string) returns (filtered: seq<Item>)
    ensures FilteredFrom(filtered, items, f, releaseYear)
  {
    filtered := items;
    NoStage(items, f, releaseYear);
    if f.contentType != "all" {
      TypeStage(filtered, items, f, releaseYear);
      filtered := Filter(filtered, (x: Item) => TypeMatches(f.contentType, x));
    } else {
      SkippedStage(filtered, items, f, releaseYear, 1);
    }
    if f.year != "" {
      YearStage(filtered, items, f, releaseYear);
      filtered := Filter(filtered, (x: Item) => YearMatches(f.year, x, releaseYear));
    } else {
      SkippedStage(filtered, items, f, releaseYear, 2);
    }
    if f.genre != "" {
      GenreStage(filtered, items, f, releaseYear);
      filtered := Filter(filtered, (x: Item) => GenreMatches(f.genre, x));
    } else {
      SkippedStage(filtered, items, f, releaseYear, 3);
    }
    if f.language != "" {
      LanguageStage(filtered, items, f, releaseYear);
      filtered := Filter(filtered, (x: Item) => LanguageMatches(f.language, x));
    } else {
      SkippedStage(filtered, items, f, releaseYear, 4);
    }
    AllStages(filtered, items, f, releaseYear);
  }

  /** The type stage, switched on: it keeps the results of the wanted type. */
  lemma TypeStage(before: seq<Item>, items: seq<Item>, f: SearchFilters, releaseYear: string -> string)
    requires f.contentType != "all" && Narrowed(before, items, f, releaseYear, 0)
    ensures Narrowed(Filter(before, (x: Item) => TypeMatches(f.contentType, x)), items, f, releaseYear, 1)
  {
    Stage(before, items, UpTo(f, releaseYear, 0), (x: Item) => TypeMatches(f.contentType, x), UpTo(f, releaseYear, 1));
  }

  /** The year stage, switched on: it keeps the results released in the wanted year. */
  lemma YearStage(before: seq<Item>, items: seq<Item>, f: SearchFilters, releaseYear: string -> string)
    requires f.year != "" && Narrowed(before, items, f, releaseYear, 1)
    ensures Narrowed(Filter(before, (x: Item) => YearMatches(f.year, x, releaseYear)), items, f, releaseYear, 2)
  {
    Stage(before, items, UpTo(f, releaseYear, 1), (x: Item) => YearMatches(f.year, x, releaseYear), UpTo(f, releaseYear, 2));
  }

  /** The genre stage, switched on: it keeps the results whose text mentions the genre. */
  lemma GenreStage(before: seq<Item>, items: seq<Item>, f: SearchFilters, releaseYear: string -> string)
    requires f.genre != "" && Narrowed(before, items, f, releaseYear, 2)
    ensures Narrowed(Filter(before, (x: Item) => GenreMatches(f.genre, x)), items, f, releaseYear, 3)
  {
    Stage(before, items, UpTo(f, releaseYear, 2), (x: Item) => GenreMatches(f.genre, x), UpTo(f, releaseYear, 3));
  }

  /** The language stage, switched on: it keeps the results in the wanted language. */
  lemma LanguageStage(before: seq<Item>, items: seq<Item>, f: SearchFilters, releaseYear: string -> string)
    requires f.language != "" && Narrowed(before, items, f, releaseYear, 3)
    ensures Narrowed(Filter(before, (x: Item) => LanguageMatches(f.language, x)), items, f, releaseYear, 4)
  {
    Stage(before, items, UpTo(f, releaseYear, 3), (x: Item) => LanguageMatches(f.language, x), UpTo(f, releaseYear, 4));
  }

  /** Before any stage runs, the list is the response itself. */
  lemma NoStage(items: seq<Item>, f: SearchFilters, releaseYear: string -> string)
    ensures Narrowed(items, items, f, releaseYear, 0)
  {
    FilterAll(items, UpTo(f, releaseYear, 0));
  }

  /** After the last stage the list is what the whole chain leaves. */
  lemma AllStages(filtered: seq<Item>, items: seq<Item>, f: SearchFilters, releaseYear: string -> string)
    requires Narrowed(filtered, items, f, releaseYear, 4)
    ensures FilteredFrom(filtered, items, f, releaseYear)
  {
    FilterCongruent(items, UpTo(f, releaseYear, 4), Survives(f, releaseYear));
    FilterIsSubsequence(items, Survives(f, releaseYear));
  }

  /**
   * The chain returns the response unchanged exactly when every result
   * passes; in particular when no filter is switched on.
   */
  lemma ChainKeepsAll(filtered: seq<Item>, items: seq<Item>, f: SearchFilters, releaseYear: string -> string)
    requires FilteredFrom(filtered, items, f, releaseYear)
    ensures filtered == items <==> forall i :: 0 <= i < |items| ==> Keeps(f, items[i], releaseYear)
    ensures f.contentType == "all" && f.year == "" && f.genre == "" && f.language == "" ==> filtered == items
  {
    FilterKeepsAll(items, Survives(f, releaseYear));
  }

  /**
   * On a first page of at most twenty results, the page count taken from
   * the filtered results is at most one, so page 1 is already the last page
   * and `loadMoreResults` never fetches.
   */
  lemma FirstPageIsLast(filtered: seq<Item>, items: seq<Item>, f: SearchFilters, releaseYear: string -> string)
    requires |items| <= PageSize && FilteredFrom(filtered, items, f, releaseYear)
    ensures TotalPages(|filtered|) <= 1
  {
  }

  /** `'all'` and any type other than movie, tv and person keep every result. */
  lemma OtherTypesKeepAll(contentType: string, x: Item)
    requires contentType != "movie" && contentType != "tv" && contentType != "person"
    ensures TypeMatches(contentType, x)
  {
  }

  /** No result passes both the movie and the tv filter. */
  lemma MovieAndTvExclusive(x: Item)
    ensures !(TypeMatches("movie", x) && TypeMatches("tv", x))
  {
  }

  /** A result without any date never passes a year filter. */
  lemma UndatedFailsYear(year: string, x: Item, releaseYear: string -> string)
    requires !Present(x.releaseDate) && !Present(x.firstAirDate)
    ensures !YearMatches(year, x, releaseYear)
  {
  }

  /** The genre filter keeps a result exactly when the lower-cased genre occurs at some position of the lower-cased overview or title. */
  lemma GenreMatchesIffOccurs(genre: string, x: Item)
    ensures GenreMatches(genre, x) <==>
      (exists i :: OccursAt(Lower(OrElse(x.overview, "")), Lower(genre), i))
      || (exists i :: OccursAt(Lower(OrElse(x.title, OrElse(x.name, ""))), Lower(genre), i))
  {
    ContainsIffOccurs(Lower(OrElse(x.overview, "")), Lower(genre));
    ContainsIffOccurs(Lower(OrElse(x.title, OrElse(x.name, ""))), Lower(genre));
  }

  /**
   * The language test reduces to containment: equality is a special case of
   * it, and for a code missing from the table the name test is the code test.
   */
  lemma LanguageMatchesReduces(language: string, x: Item)
    ensures var code := Lower(OrElse(x.originalLanguage, ""));
      && (LanguageMatches(language, x) <==> Contains(code, Lower(language)) || Contains(Lower(Languages.LanguageName(code)), Lower(language)))
      && (code !in Languages.Names ==> (LanguageMatches(language, x) <==> Contains(code, Lower(language))))
  {
    var code := Lower(OrElse(x.originalLanguage, ""));
    ContainsSelfAndEmpty(code);
    if code !in Languages.Names {
      Languages.FallbackLowersToCode(code);
      LowerIdempotent(OrElse(x.originalLanguage, ""));
    }
  }

  // ---------------------------------------------------------------- pages and history

  /** `Math.ceil(n / 20)`: the fewest pages of twenty that hold `n` results. */
  function TotalPages(n: nat): (pages: nat)
    ensures pages * PageSize >= n
    ensures pages > 0 ==> (pages - 1) * PageSize < n
  {
    (n + PageSize - 1) / PageSize
  }

  /** The filters recorded with a search: `'all'` and empty filters become `undefined`. */
  function HistoryFilters(f: SearchFilters): (r: S.FilterSet)
    ensures r.contentType.None? <==> f.contentType == "all"
    ensures r.year.None? <==> f.year == ""
    ensures r.genre.None? <==> f.genre == ""
    ensures r.language.None? <==> f.language == ""
  {
    S.FilterSet(
      if f.contentType != "all" then Some(f.contentType) else None,
      if f.year != "" then Some(f.year) else None,
      if f.genre != "" then Some(f.genre) else None,
      if f.language != "" then Some(f.language) else None)
  }

  /**
   * Repeating a recorded search from the history page reproduces its type,
   * year and genre filters exactly as this page reads them, and drops its
   * language filter.
   */
  lemma RepeatRestoresFilters(p: Params, e: S.Entry, link: Params)
    requires e.filters == HistoryFilters(FiltersOf(p))
    requires Describes(link, P.RepeatLink(e))
    ensures QueryOf(link) == e.query
    ensures FiltersOf(link) == FiltersOf(p).(language := "")
  {
    P.RepeatLinkReads(e, link);
  }

  // ---------------------------------------------------------------- the page

  /** The page's state. */
  class SearchPageState {
    /** `searchParams`: the URL parameters. */
    var searchParams: Params
    var results: seq<Item>
    var loading: bool
    var error: string
    var page: nat
    var totalPages: nat
    var totalResults: nat
    var filteredCount: nat

    constructor(params: Params)
      ensures searchParams == params && results == [] && !loading && error == ""
      ensures page == 1 && totalPages == 0 && totalResults == 0 && filteredCount == 0
    {
      searchParams := params;
      results := [];
      loading := false;
      error := "";
      page := 1;
      totalPages := 0;
      totalResults := 0;
      filteredCount := 0;
    }

    /** `hasActiveFilters` */
    predicate HasActiveFilters()
      reads this
    {
      var f := FiltersOf(searchParams);
      f.contentType != "all" || f.year != "" || f.genre != "" || f.language != ""
    }

    /**
     * `fetchResults()`, given the outcome of `searchContent(query)` (`None`
     * when it throws). Without a query nothing happens. Otherwise the page is
     * reset to 1; on success the filtered results replace the old ones, the
     * page count is the ceiling of their number over 20, and the search is
     * recorded in the history with the filtered count and the non-default
     * filters; on failure the error is set and the history is untouched.
     */
    method FetchResults(response: Option<Response>, releaseYear: string -> string,
                        history: S.SearchHistoryService, id: string, now: int)
      modifies this, history
      ensures searchParams == old(searchParams)
      ensures QueryOf(searchParams) == "" ==>
        && results == old(results) && loading == old(loading) && page == old(page) && error == old(error)
        && totalPages == old(totalPages) && filteredCount == old(filteredCount) && totalResults == old(totalResults)
        && history.storage == old(history.storage)
      ensures QueryOf(searchParams) != "" ==> page == 1 && !loading
      ensures QueryOf(searchParams) != "" && response.None? ==>
        && error == SearchFailed && results == old(results)
        && totalPages == old(totalPages) && filteredCount == old(filteredCount) && totalResults == old(totalResults)
        && history.storage == old(history.storage)
      ensures QueryOf(searchParams) != "" && response.Some? ==>
        && error == old(error)
        && FilteredFrom(results, response.value.items, FiltersOf(searchParams), releaseYear)
        && filteredCount == |results| && totalPages == TotalPages(|results|)
        && totalResults == response.value.totalResults
        && (|response.value.items| <= PageSize ==> totalPages <= 1)
        && history.storage == S.Recorded(old(history.storage), QueryOf(searchParams), |results|,
             Some(HistoryFilters(FiltersOf(searchParams))), id, now)
    {
      var query := QueryOf(searchParams);
      if query == "" {
        return;
      }
      loading := true;
      page := 1;
      if response.None? {
        error := SearchFailed;
      } else {
        var f := FiltersOf(searchParams);
        var filteredResults := ShowFirstPage(response.value, f, releaseYear);
        history.AddToHistory(query, |filteredResults|, Some(HistoryFilters(f)), id, now);
      }
      loading := false;
    }

    /** The success path of `fetchResults`: the filtered results, their count and page count replace the old ones. */
    method ShowFirstPage(data: Response, f: SearchFilters, releaseYear: string -> string) returns (filtered: seq<Item>)
      modifies this
      ensures FilteredFrom(filtered, data.items, f, releaseYear)
      ensures results == filtered && filteredCount == |filtered| && totalPages == TotalPages(|filtered|)
      ensures totalResults == data.totalResults
      ensures searchParams == old(searchParams) && loading == old(loading) && page == old(page) && error == old(error)
    {
      filtered := ApplyFilters(data.items, f, releaseYear);
      results := filtered;
      totalResults := data.totalResults;
      filteredCount := |filtered|;
      totalPages := TotalPages(|filtered|);
    }

    /**
     * `loadMoreResults()`, given the outcome of fetching the next page. On
     * the last page, or while loading, nothing happens. Otherwise a success
     * appends the filtered new results after the old ones and advances the
     * page by one; a failure sets the error and keeps page and results.
     */
    method LoadMoreResults(response: Option<Response>, releaseYear: string -> string)
      modifies this
      ensures searchParams == old(searchParams) && totalPages == old(totalPages)
      ensures totalResults == old(totalResults) && filteredCount == old(filteredCount)
      ensures old(page >= totalPages || loading) ==>
        results == old(results) && page == old(page) && loading == old(loading) && error == old(error)
      ensures !old(page >= totalPages || loading) ==> !loading
      ensures !old(page >= totalPages || loading) && response.None? ==>
        results == old(results) && page == old(page) && error == LoadMoreFailed
      ensures !old(page >= totalPages || loading) && response.Some? ==>
        && page == old(page) + 1 && page <= totalPages && error == old(error)
        && |results| >= |old(results)| && results[..|old(results)|] == old(results)
        && FilteredFrom(results[|old(results)|..], response.value.items, FiltersOf(searchParams), releaseYear)
    {
      if page >= totalPages || loading {
        return;
      }
      loading := true;
      var nextPage := page + 1;
      if response.None? {
        error := LoadMoreFailed;
      } else {
        var filteredResults := ApplyFilters(response.value.items, FiltersOf(searchParams), releaseYear);
        var oldResults := results;
        results := results + filteredResults;
        assert results[..|oldResults|] == oldResults && results[|oldResults|..] == filteredResults;
        page := nextPage;
      }
      loading := false;
    }

    /** `clearFilter(filterType)`: that one parameter is removed and every other is kept. */
    method ClearFilter(filterType: string)
      modifies this
      ensures Get(searchParams, filterType) == None
      ensures forall other :: other != filterType ==> Get(searchParams, other) == Get(old(searchParams), other)
      ensures results == old(results) && page == old(page)
      ensures loading == old(loading) && error == old(error) && totalPages == old(totalPages)
      ensures totalResults == old(totalResults) && filteredCount == old(filteredCount)
    {
      searchParams := Delete(searchParams, filterType);
    }

    /** `clearAllFilters()`: only the query is kept, and only when there is one. */
    method ClearAllFilters()
      modifies this
      ensures QueryOf(searchParams) == QueryOf(old(searchParams))
      ensures !HasActiveFilters()
      ensures forall other :: other != "q" ==> Get(searchParams, other) == None
      ensures results == old(results) && page == old(page)
      ensures loading == old(loading) && error == old(error) && totalPages == old(totalPages)
      ensures totalResults == old(totalResults) && filteredCount == old(filteredCount)
    {
      var query := QueryOf(searchParams);
      var newParams: Params := [];
      if query != "" {
        newParams := Set(newParams, "q", query);
      }
      searchParams := newParams;
    }
  }
}
