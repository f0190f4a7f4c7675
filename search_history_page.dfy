/**
 * The search-history page (`SearchHistory`): its state is the loaded list,
 * the previewed results of the selected record and the selection itself;
 * it reads and writes the same storage key as the store.
 */
module SearchHistoryPage {
  import opened Wrappers
  import opened Text
  import opened UrlParams
  import Seqs
  import Sorting
  import S = SearchHistoryStore

  /** The sort key of `loadSearchHistory`: newest first. */
  function ByTimestamp(e: S.Entry): int {
    e.timestamp
  }

  /** How many popular searches the page shows. */
  const PopularShown: nat := 6

  /** The type filter is carried over when it is set, non-empty and not `'all'`. */
  predicate CarriesType(f: S.FilterSet) {
    f.contentType.Some? && Truthy(f.contentType.value) && f.contentType.value != "all"
  }

  /** A year or genre filter is carried over when it is set and non-empty. */
  predicate CarriesFacet(v: Option<string>) {
    v.Some? && Truthy(v.value)
  }

  /** The pairs a repeated search carries: the query, and the type, year and genre when they are carried. */
  function RepeatLink(item: S.Entry): map<string, string> {
    var f := item.filters;
    var withType := Carry(map["q" := item.query], CarriesType(f), "type", if f.contentType.Some? then f.contentType.value else "");
    var withYear := Carry(withType, CarriesFacet(f.year), "year", if f.year.Some? then f.year.value else "");
    Carry(withYear, CarriesFacet(f.genre), "genre", if f.genre.Some? then f.genre.value else "")
  }

  /**
   * `repeatSearch(item)`: the parameters of the `/search` link, set one by
   * one. The query is always set; the type only when set and not `'all'`;
   * year and genre only when non-empty; no other name, so never the
   * language.
   */
  method RepeatSearch(item: S.Entry) returns (params: Params)
    ensures Describes(params, RepeatLink(item))
  {
    var f := item.filters;
    EmptyDescribes();
    SetDescribes([], map[], "q", item.query);
    params := Set([], "q", item.query);
    ghost var m := map["q" := item.query];
    var contentType := if f.contentType.Some? then f.contentType.value else "";
    SetWhen(params, m, CarriesType(f), "type", contentType);
    m := Carry(m, CarriesType(f), "type", contentType);
    if CarriesType(f) {
      params := Set(params, "type", contentType);
    }
    var year := if f.year.Some? then f.year.value else "";
    SetWhen(params, m, CarriesFacet(f.year), "year", year);
    m := Carry(m, CarriesFacet(f.year), "year", year);
    if CarriesFacet(f.year) {
      params := Set(params, "year", year);
    }
    var genre := if f.genre.Some? then f.genre.value else "";
    SetWhen(params, m, CarriesFacet(f.genre), "genre", genre);
    m := Carry(m, CarriesFacet(f.genre), "genre", genre);
    if CarriesFacet(f.genre) {
      params := Set(params, "genre", genre);
    }
  }

  /** The names of a repeated search's link: the query always, a filter exactly when carried, never the language. */
  lemma RepeatLinkNames(item: S.Entry)
    ensures var m := RepeatLink(item); var f := item.filters;
      && "q" in m && m["q"] == item.query
      && ("type" in m <==> CarriesType(f)) && (CarriesType(f) ==> m["type"] == f.contentType.value)
      && ("year" in m <==> CarriesFacet(f.year)) && (CarriesFacet(f.year) ==> m["year"] == f.year.value)
      && ("genre" in m <==> CarriesFacet(f.genre)) && (CarriesFacet(f.genre) ==> m["genre"] == f.genre.value)
      && "language" !in m
  {
  }

  /**
   * What a described link reads back, name by name: the query, each carried
   * filter, nothing for a filter that is not carried, and never a language.
   */
  lemma RepeatLinkReads(item: S.Entry, link: Params)
    requires Describes(link, RepeatLink(item))
    ensures Get(link, "q") == Some(item.query)
    ensures Get(link, "type") == (if CarriesType(item.filters) then item.filters.contentType else None)
    ensures Get(link, "year") == (if CarriesFacet(item.filters.year) then item.filters.year else None)
    ensures Get(link, "genre") == (if CarriesFacet(item.filters.genre) then item.filters.genre else None)
    ensures Get(link, "language") == None
  {
    var m := RepeatLink(item);
    RepeatLinkNames(item);
    DescribedGet(link, m, "q");
    DescribedGet(link, m, "type");
    DescribedGet(link, m, "year");
    DescribedGet(link, m, "genre");
    DescribedGet(link, m, "language");
  }

  /** The buckets of `formatTimeAgo`; the last one is rendered as a locale date. */
  datatype TimeAgo = JustNow | MinutesAgo(minutes: int) | HoursAgo(hours: int) | DaysAgo(days: int) | WeeksAgo(weeks: int) | OnDate

  const Minute: int := 60000
  const Hour: int := 60 * Minute
  const Day: int := 24 * Hour
  const Week: int := 7 * Day

  /**
   * `formatTimeAgo(date)`, given the elapsed milliseconds `now - date`: each
   * bucket holds exactly its interval of elapsed time, and its number is the
   * elapsed time in that unit, rounded down.
   */
  function FormatTimeAgo(elapsed: int): (r: TimeAgo)
    ensures r.JustNow? <==> elapsed < Minute
    ensures r.MinutesAgo? <==> Minute <= elapsed < Hour
    ensures r.HoursAgo? <==> Hour <= elapsed < Day
    ensures r.DaysAgo? <==> Day <= elapsed < Week
    ensures r.WeeksAgo? <==> Week <= elapsed < 4 * Week
    ensures r.OnDate? <==> 4 * Week <= elapsed
  {
    var minutes := elapsed / Minute;
    if minutes < 1 then JustNow
    else if minutes < 60 then MinutesAgo(minutes)
    else
      var hours := minutes / 60;
      assert hours == elapsed / Hour;
      if hours < 24 then HoursAgo(hours)
      else
        var days := hours / 24;
        assert days == elapsed / Day;
        if days < 7 then DaysAgo(days)
        else
          var weeks := days / 7;
          assert weeks == elapsed / Week;
          if weeks < 4 then WeeksAgo(weeks) else OnDate
  }

  /**
   * The number shown in each bucket is the elapsed time in the bucket's unit,
   * rounded down, and lies within the bucket's range.
   */
  lemma TimeAgoNumbers(elapsed: int)
    ensures var r := FormatTimeAgo(elapsed);
      && (r.MinutesAgo? ==> 1 <= r.minutes < 60 && r.minutes * Minute <= elapsed < (r.minutes + 1) * Minute)
      && (r.HoursAgo? ==> 1 <= r.hours < 24 && r.hours * Hour <= elapsed < (r.hours + 1) * Hour)
      && (r.DaysAgo? ==> 1 <= r.days < 7 && r.days * Day <= elapsed < (r.days + 1) * Day)
      && (r.WeeksAgo? ==> 1 <= r.weeks < 4 && r.weeks * Week <= elapsed < (r.weeks + 1) * Week)
  {
    var r := FormatTimeAgo(elapsed);
    if r.HoursAgo? {
      assert r.hours == elapsed / Hour;
    } else if r.DaysAgo? {
      assert r.days == elapsed / Day;
    } else if r.WeeksAgo? {
      assert r.weeks == elapsed / Week;
    }
  }

  /** The text of a bucket other than the locale date: the number, the unit letter and " ago". */
  function TimeAgoLabel(t: TimeAgo): string
    requires !t.OnDate?
  {
    match t
    case JustNow => "Just now"
    case MinutesAgo(m) => Decimal(if m < 0 then 0 else m) + "m ago"
    case HoursAgo(h) => Decimal(if h < 0 then 0 else h) + "h ago"
    case DaysAgo(d) => Decimal(if d < 0 then 0 else d) + "d ago"
    case WeeksAgo(w) => Decimal(if w < 0 then 0 else w) + "w ago"
  }

  /** The number of minutes can be read back from the "m ago" shown. */
  lemma MinutesLabelRoundTrip(elapsed: int)
    requires Minute <= elapsed < Hour
    ensures var shown := TimeAgoLabel(FormatTimeAgo(elapsed));
      |shown| > 5 && shown[|shown| - 5..] == "m ago" && DigitsValue(shown[..|shown| - 5]) == elapsed / Minute
  {
    var m := FormatTimeAgo(elapsed).minutes;
    var shown := TimeAgoLabel(FormatTimeAgo(elapsed));
    assert shown == Decimal(m) + "m ago";
    assert shown[..|shown| - 5] == Decimal(m);
    DecimalRoundTrip(m);
  }

  /** The page's state. */
  class SearchHistoryPageState {
    /** `searchHistory`: the list as loaded and edited by this page. */
    var searchHistory: seq<S.Entry>
    /** `recentResults`: the previewed results of the selected record, by id. */
    var recentResults: seq<nat>
    /** `selectedHistoryItem` */
    var selected: Option<S.Entry>
    /** The storage key `searchHistory`, shared with the store. */
    var storage: S.Stored

    constructor(stored: S.Stored)
      ensures searchHistory == [] && recentResults == [] && selected == None && storage == stored
    {
      searchHistory := [];
      recentResults := [];
      selected := None;
      storage := stored;
    }

    /**
     * `loadSearchHistory()`: the stored list, newest first. A missing key
     * loads as empty; text that does not parse makes `JSON.parse` throw, and
     * the state stays as it was.
     */
    method LoadSearchHistory()
      modifies this
      ensures storage == old(storage) && recentResults == old(recentResults) && selected == old(selected)
      ensures storage.Unparseable? ==> searchHistory == old(searchHistory)
      ensures !storage.Unparseable? ==>
        && Sorting.SortedDesc(searchHistory, ByTimestamp)
        && multiset(searchHistory) == multiset(S.Decode(storage))
    {
      if storage.Unparseable? {
        return;
      }
      var history := S.Decode(storage);
      searchHistory := Sorting.SortDesc(history, ByTimestamp);
    }

    /** `clearSearchHistory()`: the key is removed and the list, the preview and the selection are emptied. */
    method ClearSearchHistory()
      modifies this
      ensures storage == S.Absent && searchHistory == [] && recentResults == [] && selected == None
    {
      storage := S.Absent;
      searchHistory := [];
      recentResults := [];
      selected := None;
    }

    /**
     * `removeHistoryItem(id)`: the records with that id are dropped and the
     * rest are written back in their order; the selection and its preview are
     * cleared exactly when the selected record has that id.
     */
    method RemoveHistoryItem(id: string)
      modifies this
      ensures searchHistory == S.WithoutId(old(searchHistory), id)
      ensures storage == S.Entries(searchHistory)
      ensures forall e :: e in searchHistory <==> e in old(searchHistory) && e.id != id
      ensures old(selected).Some? && old(selected).value.id == id ==> selected == None && recentResults == []
      ensures !(old(selected).Some? && old(selected).value.id == id) ==>
        selected == old(selected) && recentResults == old(recentResults)
    {
      var updatedHistory := Seqs.Filter(searchHistory, (e: S.Entry) => e.id != id);
      storage := S.Entries(updatedHistory);
      searchHistory := updatedHistory;
      if selected.Some? && selected.value.id == id {
        selected := None;
        recentResults := [];
      }
    }

    /** `getPopularSearches()`: at most six lower-cased queries, by non-increasing count. */
    method PopularSearches() returns (r: seq<S.QueryCount>)
      ensures r == S.Popular(searchHistory, PopularShown)
      ensures |r| <= PopularShown && Sorting.SortedDesc(r, S.ByCount)
      ensures |r| == S.Min(PopularShown, |S.Tally(S.LoweredQueries(searchHistory))|)
      ensures S.KeysDistinct(r) && S.MostFrequentFirst(r, S.LoweredQueries(searchHistory))
    {
      var counts := S.CountQueries(searchHistory);
      var sorted := Sorting.SortDesc(counts, S.ByCount);
      r := sorted[..S.Min(PopularShown, |sorted|)];
      S.PopularFacts(searchHistory, PopularShown);
      S.PopularIsTopK(searchHistory, PopularShown);
    }
  }
}
