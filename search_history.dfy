/**
 * The search-history store (`SearchHistoryService`): one persisted,
 * most-recent-first list of search records, at most 100 long, with
 * duplicate replacement on insertion, removal by id, clearing, and four
 * read-only aggregate queries.
 *
 * The persisted list is the storage key `searchHistory`; it is modelled as
 * the field `storage` of the service. Ids and timestamps, which the source
 * draws from the clock and a random generator, are parameters.
 */
module SearchHistoryStore {
  import opened Wrappers
  import opened Text
  import opened Seqs
  import Sorting

  /** `MAX_HISTORY_ITEMS` */
  const MaxHistoryItems: nat := 100

  /**
   * The facets recorded with a search. A `None` field is `undefined` in the
   * source, which `JSON.stringify` leaves out, so two filter objects have the
   * same JSON text exactly when they are equal here (the fields are always
   * written in the order type, year, genre, language).
   */
  datatype FilterSet = FilterSet(
    contentType: Option<string>,
    year: Option<string>,
    genre: Option<string>,
    language: Option<string>)

  /** `{}`: what is stored for a search recorded without a filter object. */
  const NoFilters := FilterSet(None, None, None, None)

  /** One search record (`SearchHistoryItem`); `timestamp` is in milliseconds. */
  datatype Entry = Entry(id: string, query: string, timestamp: int, resultsCount: nat, filters: FilterSet)

  /** The content of the storage key: missing, text that does not parse, or a parsed list. */
  datatype Stored = Absent | Unparseable | Entries(items: seq<Entry>)

  /** `getHistory()`: a missing key reads as `'[]'`, and a parse failure is caught and read as the empty list. */
  function Decode(s: Stored): (h: seq<Entry>)
    ensures s.Entries? ==> h == s.items
    ensures !s.Entries? ==> h == []
  {
    if s.Entries? then s.items else []
  }

  function Min(a: nat, b: nat): nat {
    if a <= b then a else b
  }

  // ---------------------------------------------------------------- addToHistory

  /**
   * The duplicate test of `addToHistory`: the stored (trimmed) query and the
   * incoming (untrimmed) query agree after lower-casing, and the filters have
   * the same JSON text. `JSON.stringify(undefined)` is not a string, so an
   * incoming search without a filter object matches no stored entry.
   */
  predicate SameSearch(e: Entry, query: string, filters: Option<FilterSet>) {
    Lower(e.query) == Lower(query) && filters == Some(e.filters)
  }

  /** The old entries that `addToHistory` keeps, in their order. */
  function Survivors(h: seq<Entry>, query: string, filters: Option<FilterSet>): seq<Entry> {
    Filter(h, e => !SameSearch(e, query, filters))
  }

  /** The record `addToHistory` creates. */
  function NewEntry(query: string, resultsCount: nat, filters: Option<FilterSet>, id: string, now: int): Entry {
    Entry(id, Trim(query), now, resultsCount, filters.GetOr(NoFilters))
  }

  /** The list `addToHistory` leaves behind; a blank query leaves the list as it was. */
  function Added(h: seq<Entry>, query: string, resultsCount: nat, filters: Option<FilterSet>, id: string, now: int): seq<Entry> {
    if IsBlank(query) then h
    else
      var all := [NewEntry(query, resultsCount, filters, id, now)] + Survivors(h, query, filters);
      all[..Min(MaxHistoryItems, |all|)]
  }

  /**
   * After a non-blank add the new record is first, with the trimmed query,
   * the given count and the filters or `{}`; the list is
   * `min(100, survivors + 1)` long; behind the new record come the survivors
   * in their old order; none of them is a duplicate of the search just made.
   */
  lemma AddedShape(h: seq<Entry>, query: string, resultsCount: nat, filters: Option<FilterSet>, id: string, now: int)
    requires !IsBlank(query)
    ensures var r := Added(h, query, resultsCount, filters, id, now);
      var s := Survivors(h, query, filters);
      && |r| == Min(MaxHistoryItems, |s| + 1)
      && r[0].id == id && r[0].query == Trim(query) && r[0].timestamp == now
      && r[0].resultsCount == resultsCount
      && r[0].filters == (if filters.Some? then filters.value else NoFilters)
      && (forall i :: 1 <= i < |r| ==> r[i] == s[i - 1] && !SameSearch(r[i], query, filters))
  {
    var r := Added(h, query, resultsCount, filters, id, now);
    var s := Survivors(h, query, filters);
    var e := NewEntry(query, resultsCount, filters, id, now);
    assert r == ([e] + s)[..Min(MaxHistoryItems, |s| + 1)];
    assert r[0] == e;
    forall i | 1 <= i < |r| ensures r[i] == s[i - 1] && !SameSearch(r[i], query, filters) {
      assert r[i] == s[i - 1];
    }
  }

  /** Behind the new record, the old entries that are kept appear in their old order. */
  lemma AddedKeepsOrder(h: seq<Entry>, query: string, resultsCount: nat, filters: Option<FilterSet>, id: string, now: int)
    requires !IsBlank(query)
    ensures var r := Added(h, query, resultsCount, filters, id, now);
      r != [] && SubsequenceOf(r[1..], h)
  {
    var r := Added(h, query, resultsCount, filters, id, now);
    var s := Survivors(h, query, filters);
    AddedShape(h, query, resultsCount, filters, id, now);
    assert r[1..] == s[..|r| - 1];
    SurvivorsInOrder(h, query, filters);
    PrefixIsSubsequence(s, |r| - 1);
    SubsequenceTransitive(r[1..], s, h);
  }

  /** The survivors keep their relative order. */
  lemma SurvivorsInOrder(h: seq<Entry>, query: string, filters: Option<FilterSet>)
    ensures SubsequenceOf(Survivors(h, query, filters), h)
  {
    FilterIsSubsequence(h, e => !SameSearch(e, query, filters));
  }

  /** A blank query changes nothing. */
  lemma AddedBlankIsNoOp(h: seq<Entry>, query: string, resultsCount: nat, filters: Option<FilterSet>, id: string, now: int)
    requires IsBlank(query)
    ensures Added(h, query, resultsCount, filters, id, now) == h
  {
  }

  /**
   * A search recorded without a filter object never replaces an older record:
   * every old entry survives, and the list only grows (up to the bound).
   */
  lemma FilterlessAddKeepsEverything(h: seq<Entry>, query: string, resultsCount: nat, id: string, now: int)
    requires !IsBlank(query)
    ensures Survivors(h, query, None) == h
    ensures |Added(h, query, resultsCount, None, id, now)| == Min(MaxHistoryItems, |h| + 1)
  {
    FilterKeepsAll(h, e => !SameSearch(e, query, None));
  }

  /** The shape the stored list always has: bounded, with trimmed, non-empty queries. */
  ghost predicate WellFormed(h: seq<Entry>) {
    |h| <= MaxHistoryItems && forall i :: 0 <= i < |h| ==> TrimmedQuery(h[i])
  }

  /** A stored query is never empty and has no surrounding whitespace. */
  ghost predicate TrimmedQuery(e: Entry) {
    e.query != [] && Trim(e.query) == e.query
  }

  /** Adding keeps the list well formed. */
  lemma AddedWellFormed(h: seq<Entry>, query: string, resultsCount: nat, filters: Option<FilterSet>, id: string, now: int)
    requires WellFormed(h)
    ensures WellFormed(Added(h, query, resultsCount, filters, id, now))
  {
    if !IsBlank(query) {
      var e := NewEntry(query, resultsCount, filters, id, now);
      TrimIdempotent(query);
      assert TrimmedQuery(e);
      var s := Survivors(h, query, filters);
      SurvivorsWellFormed(h, query, filters);
      var r := Added(h, query, resultsCount, filters, id, now);
      assert r == ([e] + s)[..Min(MaxHistoryItems, |s| + 1)];
      forall i | 0 <= i < |r| ensures TrimmedQuery(r[i]) {
        if i > 0 {
          assert r[i] == s[i - 1];
        }
      }
    }
  }

  /** Every survivor is an old entry, so it has a trimmed, non-empty query. */
  lemma SurvivorsWellFormed(h: seq<Entry>, query: string, filters: Option<FilterSet>)
    requires WellFormed(h)
    ensures forall i :: 0 <= i < |Survivors(h, query, filters)| ==> TrimmedQuery(Survivors(h, query, filters)[i])
  {
    var s := Survivors(h, query, filters);
    forall i | 0 <= i < |s| ensures TrimmedQuery(s[i]) {
      assert s[i] in s;
      var j :| 0 <= j < |h| && h[j] == s[i];
    }
  }

  /**
   * Repeating a search (same text up to case, same filter object) leaves a
   * single record of it, at the front, carrying the latest count and time.
   */
  lemma RepeatedSearchCollapses(h: seq<Entry>, q1: string, q2: string, f: FilterSet,
                                n1: nat, n2: nat, id1: string, id2: string, t1: int, t2: int)
    requires !IsBlank(q1) && Trim(q1) == q1 && Lower(q1) == Lower(q2) && Trim(q2) == q2
    ensures var r := Added(Added(h, q1, n1, Some(f), id1, t1), q2, n2, Some(f), id2, t2);
      && r[0] == Entry(id2, q2, t2, n2, f)
      && forall i :: 1 <= i < |r| ==> !SameSearch(r[i], q1, Some(f))
  {
    var h1 := Added(h, q1, n1, Some(f), id1, t1);
    assert !IsBlank(q2) by {
      assert q2 != [] && Trim(q2) == q2;
    }
    AddedShape(h1, q2, n2, Some(f), id2, t2);
  }

  /**
   * The source does not keep one record per search: a query with surrounding
   * spaces is compared untrimmed, so it misses the stored trimmed record and
   * then is stored trimmed beside it.
   */
  lemma PaddedQueryLeavesDuplicate()
    ensures var h := [Entry("1", "up", 0, 3, NoFilters)];
      var r := Added(h, " up", 3, Some(NoFilters), "2", 1);
      && |r| == 2 && Lower(r[0].query) == Lower(r[1].query) && r[0].filters == r[1].filters
  {
    var h := [Entry("1", "up", 0, 3, NoFilters)];
    assert LeadingSpaces(" up") == 1 by {
      assert " up"[1..] == "up";
      assert LeadingSpaces("up") == 0;
    }
    assert TrailingSpaces(" up") == 0;
    assert Trim(" up") == "up" by {
      assert " up"[1..3] == "up";
    }
    assert !IsBlank(" up") by {
      assert !IsSpace(" up"[1]);
    }
    assert Lower("up") != Lower(" up") by {
      assert |Lower("up")| != |Lower(" up")|;
    }
    assert Survivors(h, " up", Some(NoFilters)) == h;
  }

  // ---------------------------------------------------------------- removeFromHistory

  /** The list `removeFromHistory(id)` writes back. */
  function WithoutId(h: seq<Entry>, id: string): (r: seq<Entry>)
    ensures forall i :: 0 <= i < |r| ==> r[i].id != id
  {
    Filter(h, (e: Entry) => e.id != id)
  }

  /**
   * Removal drops exactly the entries with that id and keeps the rest in
   * order; an unknown id leaves the list as it was.
   */
  lemma WithoutIdFacts(h: seq<Entry>, id: string)
    ensures forall e :: e in WithoutId(h, id) <==> e in h && e.id != id
    ensures SubsequenceOf(WithoutId(h, id), h)
    ensures (forall i :: 0 <= i < |h| ==> h[i].id != id) ==> WithoutId(h, id) == h
  {
    FilterIsSubsequence(h, (e: Entry) => e.id != id);
    FilterKeepsAll(h, (e: Entry) => e.id != id);
  }

  /** Removal keeps the list well formed. */
  lemma WithoutIdWellFormed(h: seq<Entry>, id: string)
    ensures WellFormed(h) ==> WellFormed(WithoutId(h, id))
  {
    var r := WithoutId(h, id);
    if WellFormed(h) {
      forall i | 0 <= i < |r| ensures TrimmedQuery(r[i]) {
        assert r[i] in h;
        var j :| 0 <= j < |h| && h[j] == r[i];
      }
    }
  }

  // ---------------------------------------------------------------- getPopularSearches

  /** One row of a frequency table: a lower-cased query and how often it was searched. */
  datatype QueryCount = QueryCount(query: string, count: nat)

  /** The lower-cased query of every entry, in history order. */
  function LoweredQueries(h: seq<Entry>): (qs: seq<string>)
    ensures |qs| == |h|
    ensures forall i :: 0 <= i < |h| ==> qs[i] == Lower(h[i].query)
  {
    seq(|h|, i requires 0 <= i < |h| => Lower(h[i].query))
  }

  /** How many times `k` occurs in `qs`. */
  function Occurrences(qs: seq<string>, k: string): nat {
    if qs == [] then 0
    else Occurrences(qs[..|qs| - 1], k) + (if qs[|qs| - 1] == k then 1 else 0)
  }

  function Keys(t: seq<QueryCount>): (ks: seq<string>)
    ensures |ks| == |t| && forall i :: 0 <= i < |t| ==> ks[i] == t[i].query
  {
    seq(|t|, i requires 0 <= i < |t| => t[i].query)
  }

  /** The count recorded for `k`, or 0 when `k` has no row. */
  function CountOf(t: seq<QueryCount>, k: string): nat {
    if t == [] then 0 else if t[0].query == k then t[0].count else CountOf(t[1..], k)
  }

  /** The sum of the counts. */
  function Total(t: seq<QueryCount>): int {
    Sorting.SumBy(t, ByCount)
  }

  ghost predicate KeysDistinct(t: seq<QueryCount>) {
    forall i, j :: 0 <= i < j < |t| ==> t[i].query != t[j].query
  }

  /** `queryCount[k] = (queryCount[k] || 0) + 1`: a new key goes last, an old key keeps its place. */
  function Bump(t: seq<QueryCount>, k: string): seq<QueryCount> {
    if t == [] then [QueryCount(k, 1)]
    else if t[0].query == k then [QueryCount(k, t[0].count + 1)] + t[1..]
    else [t[0]] + Bump(t[1..], k)
  }

  /** The frequency table `forEach` builds, in key-insertion order. */
  function Tally(qs: seq<string>): seq<QueryCount> {
    if qs == [] then [] else Bump(Tally(qs[..|qs| - 1]), qs[|qs| - 1])
  }

  /** Bumping `k` adds `k` to the keys and no other key. */
  lemma {:induction false} BumpKeys(t: seq<QueryCount>, k: string)
    ensures forall q :: q in Keys(Bump(t, k)) <==> q in Keys(t) || q == k
  {
    if t != [] && t[0].query != k {
      BumpKeys(t[1..], k);
      assert Keys(Bump(t, k)) == [t[0].query] + Keys(Bump(t[1..], k));
      assert Keys(t) == [t[0].query] + Keys(t[1..]);
    } else if t != [] {
      assert Bump(t, k) == [QueryCount(k, t[0].count + 1)] + t[1..];
      assert Keys(Bump(t, k)) == [k] + Keys(t[1..]);
      assert Keys(t) == [k] + Keys(t[1..]);
    } else {
      assert Keys(Bump(t, k)) == [k];
    }
  }

  /** Bumping `k` raises the count of `k` by one and leaves every other count alone. */
  lemma {:induction false} BumpCount(t: seq<QueryCount>, k: string)
    ensures forall q :: CountOf(Bump(t, k), q) == CountOf(t, q) + (if q == k then 1 else 0)
  {
    if t != [] && t[0].query != k {
      BumpCount(t[1..], k);
      assert Bump(t, k)[1..] == Bump(t[1..], k);
    } else if t != [] {
      assert Bump(t, k)[1..] == t[1..];
    }
  }

  /** Bumping adds exactly one to the sum of the counts. */
  lemma {:induction false} BumpTotal(t: seq<QueryCount>, k: string)
    ensures Total(Bump(t, k)) == Total(t) + 1
  {
    if t != [] && t[0].query != k {
      BumpTotal(t[1..], k);
      assert Bump(t, k)[1..] == Bump(t[1..], k);
      assert Total(Bump(t, k)) == t[0].count + Total(Bump(t[1..], k));
    } else if t != [] {
      assert Bump(t, k)[1..] == t[1..];
      assert Total(Bump(t, k)) == t[0].count + 1 + Total(t[1..]);
    } else {
      assert [QueryCount(k, 1)][1..] == [];
    }
  }

  /** Bumping keeps every count positive. */
  lemma {:induction false} BumpPositive(t: seq<QueryCount>, k: string)
    ensures (forall i :: 0 <= i < |t| ==> t[i].count >= 1) ==>
      forall i :: 0 <= i < |Bump(t, k)| ==> Bump(t, k)[i].count >= 1
  {
    if t != [] && t[0].query != k {
      BumpPositive(t[1..], k);
      assert Bump(t, k) == [t[0]] + Bump(t[1..], k);
    }
  }

  /** Bumping keeps the keys distinct. */
  lemma {:induction false} BumpDistinct(t: seq<QueryCount>, k: string)
    ensures KeysDistinct(t) ==> KeysDistinct(Bump(t, k))
  {
    if t != [] && t[0].query != k && KeysDistinct(t) {
      BumpDistinct(t[1..], k);
      BumpKeys(t[1..], k);
      var b := Bump(t[1..], k);
      assert Bump(t, k) == [t[0]] + b;
      forall j | 0 <= j < |b| ensures b[j].query != t[0].query {
        assert b[j].query in Keys(b);
        if b[j].query != k {
          var m :| 0 <= m < |t[1..]| && Keys(t[1..])[m] == b[j].query;
          assert t[m + 1].query == b[j].query;
        }
      }
    } else if t != [] && KeysDistinct(t) {
      assert Bump(t, k)[1..] == t[1..];
    }
  }

  /** One more occurrence of `k`: its count rises by one and nothing else changes. */
  lemma BumpFacts(t: seq<QueryCount>, k: string)
    requires KeysDistinct(t)
    ensures KeysDistinct(Bump(t, k))
    ensures forall q :: CountOf(Bump(t, k), q) == CountOf(t, q) + (if q == k then 1 else 0)
    ensures forall q :: q in Keys(Bump(t, k)) <==> q in Keys(t) || q == k
    ensures Total(Bump(t, k)) == Total(t) + 1
    ensures (forall i :: 0 <= i < |t| ==> t[i].count >= 1) ==> forall i :: 0 <= i < |Bump(t, k)| ==> Bump(t, k)[i].count >= 1
  {
    BumpDistinct(t, k);
    BumpCount(t, k);
    BumpKeys(t, k);
    BumpTotal(t, k);
    BumpPositive(t, k);
  }

  /**
   * The frequency table is correct: one row per distinct query, each row's
   * count is the number of occurrences, counts are positive and sum to the
   * number of queries.
   */
  lemma {:induction false} TallyFacts(qs: seq<string>)
    ensures KeysDistinct(Tally(qs))
    ensures forall q :: CountOf(Tally(qs), q) == Occurrences(qs, q)
    ensures forall q :: q in Keys(Tally(qs)) <==> q in qs
    ensures forall i :: 0 <= i < |Tally(qs)| ==> Tally(qs)[i].count >= 1
    ensures Total(Tally(qs)) == |qs|
  {
    if qs != [] {
      var p := qs[..|qs| - 1];
      TallyFacts(p);
      BumpFacts(Tally(p), qs[|qs| - 1]);
      assert qs == p + [qs[|qs| - 1]];
      assert forall q :: q in qs <==> q in p || q == qs[|qs| - 1];
    }
  }

  /** The frequency table has one row per key. */
  lemma TallyDistinct(qs: seq<string>)
    ensures KeysDistinct(Tally(qs))
  {
    TallyFacts(qs);
  }

  /** Counting one more query bumps its row. */
  lemma TallySnoc(qs: seq<string>, i: nat)
    requires i < |qs|
    ensures Tally(qs[..i + 1]) == Bump(Tally(qs[..i]), qs[i])
  {
    assert qs[..i + 1][..i] == qs[..i];
  }

  /** In a table with distinct keys, a row's count is the count recorded for its key. */
  lemma {:induction false} RowCount(t: seq<QueryCount>, i: nat)
    requires KeysDistinct(t) && i < |t|
    ensures CountOf(t, t[i].query) == t[i].count
  {
    if i > 0 {
      RowCount(t[1..], i - 1);
    }
  }

  /** The table has no more rows than there are queries. */
  lemma {:induction false} TallyLength(qs: seq<string>)
    ensures |Tally(qs)| <= |qs|
  {
    if qs != [] {
      TallyLength(qs[..|qs| - 1]);
      BumpLength(Tally(qs[..|qs| - 1]), qs[|qs| - 1]);
    }
  }

  lemma {:induction false} BumpLength(t: seq<QueryCount>, k: string)
    ensures |Bump(t, k)| <= |t| + 1
  {
    if t != [] && t[0].query != k {
      BumpLength(t[1..], k);
    }
  }

  /** The sort key: `([, a], [, b]) => b - a`. */
  function ByCount(c: QueryCount): int {
    c.count
  }

  /** `getPopularSearches(limit)`: the table sorted by decreasing count, cut to `limit` rows. */
  function Popular(h: seq<Entry>, limit: nat): seq<QueryCount> {
    var sorted := Sorting.SortDesc(Tally(LoweredQueries(h)), ByCount);
    sorted[..Min(limit, |sorted|)]
  }

  /**
   * The popular list has at most `limit` rows, in non-increasing order of
   * count; every row is a lower-cased query of the history with its true
   * number of occurrences; and with a limit at least the history's length
   * the counts add up to the history's length.
   */
  lemma PopularFacts(h: seq<Entry>, limit: nat)
    ensures var r := Popular(h, limit);
      && |r| <= limit
      && Sorting.SortedDesc(r, ByCount)
      && (forall i :: 0 <= i < |r| ==>
            (r[i].query in LoweredQueries(h) && r[i].count == Occurrences(LoweredQueries(h), r[i].query) >= 1))
      && (limit >= |h| ==> Total(r) == |h|)
  {
    var sorted := Sorting.SortDesc(Tally(LoweredQueries(h)), ByCount);
    Sorting.SortedPrefix(sorted, |Popular(h, limit)|, ByCount);
    PopularRows(h, limit);
    PopularTotal(h, limit);
  }

  /** Every popular row is a lower-cased query with its true, positive number of occurrences. */
  lemma PopularRows(h: seq<Entry>, limit: nat)
    ensures var r := Popular(h, limit);
      forall i :: 0 <= i < |r| ==>
        (r[i].query in LoweredQueries(h) && r[i].count == Occurrences(LoweredQueries(h), r[i].query) >= 1)
  {
    var qs := LoweredQueries(h);
    var t := Tally(qs);
    var r := Popular(h, limit);
    TallyFacts(qs);
    forall i | 0 <= i < |r|
      ensures r[i].query in qs && r[i].count == Occurrences(qs, r[i].query) >= 1
    {
      assert r[i] in multiset(t);
      var j :| 0 <= j < |t| && t[j] == r[i];
      RowCount(t, j);
      assert r[i].query in Keys(t);
    }
  }

  /** With a limit at least the history's length, the popular counts add up to the history's length. */
  lemma PopularTotal(h: seq<Entry>, limit: nat)
    ensures limit >= |h| ==> Total(Popular(h, limit)) == |h|
  {
    var qs := LoweredQueries(h);
    var t := Tally(qs);
    if limit >= |h| {
      TallyFacts(qs);
      TallyLength(qs);
      assert Popular(h, limit) == Sorting.SortDesc(t, ByCount);
      Sorting.SortSum(t, ByCount, ByCount);
    }
  }

  /** The first popular row is a most frequent query: no query of the history occurs more often. */
  lemma PopularTopIsMostFrequent(h: seq<Entry>, limit: nat)
    requires limit > 0 && h != []
    ensures var r := Popular(h, limit);
      && r != []
      && forall i :: 0 <= i < |h| ==> Occurrences(LoweredQueries(h), Lower(h[i].query)) <= r[0].count
  {
    var qs := LoweredQueries(h);
    var t := Tally(qs);
    var sorted := Sorting.SortDesc(t, ByCount);
    TallyFacts(qs);
    assert qs[0] in Keys(t);
    Sorting.SortedPrefix(sorted, 0, ByCount);
    forall i | 0 <= i < |h| ensures Occurrences(qs, Lower(h[i].query)) <= sorted[0].count {
      assert qs[i] in Keys(t);
      var j :| 0 <= j < |t| && t[j].query == qs[i];
      RowCount(t, j);
      assert t[j] in multiset(sorted);
      assert ByCount(t[j]) <= ByCount(sorted[0]);
    }
    PopularFacts(h, limit);
  }

  /** Rearranging a table with distinct keys keeps its keys distinct. */
  lemma PermutedKeysDistinct(t: seq<QueryCount>, s: seq<QueryCount>)
    requires KeysDistinct(t) && multiset(s) == multiset(t)
    ensures KeysDistinct(s)
  {
    assert NoDuplicates(t);
    NoDuplicatesIff(t);
    NoDuplicatesIff(s);
    forall i, j | 0 <= i < j < |s| ensures s[i].query != s[j].query {
      assert s[i] in multiset(t) && s[j] in multiset(t);
      var p :| 0 <= p < |t| && t[p] == s[i];
      var q :| 0 <= q < |t| && t[q] == s[j];
      assert p != q;
    }
  }

  /** Every query of `qs` left out of the rows `r` occurs no more often than any row counts. */
  ghost predicate MostFrequentFirst(r: seq<QueryCount>, qs: seq<string>) {
    forall q, i :: q in qs && q !in Keys(r) && 0 <= i < |r| ==> Occurrences(qs, q) <= r[i].count
  }

  /**
   * The popular list is the top of the full count table: one row per query,
   * `min(limit, distinct queries)` rows, and no query left out occurs more
   * often than a query listed.
   */
  lemma PopularIsTopK(h: seq<Entry>, limit: nat)
    ensures var r := Popular(h, limit);
      && KeysDistinct(r)
      && |r| == Min(limit, |Tally(LoweredQueries(h))|)
      && MostFrequentFirst(r, LoweredQueries(h))
  {
    var qs := LoweredQueries(h);
    var t := Tally(qs);
    var sorted := Sorting.SortDesc(t, ByCount);
    var n := Min(limit, |sorted|);
    assert Popular(h, limit) == sorted[..n];
    TallyFacts(qs);
    PermutedKeysDistinct(t, sorted);
    SortedPrefixTop(qs, t, sorted, n);
  }

  /** A prefix of the sorted count table leaves out only queries counted no higher than any row it keeps. */
  lemma SortedPrefixTop(qs: seq<string>, t: seq<QueryCount>, sorted: seq<QueryCount>, n: nat)
    requires KeysDistinct(t)
    requires forall q :: q in Keys(t) <==> q in qs
    requires forall q :: CountOf(t, q) == Occurrences(qs, q)
    requires multiset(sorted) == multiset(t) && Sorting.SortedDesc(sorted, ByCount) && n <= |sorted|
    ensures MostFrequentFirst(sorted[..n], qs)
  {
    var r := sorted[..n];
    forall q, i | q in qs && q !in Keys(r) && 0 <= i < |r| ensures Occurrences(qs, q) <= r[i].count {
      var p :| 0 <= p < |t| && t[p].query == q;
      RowCount(t, p);
      assert t[p] in multiset(sorted);
      var j :| 0 <= j < |sorted| && sorted[j] == t[p];
      assert n <= j;
      assert ByCount(sorted[i]) >= ByCount(sorted[j]);
    }
  }

  /**
   * The rows of the counting object read with `Object.entries`, keys in
   * insertion order; the object is modelled as a map with no inherited keys
   * and no integer-like keys, which JavaScript would list first.
   */
  function Rows(order: seq<string>, counts: map<string, nat>): (t: seq<QueryCount>)
    requires forall i :: 0 <= i < |order| ==> order[i] in counts
    ensures |t| == |order| && Keys(t) == order
  {
    seq(|order|, i requires 0 <= i < |order| => QueryCount(order[i], counts[order[i]]))
  }

  /** Bumping a key the table lacks appends a row with count 1. */
  lemma {:induction false} BumpNew(t: seq<QueryCount>, k: string)
    ensures k !in Keys(t) ==> Bump(t, k) == t + [QueryCount(k, 1)]
  {
    if t != [] && k !in Keys(t) {
      assert Keys(t)[0] == t[0].query;
      assert Keys(t[1..]) == Keys(t)[1..];
      BumpNew(t[1..], k);
      calc {
        Bump(t, k);
        [t[0]] + Bump(t[1..], k);
        [t[0]] + (t[1..] + [QueryCount(k, 1)]);
        { assert t == [t[0]] + t[1..]; }
        t + [QueryCount(k, 1)];
      }
    }
  }

  /** Bumping a key the table has raises its row in place. */
  lemma {:induction false} BumpOld(t: seq<QueryCount>, k: string, p: nat)
    requires KeysDistinct(t) && p < |t| && t[p].query == k
    ensures Bump(t, k) == t[p := QueryCount(k, t[p].count + 1)]
  {
    if p > 0 {
      assert t[0].query != k;
      assert KeysDistinct(t[1..]) by {
        forall i, j | 0 <= i < j < |t[1..]| ensures t[1..][i].query != t[1..][j].query {
          assert t[1..][i] == t[i + 1] && t[1..][j] == t[j + 1];
        }
      }
      BumpOld(t[1..], k, p - 1);
      assert [t[0]] + t[1..][p - 1 := QueryCount(k, t[p].count + 1)] == t[p := QueryCount(k, t[p].count + 1)];
    }
  }

  /** Raising the count of a key already in the object raises that row of the table in place. */
  lemma CountStepOld(order: seq<string>, counts: map<string, nat>, key: string, p: nat)
    requires forall i :: 0 <= i < |order| ==> order[i] in counts
    requires KeysDistinct(Rows(order, counts))
    requires p < |order| && order[p] == key
    ensures Rows(order, counts[key := counts[key] + 1]) == Bump(Rows(order, counts), key)
  {
    var before := Rows(order, counts);
    var after := Rows(order, counts[key := counts[key] + 1]);
    assert before[p].query == key;
    BumpOld(before, key, p);
    forall i | 0 <= i < |order| ensures after[i] == before[p := QueryCount(key, before[p].count + 1)][i] {
      if i != p {
        assert order[i] != key;
      }
    }
  }

  /** A key new to the object adds a row with count 1 at the end of the table. */
  lemma CountStepNew(order: seq<string>, counts: map<string, nat>, key: string)
    requires forall i :: 0 <= i < |order| ==> order[i] in counts
    requires KeysDistinct(Rows(order, counts))
    requires key !in order
    ensures Rows(order + [key], counts[key := 1]) == Bump(Rows(order, counts), key)
  {
    var before := Rows(order, counts);
    BumpNew(before, key);
    var after := Rows(order + [key], counts[key := 1]);
    forall i | 0 <= i < |order| ensures after[i] == before[i] {
      assert order[i] != key;
    }
    assert after == before + [QueryCount(key, 1)];
  }

  /** The frequency table of the history, counted the way `forEach` fills `queryCount`. */
  method CountQueries(h: seq<Entry>) returns (t: seq<QueryCount>)
    ensures t == Tally(LoweredQueries(h))
  {
    var qs := LoweredQueries(h);
    var counts: map<string, nat> := map[];
    var order: seq<string> := [];
    for i := 0 to |h|
      invariant forall k :: k in counts <==> k in order
      invariant Rows(order, counts) == Tally(qs[..i])
    {
      var key := Lower(h[i].query);
      TallySnoc(qs, i);
      TallyDistinct(qs[..i]);
      if key in counts {
        var p :| 0 <= p < |order| && order[p] == key;
        CountStepOld(order, counts, key, p);
        counts := counts[key := counts[key] + 1];
      } else {
        CountStepNew(order, counts, key);
        counts := counts[key := 1];
        order := order + [key];
      }
    }
    assert qs[..|h|] == qs;
    t := Rows(order, counts);
  }

  // ---------------------------------------------------------------- getRecentUniqueSearches

  /** Entry `k` is the most recent search of its query text (none before it agrees after lower-casing). */
  predicate IsFirst(h: seq<Entry>, k: nat)
    requires k < |h|
  {
    Lower(h[k].query) !in LoweredQueries(h[..k])
  }

  /** The positions of the most recent search of each query text, in history order. */
  function FirstIndices(h: seq<Entry>): (idx: seq<nat>)
    ensures forall i :: 0 <= i < |idx| ==> idx[i] < |h|
    ensures forall i, j :: 0 <= i < j < |idx| ==> idx[i] < idx[j]
  {
    if h == [] then []
    else
      var n := |h| - 1;
      var prev := FirstIndices(h[..n]);
      if IsFirst(h, n) then prev + [n] else prev
  }

  /** The queries at the given positions. */
  function QueriesAt(h: seq<Entry>, idx: seq<nat>): (qs: seq<string>)
    requires forall i :: 0 <= i < |idx| ==> idx[i] < |h|
    ensures |qs| == |idx| && forall i :: 0 <= i < |idx| ==> qs[i] == h[idx[i]].query
  {
    seq(|idx|, i requires 0 <= i < |idx| => h[idx[i]].query)
  }

  /** `getRecentUniqueSearches(limit)`: the first `limit` distinct queries, each as last typed. */
  function RecentUnique(h: seq<Entry>, limit: nat): seq<string> {
    var all := QueriesAt(h, FirstIndices(h));
    all[..Min(limit, |all|)]
  }

  /** Whether a position is a first occurrence depends only on the entries up to it. */
  lemma IsFirstOfPrefix(h: seq<Entry>, m: nat, k: nat)
    requires k < m <= |h|
    ensures IsFirst(h[..m], k) == IsFirst(h, k)
  {
    assert h[..m][..k] == h[..k];
  }

  /** `FirstIndices` lists exactly the first occurrences. */
  lemma {:induction false} FirstIndicesFacts(h: seq<Entry>)
    ensures forall i :: 0 <= i < |FirstIndices(h)| ==> IsFirst(h, FirstIndices(h)[i])
    ensures forall k :: 0 <= k < |h| && IsFirst(h, k) ==> k in FirstIndices(h)
  {
    if h != [] {
      var n := |h| - 1;
      FirstIndicesFacts(h[..n]);
      forall k | 0 <= k < n ensures IsFirst(h[..n], k) == IsFirst(h, k) {
        IsFirstOfPrefix(h, n, k);
      }
    }
  }

  /** Every query of the history has its first occurrence listed, at or before it. */
  lemma {:induction false} KeyCovered(h: seq<Entry>, k: nat)
    requires k < |h|
    ensures exists j :: (0 <= j < |FirstIndices(h)| && FirstIndices(h)[j] <= k
      && Lower(h[FirstIndices(h)[j]].query) == Lower(h[k].query))
    decreases k
  {
    FirstIndicesFacts(h);
    if IsFirst(h, k) {
      var j :| 0 <= j < |FirstIndices(h)| && FirstIndices(h)[j] == k;
    } else {
      var m :| 0 <= m < k && LoweredQueries(h[..k])[m] == Lower(h[k].query);
      assert h[..k][m] == h[m];
      KeyCovered(h, m);
    }
  }

  /** Two first occurrences never share a lower-cased query. */
  lemma FirstsDistinct(h: seq<Entry>, a: nat, b: nat)
    requires a < b < |h| && IsFirst(h, b)
    ensures Lower(h[a].query) != Lower(h[b].query)
  {
    assert LoweredQueries(h[..b])[a] == Lower(h[a].query);
  }

  /**
   * The recent list has at most `limit` queries, pairwise different after
   * lower-casing, each the text of the most recent search of its query.
   */
  lemma RecentUniqueDistinct(h: seq<Entry>, limit: nat)
    ensures var r := RecentUnique(h, limit);
      && |r| <= limit
      && (forall i, j :: 0 <= i < j < |r| ==> Lower(r[i]) != Lower(r[j]))
      && (forall i :: 0 <= i < |r| ==> exists k :: 0 <= k < |h| && IsFirst(h, k) && r[i] == h[k].query)
  {
    var idx := FirstIndices(h);
    var r := RecentUnique(h, limit);
    FirstIndicesFacts(h);
    forall i, j | 0 <= i < j < |r| ensures Lower(r[i]) != Lower(r[j]) {
      FirstsDistinct(h, idx[i], idx[j]);
    }
    forall i | 0 <= i < |r| ensures exists k :: 0 <= k < |h| && IsFirst(h, k) && r[i] == h[k].query {
      assert IsFirst(h, idx[i]) && r[i] == h[idx[i]].query;
    }
  }

  /** A recent list shorter than the limit covers every query of the history. */
  lemma RecentUniqueCovers(h: seq<Entry>, limit: nat)
    ensures var r := RecentUnique(h, limit);
      |r| < limit ==> forall k :: 0 <= k < |h| ==> exists i :: 0 <= i < |r| && Lower(r[i]) == Lower(h[k].query)
  {
    var idx := FirstIndices(h);
    var r := RecentUnique(h, limit);
    if |r| < limit {
      assert r == QueriesAt(h, idx);
      forall k | 0 <= k < |h| ensures exists i :: 0 <= i < |r| && Lower(r[i]) == Lower(h[k].query) {
        KeyCovered(h, k);
        var j :| 0 <= j < |idx| && idx[j] <= k && Lower(h[idx[j]].query) == Lower(h[k].query);
        assert Lower(r[j]) == Lower(h[k].query);
      }
    }
  }

  /** One more entry: it joins the recent list exactly when there is room and it is a first occurrence. */
  lemma RecentStep(h: seq<Entry>, i: nat, limit: nat)
    requires i < |h|
    ensures var r := RecentUnique(h[..i], limit);
      RecentUnique(h[..i + 1], limit) == if |r| < limit && IsFirst(h, i) then r + [h[i].query] else r
  {
    var p := h[..i + 1];
    assert p[..i] == h[..i];
    IsFirstOfPrefix(h, i + 1, i);
    var idx := FirstIndices(h[..i]);
    var all := QueriesAt(h[..i], idx);
    assert QueriesAt(p, idx) == all;
    if IsFirst(h, i) {
      assert FirstIndices(p) == idx + [i];
      var grown := QueriesAt(p, idx + [i]);
      assert grown == all + [h[i].query];
      if |all| < limit {
        assert grown[..Min(limit, |grown|)] == grown;
      } else {
        assert grown[..limit] == all[..limit];
      }
    } else {
      assert FirstIndices(p) == idx;
    }
  }

  /** The lower-cased queries of a list. */
  function LowerSet(qs: seq<string>): set<string> {
    set j | 0 <= j < |qs| :: Lower(qs[j])
  }

  lemma LowerSetAppend(qs: seq<string>, q: string)
    ensures LowerSet(qs + [q]) == LowerSet(qs) + {Lower(q)}
  {
    var a := qs + [q];
    forall x | x in LowerSet(a) ensures x in LowerSet(qs) + {Lower(q)} {
      var j :| 0 <= j < |a| && x == Lower(a[j]);
      if j < |qs| {
        assert a[j] == qs[j];
      }
    }
    forall x | x in LowerSet(qs) ensures x in LowerSet(a) {
      var j :| 0 <= j < |qs| && x == Lower(qs[j]);
      assert a[j] == qs[j];
    }
    assert a[|qs|] == q;
  }

  /** An entry whose query was seen before finds it in a recent list that still has room. */
  lemma RecentSeenBefore(h: seq<Entry>, m: nat, limit: nat)
    requires m < |h|
    requires |RecentUnique(h, limit)| < limit
    ensures Lower(h[m].query) in LowerSet(RecentUnique(h, limit))
  {
    var r := RecentUnique(h, limit);
    RecentUniqueCovers(h, limit);
    var j :| 0 <= j < |r| && Lower(r[j]) == Lower(h[m].query);
  }

  /** Everything in the recent list was seen among the entries. */
  lemma RecentFromHistory(h: seq<Entry>, limit: nat, key: string)
    requires key in LowerSet(RecentUnique(h, limit))
    ensures key in LoweredQueries(h)
  {
    var r := RecentUnique(h, limit);
    RecentUniqueDistinct(h, limit);
    var j :| 0 <= j < |r| && key == Lower(r[j]);
    var k :| 0 <= k < |h| && IsFirst(h, k) && r[j] == h[k].query;
    assert LoweredQueries(h)[k] == key;
  }

  /** While there is room, an entry is a first occurrence exactly when its query is not yet listed. */
  lemma RecentSeen(h: seq<Entry>, i: nat, limit: nat)
    requires i < |h|
    requires |RecentUnique(h[..i], limit)| < limit
    ensures IsFirst(h, i) <==> Lower(h[i].query) !in LowerSet(RecentUnique(h[..i], limit))
  {
    var key := Lower(h[i].query);
    if key in LoweredQueries(h[..i]) {
      var m :| 0 <= m < i && LoweredQueries(h[..i])[m] == key;
      RecentSeenBefore(h[..i], m, limit);
    } else if key in LowerSet(RecentUnique(h[..i], limit)) {
      RecentFromHistory(h[..i], limit, key);
    }
  }

  // ---------------------------------------------------------------- getSearchStats

  datatype SearchStats = SearchStats(
    totalSearches: nat,
    uniqueQueries: nat,
    averageResultsPerSearch: nat,
    mostPopularQuery: Option<string>)

  /** `history.reduce((sum, item) => sum + item.resultsCount, 0)` */
  function TotalResults(h: seq<Entry>): nat {
    if h == [] then 0 else h[0].resultsCount + TotalResults(h[1..])
  }

  /** `Math.round(total / n)`: the integer nearest the mean, halves rounded up. */
  function RoundedMean(total: nat, n: nat): (r: nat)
    requires n > 0
    ensures n * (2 * r - 1) <= 2 * total < n * (2 * r + 1)
  {
    var r := (2 * total + n) / (2 * n);
    assert 2 * n * r <= 2 * total + n < 2 * n * (r + 1);
    r
  }

  /** The distinct lower-cased queries: `new Set(history.map(item => item.query.toLowerCase()))`. */
  function UniqueQueries(h: seq<Entry>): set<string> {
    set i | 0 <= i < |h| :: Lower(h[i].query)
  }

  /** `Math.round(totalResults / history.length)`, or 0 for an empty history. */
  function Average(h: seq<Entry>): nat {
    if |h| > 0 then RoundedMean(TotalResults(h), |h|) else 0
  }

  /** The query of the first popular row, if there is one. */
  function MostPopular(h: seq<Entry>): Option<string> {
    var popular := Popular(h, 1);
    if |popular| > 0 then Some(popular[0].query) else None
  }

  /** `getSearchStats()` */
  function Stats(h: seq<Entry>): SearchStats {
    SearchStats(|h|, |UniqueQueries(h)|, Average(h), MostPopular(h))
  }

  /** There are no more distinct queries than entries. */
  lemma {:induction false} UniqueQueriesBound(h: seq<Entry>)
    ensures |UniqueQueries(h)| <= |h|
    ensures h != [] ==> |UniqueQueries(h)| >= 1
  {
    if h != [] {
      var n := |h| - 1;
      UniqueQueriesBound(h[..n]);
      assert UniqueQueries(h) == UniqueQueries(h[..n]) + {Lower(h[n].query)} by {
        forall q | q in UniqueQueries(h) ensures q in UniqueQueries(h[..n]) + {Lower(h[n].query)} {
          var i :| 0 <= i < |h| && q == Lower(h[i].query);
          if i < n {
            assert h[..n][i] == h[i];
          }
        }
        forall q | q in UniqueQueries(h[..n]) ensures q in UniqueQueries(h) {
          var i :| 0 <= i < n && q == Lower(h[..n][i].query);
          assert h[..n][i] == h[i];
        }
      }
      assert Lower(h[n].query) in UniqueQueries(h);
    }
  }

  /**
   * The counts of the statistics: the number of searches is the length; the
   * number of distinct queries is 0 for an empty history and otherwise lies
   * between 1 and the length; the average of an empty history is 0.
   */
  lemma StatsCounts(h: seq<Entry>)
    ensures Stats(h).totalSearches == |h|
    ensures h == [] ==> Stats(h).averageResultsPerSearch == 0 && Stats(h).uniqueQueries == 0
    ensures h != [] ==> 1 <= Stats(h).uniqueQueries <= |h|
  {
    UniqueQueriesBound(h);
  }

  /** The average of a non-empty history is the integer nearest the mean result count, halves rounded up. */
  lemma AverageBounds(h: seq<Entry>)
    requires h != []
    ensures var avg := Average(h);
      |h| * (2 * avg - 1) <= 2 * TotalResults(h) < |h| * (2 * avg + 1)
  {
    var n, t := |h|, TotalResults(h);
    var avg := RoundedMean(t, n);
    assert n * (2 * avg - 1) <= 2 * t < n * (2 * avg + 1);
  }

  /**
   * The most popular query of the statistics is absent exactly for an empty
   * history, and otherwise is a lower-cased query of the history that no
   * other query outnumbers.
   */
  lemma StatsMostPopular(h: seq<Entry>)
    ensures Stats(h).mostPopularQuery.None? <==> h == []
    ensures Stats(h).mostPopularQuery.Some? ==>
      var q := Stats(h).mostPopularQuery.value;
      && q in LoweredQueries(h)
      && forall k :: 0 <= k < |h| ==> Occurrences(LoweredQueries(h), Lower(h[k].query)) <= Occurrences(LoweredQueries(h), q)
  {
    PopularFacts(h, 1);
    if h != [] {
      PopularTopIsMostFrequent(h, 1);
    } else {
      TallyLength(LoweredQueries(h));
    }
  }

  // ---------------------------------------------------------------- searchHistory

  /** `searchHistory(term)`: the entries whose lower-cased query contains the lower-cased term. */
  function Matching(h: seq<Entry>, term: string): (r: seq<Entry>)
    ensures forall e :: e in r <==> e in h && Contains(Lower(e.query), Lower(term))
    ensures forall e :: multiset(r)[e] == if Contains(Lower(e.query), Lower(term)) then multiset(h)[e] else 0
    ensures SubsequenceOf(r, h)
  {
    var matches := (e: Entry) => Contains(Lower(e.query), Lower(term));
    FilterIsSubsequence(h, matches);
    FilterCounts(h, matches);
    Filter(h, matches)
  }

  /** The storage after `addToHistory`: untouched for a blank query, otherwise the new list. */
  function Recorded(s: Stored, query: string, resultsCount: nat, filters: Option<FilterSet>, id: string, now: int): Stored {
    if IsBlank(query) then s else Entries(Added(Decode(s), query, resultsCount, filters, id, now))
  }

  // ---------------------------------------------------------------- the service

  /** `SearchHistoryService`, whose only state is the storage key it owns. */
  class SearchHistoryService {
    var storage: Stored

    constructor(initial: Stored)
      ensures storage == initial
    {
      storage := initial;
    }

    /** The list is well formed whenever this service wrote it. */
    ghost predicate Valid()
      reads this
    {
      storage.Entries? ==> WellFormed(storage.items)
    }

    /** `getHistory()` */
    method GetHistory() returns (h: seq<Entry>)
      ensures h == Decode(storage)
      ensures Valid() ==> WellFormed(h)
    {
      match storage
      case Entries(items) => h := items;
      case Absent => h := [];
      case Unparseable => h := [];
    }

    /** `addToHistory(query, resultsCount, filters)`, with the fresh id and the current time passed in. */
    method AddToHistory(query: string, resultsCount: nat, filters: Option<FilterSet>, id: string, now: int)
      modifies this
      ensures storage == Recorded(old(storage), query, resultsCount, filters, id, now)
      ensures old(Valid()) ==> Valid()
    {
      if Trim(query) == [] {
        return;
      }
      var history := GetHistory();
      var filteredHistory := Survivors(history, query, filters);
      var newItem := NewEntry(query, resultsCount, filters, id, now);
      var updated := [newItem] + filteredHistory;
      ghost var next := Added(history, query, resultsCount, filters, id, now);
      assert updated[..Min(MaxHistoryItems, |updated|)] == next;
      if Valid() {
        AddedWellFormed(history, query, resultsCount, filters, id, now);
      }
      storage := Entries(updated[..Min(MaxHistoryItems, |updated|)]);
    }

    /** `removeFromHistory(id)`: the list is written back even when nothing was removed. */
    method RemoveFromHistory(id: string)
      modifies this
      ensures storage == Entries(WithoutId(Decode(old(storage)), id))
      ensures old(Valid()) ==> Valid()
    {
      var history := GetHistory();
      storage := Entries(Filter(history, (e: Entry) => e.id != id));
      WithoutIdWellFormed(history, id);
    }

    /** `clearHistory()`: the storage key is removed. */
    method ClearHistory()
      modifies this
      ensures storage == Absent && Decode(storage) == []
      ensures Valid()
    {
      storage := Absent;
    }

    /** `getPopularSearches(limit)` */
    method GetPopularSearches(limit: nat) returns (r: seq<QueryCount>)
      ensures r == Popular(Decode(storage), limit)
      ensures |r| <= limit && Sorting.SortedDesc(r, ByCount)
      ensures |r| == Min(limit, |Tally(LoweredQueries(Decode(storage)))|)
      ensures KeysDistinct(r) && MostFrequentFirst(r, LoweredQueries(Decode(storage)))
    {
      var history := GetHistory();
      var counts := CountQueries(history);
      var sorted := Sorting.SortDesc(counts, ByCount);
      r := sorted[..Min(limit, |sorted|)];
      PopularFacts(history, limit);
      PopularIsTopK(history, limit);
    }

    /** `getRecentUniqueSearches(limit)`: one pass, remembering the lower-cased queries taken so far. */
    method GetRecentUniqueSearches(limit: nat) returns (recent: seq<string>)
      ensures recent == RecentUnique(Decode(storage), limit)
    {
      var history := GetHistory();
      var unique: set<string> := {};
      recent := [];
      for i := 0 to |history|
        invariant recent == RecentUnique(history[..i], limit)
        invariant unique == LowerSet(recent)
      {
        RecentStep(history, i, limit);
        if |recent| < limit {
          RecentSeen(history, i, limit);
        }
        var normalized := Lower(history[i].query);
        if normalized !in unique && |recent| < limit {
          LowerSetAppend(recent, history[i].query);
          unique := unique + {normalized};
          recent := recent + [history[i].query];
        }
      }
      assert history[..|history|] == history;
    }

    /** `searchHistory(term)` */
    function SearchHistory(term: string): (r: seq<Entry>)
      reads this
      ensures forall e :: e in r <==> e in Decode(storage) && Contains(Lower(e.query), Lower(term))
      ensures forall e :: multiset(r)[e] == if Contains(Lower(e.query), Lower(term)) then multiset(Decode(storage))[e] else 0
      ensures SubsequenceOf(r, Decode(storage))
    {
      Matching(Decode(storage), term)
    }

    /** `getSearchStats()` */
    function GetSearchStats(): (st: SearchStats)
      reads this
      ensures st.totalSearches == |Decode(storage)|
      ensures st.mostPopularQuery.None? <==> Decode(storage) == []
    {
      StatsCounts(Decode(storage));
      StatsMostPopular(Decode(storage));
      Stats(Decode(storage))
    }
  }
}
