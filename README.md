# harshamovies search, history and detail logic in Dafny

This project models the logic under the React screens of harshamovies, a movie and TV browser. It covers:

- **The search-history store** (`SearchHistoryService`). It is one persisted, most-recent-first list of search records, at most 100 long. Adding a search replaces earlier records of the same search. Records can be removed by id and the list can be cleared. Four read-only queries run over it: popular searches, recent unique queries, matching by term, and statistics.
- **The search-history page.** It loads the list sorted newest first, clears it, and removes one record. It builds the link that repeats a search, buckets a record's age ("Just now", "5m ago", …), and shows the six most popular searches.
- **The search page.** It reads the query and filters from the URL, narrows the results in four filter stages, and computes the page count. It records the search in the history, loads more pages, and clears one filter or all of them.
- **The navigation bar.** It builds the search link from the typed or spoken query and the chosen filters. It also counts active filters and shows recent searches.
- **The movie and TV detail pages:**
  - the like button with its persisted counters;
  - the runtime text, the language name table, and the trailer and writers picks;
  - the ordered list of info cards and its first four;
  - the season label and the "+N more" previews.
- **The footer:** accordion sections, the newsletter e-mail check and the subscribe flow.
- **The sign-up form:** validation order, mapping of error codes to messages, and background rotation.
- **The hero banner's text helpers:** title, media type, details path and truncated overview.

Some parts are classes with `modifies` clauses: the store, the page states, the navigation bar, the like button, the footer and the sign-up form. In the source these are objects or component states that change in place. The calculations are pure functions, each with lemmas that relate it to a reference definition. The store's loops (counting queries, collecting recent unique queries) and the filter pipeline are methods with loop invariants, proved against those functions.

The browser's `localStorage` key is a field, `storage`. A URL query string is a list of name/value pairs (`UrlParams.Params`) with the `get`, `set` and `delete` semantics of `URLSearchParams`. The predicate `Describes` states which names a link carries and with what values.

Ids, clocks, network responses and the sign-up outcome are parameters.

## Model

| member | source | states |
|---|---|---|
| SearchHistoryStore.Decode | src/services/searchHistory.ts:44-55 | a parsed list reads as itself; a missing key or text that fails to parse reads as the empty history |
| SearchHistoryStore.AddedShape | src/services/searchHistory.ts:18-41 | after a non-blank add, the new record comes first with the trimmed query, the given count, id and time, and the filters or `{}`; the length is min(100, survivors + 1); behind it come the survivors in order, none of them the same search |
| SearchHistoryStore.AddedKeepsOrder | src/services/searchHistory.ts:24-38 | the records behind the new one are a subsequence of the old history |
| SearchHistoryStore.SurvivorsInOrder | src/services/searchHistory.ts:24-27 | the duplicate filter keeps the survivors in their old order |
| SearchHistoryStore.AddedBlankIsNoOp | src/services/searchHistory.ts:19 | adding a blank query leaves the history unchanged |
| SearchHistoryStore.FilterlessAddKeepsEverything | src/services/searchHistory.ts:24-38 | a search added with no filter object never matches a stored `{}`, so nothing is removed and the list grows by one up to 100 |
| SearchHistoryStore.AddedWellFormed | src/services/searchHistory.ts:18-41 | adding preserves the invariant: at most 100 records, every stored query trimmed |
| SearchHistoryStore.SurvivorsWellFormed | src/services/searchHistory.ts:24-27 | every survivor of a well-formed history has a trimmed query |
| SearchHistoryStore.RepeatedSearchCollapses | src/services/searchHistory.ts:18-41 | repeating a trimmed search with the same filters, in any letter case, leaves only the newer record of it |
| SearchHistoryStore.PaddedQueryLeavesDuplicate | src/services/searchHistory.ts:24-31 | a query with a leading space is compared untrimmed, so it misses the stored record and is then stored trimmed beside it: two records of one search |
| SearchHistoryStore.WithoutId | src/services/searchHistory.ts:58-62 | no record of the result has the removed id |
| SearchHistoryStore.WithoutIdFacts | src/services/searchHistory.ts:58-62 | the result holds exactly the records whose id differs, in their old order, and is unchanged when no record has the id |
| SearchHistoryStore.WithoutIdWellFormed | src/services/searchHistory.ts:58-62 | removal preserves the store invariant |
| SearchHistoryStore.LoweredQueries | src/services/searchHistory.ts:74-77 | one lower-cased query per record, position by position |
| SearchHistoryStore.BumpKeys | src/services/searchHistory.ts:76 | counting one more occurrence adds the key to the key list and nothing else |
| SearchHistoryStore.BumpCount | src/services/searchHistory.ts:76 | counting one more occurrence raises that key's count by one and no other count |
| SearchHistoryStore.BumpTotal | src/services/searchHistory.ts:76 | counting one more occurrence raises the sum of the counts by one |
| SearchHistoryStore.BumpPositive | src/services/searchHistory.ts:76 | all counts stay at least one |
| SearchHistoryStore.BumpDistinct | src/services/searchHistory.ts:76 | keys stay distinct |
| SearchHistoryStore.BumpFacts | src/services/searchHistory.ts:74-77 | the above five facts about one counting step, together |
| SearchHistoryStore.TallyFacts | src/services/searchHistory.ts:70-78 | the count table has distinct keys, exactly the queries that occur, each with its true positive number of occurrences, and the counts add up to the number of queries |
| SearchHistoryStore.TallyDistinct | src/services/searchHistory.ts:74-77 | the count table's keys are distinct |
| SearchHistoryStore.TallySnoc | src/services/searchHistory.ts:74-77 | counting one more query of the list is one counting step on the table so far |
| SearchHistoryStore.RowCount | src/services/searchHistory.ts:76 | in a table with distinct keys, looking a row's key up gives that row's count |
| SearchHistoryStore.TallyLength | src/services/searchHistory.ts:74-77 | there are no more rows than queries |
| SearchHistoryStore.BumpLength | src/services/searchHistory.ts:76 | one counting step adds at most one row |
| SearchHistoryStore.Rows | src/services/searchHistory.ts:79 | the table built from the keys in insertion order and a count map has those keys in that order |
| SearchHistoryStore.BumpNew | src/services/searchHistory.ts:76 | counting a key not yet present appends it with count 1 |
| SearchHistoryStore.BumpOld | src/services/searchHistory.ts:76 | counting a present key raises its row in place |
| SearchHistoryStore.CountStepOld | src/services/searchHistory.ts:74-77 | raising a present key in the count map is one counting step on the table |
| SearchHistoryStore.CountStepNew | src/services/searchHistory.ts:74-77 | inserting a new key with count 1 is one counting step on the table |
| SearchHistoryStore.CountQueries | src/services/searchHistory.ts:70-79 | the `forEach` over the history, with a map as the count object, builds exactly the table of lower-cased query counts, keys in first-occurrence order (the order `Object.entries` gives for keys that are neither integer-like nor inherited) |
| SearchHistoryStore.PopularFacts | src/services/searchHistory.ts:70-83 | the popular list has at most `limit` rows in non-increasing order of count; each row is a lower-cased query with its true number of occurrences; with a large enough limit the counts add up to the history's length |
| SearchHistoryStore.PopularRows | src/services/searchHistory.ts:79-82 | every popular row is a lower-cased query with its true, positive number of occurrences |
| SearchHistoryStore.PopularTotal | src/services/searchHistory.ts:79-82 | with a limit at least the history's length, the popular counts add up to that length |
| SearchHistoryStore.PopularTopIsMostFrequent | src/services/searchHistory.ts:79-82 | the first popular row is a query no other query outnumbers |
| SearchHistoryStore.PermutedKeysDistinct | src/services/searchHistory.ts:79-80 | sorting the count table keeps one row per query |
| SearchHistoryStore.PopularIsTopK | src/services/searchHistory.ts:69-83 | the popular list is the top of the full count table: one row per query, min(limit, distinct queries) rows, and no query left out occurs more often than any row listed |
| SearchHistoryStore.SortedPrefixTop | src/services/searchHistory.ts:79-81 | a prefix of the table sorted by count leaves out only queries counted no higher than any row it keeps |
| SearchHistoryStore.FirstIndices | src/services/searchHistory.ts:91-97 | the first-occurrence positions are in range and increasing |
| SearchHistoryStore.QueriesAt | src/services/searchHistory.ts:96 | the queries at the given positions, as stored (not lowered) |
| SearchHistoryStore.IsFirstOfPrefix | src/services/searchHistory.ts:91-97 | whether a record is a first occurrence depends only on the records before it |
| SearchHistoryStore.FirstIndicesFacts | src/services/searchHistory.ts:91-97 | the collected positions are exactly the first occurrences of each lower-cased query |
| SearchHistoryStore.KeyCovered | src/services/searchHistory.ts:91-97 | every record's lower-cased query has a first occurrence at or before it |
| SearchHistoryStore.FirstsDistinct | src/services/searchHistory.ts:93 | a first occurrence differs, ignoring case, from every earlier query |
| SearchHistoryStore.RecentUniqueDistinct | src/services/searchHistory.ts:86-100 | the recent list has at most `limit` queries, pairwise different ignoring case, each the stored form of a first occurrence |
| SearchHistoryStore.RecentUniqueCovers | src/services/searchHistory.ts:86-100 | a recent list shorter than the limit covers every query of the history |
| SearchHistoryStore.RecentStep | src/services/searchHistory.ts:91-97 | one more loop step appends the record's query exactly when there is room and it is a first occurrence |
| SearchHistoryStore.LowerSetAppend | src/services/searchHistory.ts:93-95 | the set of seen lower-cased queries grows by the new one |
| SearchHistoryStore.RecentSeenBefore | src/services/searchHistory.ts:93 | while there is room, every earlier record's lower-cased query has been seen |
| SearchHistoryStore.RecentFromHistory | src/services/searchHistory.ts:93-95 | every seen lower-cased query comes from the history |
| SearchHistoryStore.RecentSeen | src/services/searchHistory.ts:93 | while there is room, the `Set` test holds exactly for first occurrences |
| SearchHistoryStore.RoundedMean | src/services/searchHistory.ts:127 | `Math.round(total / n)`: the integer nearest the mean, halves rounded up |
| SearchHistoryStore.UniqueQueriesBound | src/services/searchHistory.ts:120 | there are between 1 and `length` distinct lower-cased queries in a non-empty history |
| SearchHistoryStore.StatsCounts | src/services/searchHistory.ts:113-130 | the number of searches is the length; an empty history has 0 unique queries and average 0; otherwise the unique count is between 1 and the length |
| SearchHistoryStore.AverageBounds | src/services/searchHistory.ts:121-127 | the average is the integer nearest the mean result count |
| SearchHistoryStore.StatsMostPopular | src/services/searchHistory.ts:122-128 | the most popular query is absent exactly for an empty history, and otherwise is a lower-cased query that no other outnumbers |
| SearchHistoryStore.Matching | src/services/searchHistory.ts:103-110 | the matches are exactly the records whose lower-cased query contains the lower-cased term, each as many times as it is stored, in history order |
| SearchHistoryStore.SearchHistoryService.constructor | src/services/searchHistory.ts:12-15 | the service starts over whatever the storage key holds |
| SearchHistoryStore.SearchHistoryService.GetHistory | src/services/searchHistory.ts:44-55 | reads the decoded storage, which holds at most 100 records with trimmed queries whenever the store invariant holds |
| SearchHistoryStore.SearchHistoryService.AddToHistory | src/services/searchHistory.ts:18-41 | writes the added list back (nothing is written for a blank query) and preserves the store invariant |
| SearchHistoryStore.SearchHistoryService.RemoveFromHistory | src/services/searchHistory.ts:58-62 | writes back the list without the id and preserves the store invariant |
| SearchHistoryStore.SearchHistoryService.ClearHistory | src/services/searchHistory.ts:65-67 | removes the key, so the history reads as empty |
| SearchHistoryStore.SearchHistoryService.GetPopularSearches | src/services/searchHistory.ts:69-83 | returns the most frequent searches: min(limit, distinct queries) rows, one per lower-cased query, sorted by count, and no query left out occurs more often than one listed |
| SearchHistoryStore.SearchHistoryService.GetRecentUniqueSearches | src/services/searchHistory.ts:86-100 | the loop over the history, with its seen-set, returns the recent unique queries |
| SearchHistoryStore.SearchHistoryService.SearchHistory | src/services/searchHistory.ts:103-110 | exactly the stored records whose query contains the term, ignoring case, each as many times as it is stored, in order |
| SearchHistoryStore.SearchHistoryService.GetSearchStats | src/services/searchHistory.ts:113-130 | the number of searches is the stored length; there is no most popular query exactly when the history is empty |
| SearchHistoryPage.RepeatSearch | src/pages/SearchHistory.tsx:75-90 | the link built step by step carries the record's query and the filters it recorded |
| SearchHistoryPage.RepeatLinkNames | src/pages/SearchHistory.tsx:75-90 | the link has `q`; it has `type` exactly when a type other than `all` was recorded; it has `year`/`genre` exactly when they were recorded non-empty; it never has `language` |
| SearchHistoryPage.RepeatLinkReads | src/pages/SearchHistory.tsx:75-90 | what `get` returns on the repeat link for each name |
| SearchHistoryPage.FormatTimeAgo | src/pages/SearchHistory.tsx:92-109 | the six age buckets, each exactly for its range of elapsed time |
| SearchHistoryPage.TimeAgoNumbers | src/pages/SearchHistory.tsx:96-106 | the number shown is the floor of the elapsed time in that unit, and within the bucket's range |
| SearchHistoryPage.MinutesLabelRoundTrip | src/pages/SearchHistory.tsx:94-97 | the whole minutes can be read back from the "m ago" text |
| SearchHistoryPage.SearchHistoryPageState.constructor | src/pages/SearchHistory.tsx:21-25 | the page starts empty, with nothing selected |
| SearchHistoryPage.SearchHistoryPageState.LoadSearchHistory | src/pages/SearchHistory.tsx:31-39 | the loaded list is the stored list sorted newest first (the same records); an unparseable list leaves the page unchanged |
| SearchHistoryPage.SearchHistoryPageState.ClearSearchHistory | src/pages/SearchHistory.tsx:42-47 | the storage, the list, the results and the selection are all cleared |
| SearchHistoryPage.SearchHistoryPageState.RemoveHistoryItem | src/pages/SearchHistory.tsx:49-58 | the list loses exactly the records with the id and is written back; the selection and its results are cleared exactly when the selected record is the one removed |
| SearchHistoryPage.SearchHistoryPageState.PopularSearches | src/pages/SearchHistory.tsx:111-121 | the six most frequent lower-cased queries of the loaded list (fewer if there are fewer), one row each, sorted by count, none left out occurring more often than one shown |
| SearchPage.OrElse | src/pages/Search.tsx:11-15 | a present, non-empty parameter reads as itself; a missing or empty one reads as the fallback |
| SearchPage.ApplyFilters | src/pages/Search.tsx:50-99 | the four filter stages, run in order, give the response filtered once by every active test: the items every active filter accepts, in their original order and as many times as they occur |
| SearchPage.Stage | src/pages/Search.tsx:52-99 | filtering the earlier stages' list with one more `filter` is filtering the response once by all those tests together |
| SearchPage.SkippedStage | src/pages/Search.tsx:52-99 | a stage that is switched off leaves the list as the filter by the stages so far |
| SearchPage.TypeStage | src/pages/Search.tsx:52-64 | when the type is not `all`, the type stage leaves the response filtered by the type test |
| SearchPage.YearStage | src/pages/Search.tsx:68-75 | when a year is set, the year stage leaves the response filtered by the type and year tests |
| SearchPage.GenreStage | src/pages/Search.tsx:78-87 | when a genre is set, the genre stage adds the genre test to that filter |
| SearchPage.LanguageStage | src/pages/Search.tsx:90-99 | when a language is set, the language stage adds the language test to that filter |
| SearchPage.NoStage | src/pages/Search.tsx:49 | before any stage runs, the list is the response's items |
| SearchPage.AllStages | src/pages/Search.tsx:50-99 | after the last stage, the list is the response filtered by every switched-on test |
| SearchPage.ChainKeepsAll | src/pages/Search.tsx:49-99 | the chain returns the response unchanged exactly when every item passes, and in particular when no filter is active |
| SearchPage.FirstPageIsLast | src/pages/Search.tsx:105-129 | on a first page of at most 20 results, the page count from the filtered results is at most 1 |
| SearchPage.OtherTypesKeepAll | src/pages/Search.tsx:52-64 | a type other than movie, tv or person filters nothing out |
| SearchPage.MovieAndTvExclusive | src/pages/Search.tsx:54-60 | no item passes both the movie and the tv filter |
| SearchPage.UndatedFailsYear | src/pages/Search.tsx:68-75 | an item with neither date never passes a year filter |
| SearchPage.GenreMatchesIffOccurs | src/pages/Search.tsx:78-87 | the genre test holds exactly when the lower-cased genre occurs in the lower-cased overview or title |
| SearchPage.LanguageMatchesReduces | src/pages/Search.tsx:90-99 | the language test holds exactly when the language is contained in the code or its name; for an unknown code only the code matters |
| SearchPage.TotalPages | src/pages/Search.tsx:105 | `Math.ceil(n / 20)`: the fewest pages of 20 that hold n results |
| SearchPage.HistoryFilters | src/pages/Search.tsx:108-113 | each recorded facet is absent exactly when its filter is off |
| SearchPage.RepeatRestoresFilters | src/pages/Search.tsx:108-115 | repeating a recorded search from the history page restores its query and every filter except language |
| SearchPage.SearchPageState.constructor | src/pages/Search.tsx:10-24 | the page starts on page 1 with no results, no error and not loading |
| SearchPage.SearchPageState.FetchResults | src/pages/Search.tsx:41-123 | no query: nothing changes; failure: the error message is set and nothing is recorded; success: the filtered results, their count, the page count and the total are shown and the search is recorded with its filters, and a response of at most 20 items gives at most one page; in every case with a query, page 1 and not loading |
| SearchPage.SearchPageState.ShowFirstPage | src/pages/Search.tsx:49-105 | the filtered first page and its counts are shown |
| SearchPage.SearchPageState.LoadMoreResults | src/pages/Search.tsx:128-184 | on the last page or while loading nothing happens; failure sets the error; success appends the filtered next page after the old results and moves to the next page; the page count, total and filtered count never change |
| SearchPage.SearchPageState.ClearFilter | src/pages/Search.tsx:186-190 | the named parameter is gone and every other reads as before; results, page, loading, error and the counts are unchanged |
| SearchPage.SearchPageState.ClearAllFilters | src/pages/Search.tsx:192-196 | only the query remains, so no filter is active; results, page, loading, error and the counts are unchanged |
| Navbar.BuildSearchParams | src/components/common/Navbar.tsx:49-63 | the link built step by step carries the trimmed query and each active filter |
| Navbar.SearchLinkNames | src/components/common/Navbar.tsx:49-63 | `q` is always present; `type` exactly when not `all`; `year`, `genre`, `language` exactly when non-empty |
| Navbar.SearchLinkRoundTrip | src/components/common/Navbar.tsx:49-65 | the search page reads back from the link the same query and filters the bar sent |
| Navbar.ActiveCount | src/components/common/Navbar.tsx:190 | the badge is the number of the four filter values that are non-empty and not `all`, so at most four |
| Navbar.ActiveCountAgrees | src/components/common/Navbar.tsx:139 | a positive badge count implies the active-filter flag, and the badge is zero exactly when no filter value counts |
| Navbar.NavbarState.constructor | src/components/common/Navbar.tsx:15-20 | the bar starts with no query, the default filters and nothing open |
| Navbar.NavbarState.LoadRecentSearches | src/components/common/Navbar.tsx:42-44 | the suggestions are the five most recent unique queries |
| Navbar.NavbarState.Navigate | src/components/common/Navbar.tsx:65-69 | navigating goes to the link and closes the menu, filters and suggestions |
| Navbar.NavbarState.HandleSearchSubmit | src/components/common/Navbar.tsx:46-71 | a blank query does nothing; otherwise the bar goes to the search link of the trimmed query and its filters and resets |
| Navbar.NavbarState.HandleVoiceResult | src/components/common/Navbar.tsx:73-100 | a blank transcript does nothing; otherwise it searches the trimmed transcript with the current filters |
| Navbar.NavbarState.ClearFilters | src/components/common/Navbar.tsx:119-126 | the filters go back to their defaults, so none is active |
| Navbar.NavbarState.HandleRecentSearchClick | src/components/common/Navbar.tsx:128-137 | goes to a link carrying only the clicked query and closes the suggestions |
| Languages.LanguageName | src/pages/MovieDetails.tsx:235-277 | a known code gives its name from the table; any other code is upper-cased |
| Languages.FallbackLowersToCode | src/pages/Search.tsx:26-38 | for an unknown code, lower-casing the shown name gives back the lower-cased code |
| Details.Decrement | src/pages/MovieDetails.tsx:114-115 | `Math.max(0, n - 1)` |
| Details.ToggleFlips | src/pages/MovieDetails.tsx:102-120 | a like flips the flag, keeps the set of liked ids in step with it, and touches no other id |
| Details.ToggleCounts | src/pages/MovieDetails.tsx:102-120 | a like adds one to the shown and the stored count; an unlike subtracts one, never below zero |
| Details.ToggleTwice | src/pages/TVDetails.tsx:86-104 | liking and unliking restores the liked set, the flag, and the counts whenever they were positive |
| Details.InitialLikeCount | src/pages/MovieDetails.tsx:34-39 | the stored count plus one per full hundred votes |
| Details.LikeButton.constructor | src/pages/TVDetails.tsx:32-37 | the flag says whether the id is liked; the count is the initial like count |
| Details.LikeButton.HandleLike | src/pages/MovieDetails.tsx:102-120 | with no id nothing changes; otherwise one toggle |
| Details.RuntimeParts | src/pages/MovieDetails.tsx:220-224 | hours and minutes, with minutes below 60, adding up to the runtime |
| Details.FormatRuntimeRoundTrip | src/pages/MovieDetails.tsx:220-224 | the runtime can be read back from the "Xh Ym" text |
| Details.Trailer | src/pages/MovieDetails.tsx:280-282 | the first YouTube trailer, or none exactly when there is no trailer |
| Details.Writers | src/pages/MovieDetails.tsx:285 | exactly the writers and screenplay authors, each as many times as credited, in crew order |
| Details.PushStep | src/pages/MovieDetails.tsx:288-443 | adding one card when its data is present keeps the card list exact and ordered up to that card |
| Details.AllRanks | src/pages/MovieDetails.tsx:288-443 | after the last card the list is exactly the available cards, in order |
| Details.AvailableInfoCards | src/pages/MovieDetails.tsx:288-443 | the card list is exactly the cards whose data is present, in display order |
| Details.ShownCards | src/pages/MovieDetails.tsx:869 | at most the first four cards |
| Details.PositionAtMostRank | src/pages/MovieDetails.tsx:288-443 | a card never sits later than its rank |
| Details.LanguageAlwaysShown | src/pages/MovieDetails.tsx:333-356 | the language card, always available, is always among the four shown |
| Details.Preview | src/pages/TVDetails.tsx:604-609 | the first k items, and a "+N more" count exactly when there are more than k, with N the rest |
| Details.SeasonLabel | src/pages/TVDetails.tsx:460-464 | the number, then " Season" for exactly one and " Seasons" otherwise |
| Footer.ValidEmailSound | src/components/common/Footer.tsx:89-93 | the scanning check implies a match of the e-mail pattern |
| Footer.ValidEmailComplete | src/components/common/Footer.tsx:89-93 | every match of the e-mail pattern passes the scanning check |
| Footer.ValidEmailIff | src/components/common/Footer.tsx:89-93 | the scanning check and the pattern agree on every string |
| Footer.ToggleExpanded | src/components/common/Footer.tsx:77-79 | clicking the open section closes it; clicking any other opens it |
| Footer.ToggleTwiceRestores | src/components/common/Footer.tsx:77-79 | two clicks on a section restore the accordion when that section or none was open |
| Footer.SectionKey | src/components/common/Footer.tsx:284-300 | the key is the lower-cased name with every whitespace character removed and the other characters kept, in order and with their multiplicities |
| Footer.KeyWithoutContent | src/components/common/Footer.tsx:113-204 | a name containing an `l` or `o` maps to a key with no content |
| Footer.SupportLinksHaveNoContent | src/components/common/Footer.tsx:46-52 | none of the support links' keys matches a content section, so none expands |
| Footer.FooterState.constructor | src/components/common/Footer.tsx:7-10 | no e-mail, idle, no error, no section open |
| Footer.FooterState.ToggleSection | src/components/common/Footer.tsx:77-79 | one accordion toggle, nothing else changes |
| Footer.FooterState.HandleSubscribe | src/components/common/Footer.tsx:81-111 | empty e-mail: asks for one; no pattern match: invalid message; otherwise success and the field is cleared |
| Signup.ErrorMessage | src/pages/Signup.tsx:62-73 | each known error code gives its own message, and every other code the generic one |
| Signup.NextBackground | src/pages/Signup.tsx:29-34 | the next of the four backgrounds, wrapping from the last to the first |
| Signup.BackgroundCycles | src/pages/Signup.tsx:29-34 | after n ticks the background is n modulo 4 |
| Signup.SignupForm.constructor | src/pages/Signup.tsx:7-23 | an empty form on the first background |
| Signup.SignupForm.RotateBackground | src/pages/Signup.tsx:31 | one interval tick advances the background and nothing else |
| Signup.SignupForm.HandleSubmit | src/pages/Signup.tsx:43-77 | a mismatch is reported first, then a password under 6 characters, without calling sign-up; otherwise sign-up is called once, and success goes home while a rejection shows its mapped message |
| Hero.Title | src/components/common/Hero.tsx:18 | the title, else the name, else empty |
| Hero.MediaType | src/components/common/Hero.tsx:19 | the item's media type, else the `type` passed to the banner, else movie |
| Hero.DetailsPathRoundTrip | src/components/common/Hero.tsx:20 | `/type/id` with the type and the id readable back from the path |
| Hero.TruncatedOverview | src/components/common/Hero.tsx:23-25 | a short overview is unchanged; a long one is its first 200 characters and "..." |
| Hero.TruncatedOverviewIdempotent | src/components/common/Hero.tsx:23-25 | truncating a truncated overview changes nothing |
| UrlParams.Get | src/pages/Search.tsx:11-15 | `get` is null exactly when the name is missing, and otherwise the value of the first pair with that name |
| UrlParams.Delete | src/pages/Search.tsx:186-190 | `delete` removes the name and leaves every other name reading as before |
| UrlParams.Set | src/components/common/Navbar.tsx:49-63 | `set` makes the name read the value, leaves other names alone, and appends when the name was new |
| UrlParams.SetDescribes | src/components/common/Navbar.tsx:49-63 | a `set` on a described link describes the updated map |
| UrlParams.SetWhen | src/pages/SearchHistory.tsx:75-90 | a conditional `set` describes the conditionally updated map |
| Text.Trim | src/services/searchHistory.ts:19 | `trim` gives the string with its leading and trailing whitespace removed: a part of it preceded and followed only by whitespace, with no whitespace at either end, and empty exactly for a blank string |
| Text.StripSpaces | src/components/common/Footer.tsx:284 | `replace(/\s+/g, '')` keeps exactly the non-whitespace characters, in order |
| Text.TrimIdempotent | src/services/searchHistory.ts:31 | a trimmed query is its own trim |
| Text.ContainsIffOccurs | src/services/searchHistory.ts:108 | `includes` holds exactly when the text occurs at some position |
| Text.DecimalRoundTrip | src/pages/MovieDetails.tsx:222 | the decimal text of a number reads back as the number |
| Sorting.SortDesc | src/pages/SearchHistory.tsx:35-38 | a sort by descending key: ordered, and the same elements with the same multiplicities |
| Sorting.SortStable | src/pages/SearchHistory.tsx:35-38 | the sort is stable: the elements with any one key come out in their original order |
| Sorting.SortSum | src/services/searchHistory.ts:79-80 | sorting does not change a sum over the elements |

## Left out

- Unicode case mapping beyond ASCII letters, and UTF-16 string length: `toLowerCase`/`toUpperCase` change only `A`–`Z`/`a`–`z`, and a string's length is its number of characters.
- The JSON encoding of the storage key is not modelled. The key holds a missing value, unparseable text or a parsed list. JSON text comparison of filter objects is equality of the recorded facets, written in a fixed field order.
- SearchHistoryStore.SearchHistoryService.GetPopularSearches: rows with equal counts may come out in a different order than the engine's stable sort on object-key order. The contract promises descending counts, not a particular order among ties.
- SearchHistoryStore.CountQueries, SearchHistoryStore.Popular, SearchHistoryStore.Stats: the counting object is a map with ordinary keys. Three behaviours of a plain `{}` are not modelled. Integer-like queries such as "1917" are listed first by `Object.entries`, which changes only the order among tied counts, and so which tied rows a limit cuts off. A query naming an inherited property such as "constructor" reads a function, so its count becomes a string and the sort compares `NaN`. A query "__proto__" is dropped.
- Languages.LanguageName: the table is a map with ordinary keys. For a code naming an inherited property, such as "constructor", `languageNames[code] || …` returns that property rather than a string. No ISO 639-1 code names one.
- The default limit of 10 for the popular and recent lists is not modelled, because every caller passes a limit. Limits are natural numbers, so a negative limit, which `slice` would count from the end, is not modelled either.
- Ids (`Date.now()` plus `Math.random()`) and timestamps are parameters; parsing a timestamp back into a `Date` is not modelled.
- Timers are taken as having fired: the 500 ms voice delay, the 100 ms recent-search delay, the 1.5 s subscribe delay, the 4 s success reset and the 8 s background interval. The success reset back to idle is not modelled.
- Network calls are parameters: the search response (`searchContent`) and the sign-up outcome. `handleHistoryItemClick` on the history page fetches results over the network and is not modelled, and neither is the Google sign-up button.
- The `catch` branch of the footer's subscribe handler is not modelled, because nothing in its `try` block can throw.
- SearchHistoryPage.SearchHistoryPageState.LoadSearchHistory: unparseable stored text makes the source's own parse throw; the model leaves the page unchanged instead.
- Floating point: the rating's `toFixed`, the revenue and budget as currency, and locale date and number formatting (`toLocaleDateString` and the like) are not modelled. The release year of a date string is a parameter of the year filter.
- Rendering: React/JSX layout, icons and animations are not modelled. That includes the TV page's `number_of_seasons && …`, which renders a literal `0` for zero seasons.
- Details.ToggleTwice: the counts come back only when they were positive, because unliking at zero is clamped by `Math.max(0, …)`.
- Speech recognition itself is not modelled; the transcript is a parameter of `HandleVoiceResult`.
- The authentication context and routing are not modelled. Navigation is a recorded location.

## Where the description and the code differ

The comment at src/services/searchHistory.ts:23 says that earlier records of the same search are removed "to avoid duplicates", so that the store keeps one record per search. The code does not quite do that, and the model follows the code:

- The duplicate test compares the untrimmed new query with stored queries, which are trimmed. `SearchHistoryStore.PaddedQueryLeavesDuplicate` exhibits two records of one search.
- A search recorded without a filter object never matches a stored record, because its filters stringify to nothing and a stored `{}` does not. `SearchHistoryStore.FilterlessAddKeepsEverything` states that such an add removes nothing.

The search page shows a "Load More Results" button (src/pages/Search.tsx:403-417), but it never fetches a second page. The page count is taken from the filtered results of the first page (src/pages/Search.tsx:105), and a page of the search service holds at most 20 results. So the count is at most 1, and page 1 is already the last. `SearchPage.FirstPageIsLast` and `SearchPage.SearchPageState.FetchResults` state the bound. `SearchPage.SearchPageState.LoadMoreResults` then changes nothing, because its guard `page >= totalPages` (src/pages/Search.tsx:129) holds.
