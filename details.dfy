/**
 * The movie and TV details pages: the like button and its stored counters,
 * the initial like count, the runtime split, trailer and writer selection,
 * the info cards and the short previews of long lists.
 */
module Details {
  import opened Wrappers
  import opened Text
  import Seqs

  // ---------------------------------------------------------------- likes

  /**
   * Everything `handleLike` touches: the stored dictionary of liked ids
   * (`likedMovies` or `likedShows`, each id mapped to `true`), the stored
   * per-id counters (`movie_<id>_likes` or `show_<id>_likes`, a missing key
   * read as 0), and the page's `isLiked` and `likeCount`.
   */
  datatype LikeState = LikeState(liked: set<string>, stored: map<string, nat>, isLiked: bool, likeCount: nat)

  /** `parseInt(localStorage.getItem(key) || '0')` for a counter this page wrote. */
  function StoredLikes(stored: map<string, nat>, id: string): nat {
    if id in stored then stored[id] else 0
  }

  /** `Math.max(0, n - 1)` */
  function Decrement(n: nat): (r: nat)
    ensures n > 0 ==> r + 1 == n
    ensures n == 0 ==> r == 0
  {
    if n == 0 then 0 else n - 1
  }

  /**
   * One press of the button for a non-empty id: the page's own `isLiked`
   * decides the direction. Liking adds the id and one to both counts;
   * unliking removes the id and takes one from both counts, never below 0.
   */
  function Toggle(s: LikeState, id: string): LikeState {
    if !s.isLiked then
      LikeState(s.liked + {id}, s.stored[id := StoredLikes(s.stored, id) + 1], true, s.likeCount + 1)
    else
      LikeState(s.liked - {id}, s.stored[id := Decrement(StoredLikes(s.stored, id))], false, Decrement(s.likeCount))
  }

  /** The page and the stored dictionary agree on whether the id is liked. */
  predicate Agrees(s: LikeState, id: string) {
    s.isLiked <==> id in s.liked
  }

  /** A press flips `isLiked`, keeps page and storage in agreement, and touches no other id. */
  lemma ToggleFlips(s: LikeState, id: string)
    ensures Toggle(s, id).isLiked == !s.isLiked
    ensures Agrees(Toggle(s, id), id)
    ensures forall other :: other != id ==> (other in Toggle(s, id).liked <==> other in s.liked)
    ensures forall other :: other != id ==> StoredLikes(Toggle(s, id).stored, other) == StoredLikes(s.stored, other)
  {
  }

  /** Liking adds one to the shown and the stored count; unliking takes one off each, floored at 0. */
  lemma ToggleCounts(s: LikeState, id: string)
    ensures !s.isLiked ==>
      (Toggle(s, id).likeCount == s.likeCount + 1 && StoredLikes(Toggle(s, id).stored, id) == StoredLikes(s.stored, id) + 1)
    ensures s.isLiked ==>
      (Toggle(s, id).likeCount == Decrement(s.likeCount)
       && StoredLikes(Toggle(s, id).stored, id) == Decrement(StoredLikes(s.stored, id)))
  {
  }

  /**
   * Two presses restore the liked dictionary and `isLiked` when page and
   * storage agree; the counts come back too, except that unliking from 0
   * and then liking again ends at 1.
   */
  lemma ToggleTwice(s: LikeState, id: string)
    requires Agrees(s, id)
    ensures Toggle(Toggle(s, id), id).liked == s.liked
    ensures Toggle(Toggle(s, id), id).isLiked == s.isLiked
    ensures !s.isLiked ==> Toggle(Toggle(s, id), id).likeCount == s.likeCount
    ensures s.isLiked && s.likeCount > 0 ==> Toggle(Toggle(s, id), id).likeCount == s.likeCount
    ensures StoredLikes(s.stored, id) > 0 || !s.isLiked ==>
      StoredLikes(Toggle(Toggle(s, id), id).stored, id) == StoredLikes(s.stored, id)
  {
    var t := Toggle(s, id);
    if s.isLiked {
      assert t.liked + {id} == s.liked;
    } else {
      assert t.liked - {id} == s.liked;
    }
  }

  /**
   * The initial count: `Math.floor((vote_count || 0) / 100)` plus the stored
   * counter, so it is the stored counter plus one per full hundred votes.
   */
  function InitialLikeCount(voteCount: Option<nat>, stored: map<string, nat>, id: string): (n: nat)
    ensures var votes := voteCount.GetOr(0);
      n >= StoredLikes(stored, id) && 100 * (n - StoredLikes(stored, id)) <= votes < 100 * (n - StoredLikes(stored, id) + 1)
  {
    voteCount.GetOr(0) / 100 + StoredLikes(stored, id)
  }

  /** The like button of one details page, for the id in its route. */
  class LikeButton {
    var liked: set<string>
    var stored: map<string, nat>
    var isLiked: bool
    var likeCount: nat

    function State(): LikeState
      reads this
    {
      LikeState(liked, stored, isLiked, likeCount)
    }

    /** The load effect: `isLiked` from the dictionary and the initial count. */
    constructor(id: string, voteCount: Option<nat>, liked0: set<string>, stored0: map<string, nat>)
      ensures liked == liked0 && stored == stored0
      ensures isLiked == (id in liked0)
      ensures likeCount == InitialLikeCount(voteCount, stored0, id)
    {
      liked := liked0;
      stored := stored0;
      isLiked := id in liked0;
      likeCount := InitialLikeCount(voteCount, stored0, id);
    }

    /** `handleLike()`: nothing without an id; otherwise one press. */
    method HandleLike(id: string)
      modifies this
      ensures id == "" ==> State() == old(State())
      ensures id != "" ==> State() == Toggle(old(State()), id)
    {
      if id == "" {
        return;
      }
      var newLikedState := !isLiked;
      if newLikedState {
        liked := liked + {id};
        likeCount := likeCount + 1;
        stored := stored[id := StoredLikes(stored, id) + 1];
      } else {
        liked := liked - {id};
        likeCount := if likeCount == 0 then 0 else likeCount - 1;
        var current := StoredLikes(stored, id);
        stored := stored[id := if current == 0 then 0 else current - 1];
      }
      isLiked := newLikedState;
    }
  }

  // ---------------------------------------------------------------- runtime

  /** `formatRuntime(minutes)` split into its two numbers: whole hours and the minutes left over. */
  function RuntimeParts(minutes: nat): (r: (nat, nat))
    ensures 60 * r.0 + r.1 == minutes && r.1 < 60
  {
    (minutes / 60, minutes % 60)
  }

  /** `formatRuntime(minutes)`: `"<hours>h <minutes>m"`. */
  function FormatRuntime(minutes: nat): string {
    var (h, m) := RuntimeParts(minutes);
    Decimal(h) + "h " + Decimal(m) + "m"
  }

  /** Both numbers can be read back from the text, and they give the runtime back. */
  lemma FormatRuntimeRoundTrip(minutes: nat)
    ensures var text := FormatRuntime(minutes); var (h, m) := RuntimeParts(minutes);
      && text == Decimal(h) + "h " + Decimal(m) + "m"
      && 60 * DigitsValue(Decimal(h)) + DigitsValue(Decimal(m)) == minutes
      && DigitsValue(Decimal(m)) < 60
  {
    var (h, m) := RuntimeParts(minutes);
    DecimalRoundTrip(h);
    DecimalRoundTrip(m);
  }

  // ---------------------------------------------------------------- trailer and writers

  /** An entry of `videos.results`. */
  datatype Video = Video(kind: string, site: string, key: string)

  /** An entry of `credits.crew`. */
  datatype CrewMember = CrewMember(name: string, job: string)

  predicate IsTrailer(v: Video) {
    v.kind == "Trailer" && v.site == "YouTube"
  }

  /** The trailer: the first YouTube video of type `Trailer`, if any. */
  function Trailer(videos: seq<Video>): (r: Option<Video>)
    ensures r.None? <==> forall k :: 0 <= k < |videos| ==> !IsTrailer(videos[k])
    ensures r.Some? ==> IsTrailer(r.value)
    ensures r.Some? ==>
      exists i :: (0 <= i < |videos| && videos[i] == r.value && forall j :: 0 <= j < i ==> !IsTrailer(videos[j]))
  {
    var i := Seqs.FindIndex(videos, IsTrailer);
    if i < |videos| then Some(videos[i]) else None
  }

  predicate IsWriter(p: CrewMember) {
    p.job == "Writer" || p.job == "Screenplay"
  }

  /** The writers: the crew credited as Writer or Screenplay, in credit order. */
  function Writers(crew: seq<CrewMember>): (r: seq<CrewMember>)
    ensures forall p :: p in r <==> p in crew && IsWriter(p)
    ensures forall p :: multiset(r)[p] == if IsWriter(p) then multiset(crew)[p] else 0
    ensures Seqs.SubsequenceOf(r, crew)
  {
    Seqs.FilterIsSubsequence(crew, IsWriter);
    Seqs.FilterCounts(crew, IsWriter);
    Seqs.Filter(crew, IsWriter)
  }

  // ---------------------------------------------------------------- info cards

  /** The cards of `getAvailableInfoCards`, in the order they are pushed. */
  datatype Card = DirectorCard | BoxOfficeCard | LanguageCard | WritersCard | RatingCard | BudgetCard | ProductionCard

  /** A card's place in the fixed order. */
  function Rank(c: Card): nat {
    match c
    case DirectorCard => 0
    case BoxOfficeCard => 1
    case LanguageCard => 2
    case WritersCard => 3
    case RatingCard => 4
    case BudgetCard => 5
    case ProductionCard => 6
  }

  /** What the cards depend on; a missing number is 0 and a missing list is empty. */
  datatype MovieFacts = MovieFacts(hasDirector: bool, revenue: int, writers: nat, voteCount: nat, budget: int, companies: nat)

  /** Whether a card is built: the language card always, each other card when its data is there. */
  predicate Available(m: MovieFacts, c: Card) {
    match c
    case DirectorCard => m.hasDirector
    case BoxOfficeCard => m.revenue > 0
    case LanguageCard => true
    case WritersCard => m.writers > 0
    case RatingCard => m.voteCount != 0
    case BudgetCard => m.budget > 0
    case ProductionCard => m.companies > 0
  }

  /** The cards are in strictly increasing fixed order. */
  ghost predicate InOrder(cards: seq<Card>) {
    forall i, j :: 0 <= i < j < |cards| ==> Rank(cards[i]) < Rank(cards[j])
  }

  /** `cards` lists exactly the available cards, in the fixed order. */
  ghost predicate CardsFor(m: MovieFacts, cards: seq<Card>) {
    && (forall c :: c in cards <==> Available(m, c))
    && InOrder(cards)
  }

  /** `cards` lists exactly the available cards of rank below `k`, in the fixed order. */
  ghost predicate CardsBelow(m: MovieFacts, cards: seq<Card>, k: nat) {
    && (forall c :: c in cards <==> Available(m, c) && Rank(c) < k)
    && InOrder(cards)
  }

  /** One `cards.push(c)` made exactly when `c` is available extends the list by one rank. */
  lemma PushStep(m: MovieFacts, cards: seq<Card>, c: Card)
    ensures CardsBelow(m, cards, Rank(c)) ==> CardsBelow(m, if Available(m, c) then cards + [c] else cards, Rank(c) + 1)
  {
    if CardsBelow(m, cards, Rank(c)) {
      var next := if Available(m, c) then cards + [c] else cards;
      forall x ensures x in next <==> Available(m, x) && Rank(x) < Rank(c) + 1 {
        if Rank(x) == Rank(c) {
          assert x == c;
        }
      }
    }
  }

  /** Past the last rank, the list holds every available card. */
  lemma AllRanks(m: MovieFacts, cards: seq<Card>)
    ensures CardsBelow(m, cards, 7) ==> CardsFor(m, cards)
  {
  }

  /** `getAvailableInfoCards()`: the cards pushed in order, each when its data is there. */
  method AvailableInfoCards(m: MovieFacts) returns (cards: seq<Card>)
    ensures CardsFor(m, cards)
  {
    cards := [];
    assert CardsBelow(m, cards, 0);
    PushStep(m, cards, DirectorCard);
    if m.hasDirector {
      cards := cards + [DirectorCard];
    }
    assert CardsBelow(m, cards, 1);
    PushStep(m, cards, BoxOfficeCard);
    if m.revenue > 0 {
      cards := cards + [BoxOfficeCard];
    }
    assert CardsBelow(m, cards, 2);
    PushStep(m, cards, LanguageCard);
    cards := cards + [LanguageCard];
    assert CardsBelow(m, cards, 3);
    PushStep(m, cards, WritersCard);
    if m.writers > 0 {
      cards := cards + [WritersCard];
    }
    assert CardsBelow(m, cards, 4);
    PushStep(m, cards, RatingCard);
    if m.voteCount != 0 {
      cards := cards + [RatingCard];
    }
    assert CardsBelow(m, cards, 5);
    PushStep(m, cards, BudgetCard);
    if m.budget > 0 {
      cards := cards + [BudgetCard];
    }
    assert CardsBelow(m, cards, 6);
    PushStep(m, cards, ProductionCard);
    if m.companies > 0 {
      cards := cards + [ProductionCard];
    }
    assert CardsBelow(m, cards, 7);
    AllRanks(m, cards);
  }

  /** `availableCards.slice(0, 4)`: the cards the grid shows. */
  function ShownCards(cards: seq<Card>): (r: seq<Card>)
    ensures |r| <= 4 && |r| <= |cards| && r == cards[..|r|]
    ensures |cards| <= 4 ==> r == cards
  {
    if |cards| <= 4 then cards else cards[..4]
  }

  /** In a strictly ordered list, a card's position is at most its rank. */
  lemma {:induction false} PositionAtMostRank(cards: seq<Card>, i: nat)
    requires InOrder(cards) && i < |cards|
    ensures i <= Rank(cards[i])
  {
    if i > 0 {
      PositionAtMostRank(cards, i - 1);
    }
  }

  /** The language card is always built and always among the four shown. */
  lemma LanguageAlwaysShown(m: MovieFacts, cards: seq<Card>)
    requires CardsFor(m, cards)
    ensures LanguageCard in ShownCards(cards)
  {
    assert LanguageCard in cards;
    var i :| 0 <= i < |cards| && cards[i] == LanguageCard;
    PositionAtMostRank(cards, i);
    assert ShownCards(cards)[i] == LanguageCard;
  }

  // ---------------------------------------------------------------- previews

  /**
   * A list shown as its first `k` items and, when longer, a `+n more` note
   * (three writers, two companies, three creators).
   */
  function Preview<T>(s: seq<T>, k: nat): (r: (seq<T>, Option<nat>))
    ensures |r.0| == if |s| < k then |s| else k
    ensures r.0 == s[..|r.0|]
    ensures r.1.Some? <==> |s| > k
    ensures r.1.Some? ==> |r.0| + r.1.value == |s|
  {
    if |s| > k then (s[..k], Some(|s| - k)) else (s, None)
  }

  /** The TV page's season badge: the count, then "Season" for exactly one and "Seasons" otherwise. */
  function SeasonLabel(seasons: nat): (r: string)
    ensures |r| > |Decimal(seasons)| + 1 && r[..|Decimal(seasons)|] == Decimal(seasons)
    ensures r[|Decimal(seasons)|..] == (if seasons == 1 then " Season" else " Seasons")
    ensures r[|r| - 1] == 's' <==> seasons != 1
  {
    Decimal(seasons) + " " + (if seasons == 1 then "Season" else "Seasons")
  }
}
