/** The home page's hero banner: its title, its link and its shortened overview. */
module Hero {
  import opened Wrappers
  import opened Text

  /** The fields of the featured item that the banner reads. */
  datatype HeroItem = HeroItem(id: nat, title: Option<string>, name: Option<string>, overview: string, mediaType: Option<string>)

  /** A value that `||` keeps: set and non-empty. */
  predicate IsSet(v: Option<string>) {
    v.Some? && Truthy(v.value)
  }

  /** `item.title || item.name || ''`: the first of title and name that is set and non-empty. */
  function Title(item: HeroItem): (r: string)
    ensures IsSet(item.title) ==> r == item.title.value
    ensures !IsSet(item.title) && IsSet(item.name) ==> r == item.name.value
    ensures r == "" <==> !IsSet(item.title) && !IsSet(item.name)
  {
    if IsSet(item.title) then item.title.value
    else if IsSet(item.name) then item.name.value
    else ""
  }

  /** `item.media_type || type`, where the prop `type` defaults to `'movie'` when not passed. */
  function MediaType(item: HeroItem, kind: Option<string>): (r: string)
    ensures IsSet(item.mediaType) ==> r == item.mediaType.value
    ensures !IsSet(item.mediaType) && kind.Some? ==> r == kind.value
    ensures !IsSet(item.mediaType) && kind.None? ==> r == "movie"
  {
    if IsSet(item.mediaType) then item.mediaType.value else kind.GetOr("movie")
  }

  /** `/${mediaType}/${item.id}`, the target of both buttons. */
  function DetailsPath(item: HeroItem, kind: Option<string>): string {
    "/" + MediaType(item, kind) + "/" + Decimal(item.id)
  }

  /** The path reads back as its media type and its id. */
  lemma DetailsPathRoundTrip(item: HeroItem, kind: Option<string>)
    ensures var path := DetailsPath(item, kind); var t := MediaType(item, kind);
      && |path| > |t| + 2 && path[0] == '/' && path[1..|t| + 1] == t && path[|t| + 1] == '/'
      && (forall k :: |t| + 2 <= k < |path| ==> '0' <= path[k] <= '9')
      && DigitsValue(path[|t| + 2..]) == item.id
  {
    var path := DetailsPath(item, kind);
    var t := MediaType(item, kind);
    assert path[|t| + 2..] == Decimal(item.id);
    DecimalRoundTrip(item.id);
  }

  /** How many characters of the overview the banner keeps before the ellipsis. */
  const OverviewLimit: nat := 200

  /** The overview shortened to 200 characters plus `...` when longer than 200, otherwise unchanged. */
  function TruncatedOverview(overview: string): (r: string)
    ensures |overview| <= OverviewLimit ==> r == overview
    ensures |overview| > OverviewLimit ==>
      |r| == OverviewLimit + 3 && r[..OverviewLimit] == overview[..OverviewLimit] && r[OverviewLimit..] == "..."
    ensures |r| <= OverviewLimit + 3
  {
    if |overview| > OverviewLimit then overview[..OverviewLimit] + "..." else overview
  }

  /** Shortening an already shortened overview changes nothing. */
  lemma TruncatedOverviewIdempotent(overview: string)
    ensures TruncatedOverview(TruncatedOverview(overview)) == TruncatedOverview(overview)
  {
    var r := TruncatedOverview(overview);
    if |overview| > OverviewLimit {
      assert r[..OverviewLimit] + "..." == r;
    }
  }
}
