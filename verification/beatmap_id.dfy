/** `extract_beatmap_id`: turning one line of the link list into a beatmap
    id. A bare number is taken as it is; otherwise the line is parsed as a
    URL and the id is read either from a `/beatmaps/{id}` or `/b/{id}` path
    or from a `#mode/id` fragment. */
module BeatmapId {
  import opened Results
  import opened Text
  import opened Decimal

  /** The parts of a parsed URL the extraction looks at. `pathSegments` is
      `url.path_segments()`: `None` for a URL that cannot be a base
      (`mailto:...`), otherwise the `/`-separated pieces of the path after
      its leading `/`. `fragment` is the text after `#`, if any. */
  datatype Url = Url(pathSegments: Option<seq<string>>, fragment: Option<string>)

  /** `Url::parse(s).ok()`; URL parsing itself is not modelled. */
  type UrlParser = string -> Option<Url>

  /** The path begins with `beatmaps` or `b` and has a second segment. */
  predicate PathRuleApplies(url: Url) {
    && url.pathSegments.Some?
    && |url.pathSegments.value| >= 2
    && (url.pathSegments.value[0] == "beatmaps" || url.pathSegments.value[0] == "b")
  }

  /** The beatmap id carried by a parsed URL. The path rule wins whenever
      it applies, even if its id is not a number; only then is the fragment
      consulted, and only when it splits on `/` into exactly two parts. */
  function IdFromUrl(url: Url): (r: Option<U32>)
    ensures r.Some? ==> PathRuleApplies(url) || (url.fragment.Some? && multiset(url.fragment.value)['/'] == 1)
  {
    if PathRuleApplies(url) then ParseU32(url.pathSegments.value[1])
    else if url.fragment.Some? && |Split(url.fragment.value, '/')| == 2 then
      SplitCount(url.fragment.value, '/');
      ParseU32(Split(url.fragment.value, '/')[1])
    else None
  }

  /** `extract_beatmap_id(url_str)`. */
  function ExtractBeatmapId(s: string, parseUrl: UrlParser): (r: Option<U32>)
    ensures IsU32Text(s) ==> r == Some(DigitsValue(Unsigned(s)))
    ensures !IsU32Text(s) && parseUrl(s).None? ==> r == None
  {
    match ParseU32(s)
    case Some(id) => Some(id)
    case None =>
      match parseUrl(s)
      case None => None
      case Some(url) => IdFromUrl(url)
  }

  /** A bare formatted number is its own id, whatever the URL parser would
      have made of it. */
  lemma ExtractBareNumber(n: U32, parseUrl: UrlParser)
    ensures ExtractBeatmapId(ToDecimal(n), parseUrl) == Some(n)
  {
    ParseToDecimal(n);
  }

  /** A line that is not a number is judged by its URL alone. */
  lemma ExtractFromUrl(s: string, parseUrl: UrlParser, url: Url)
    requires !IsU32Text(s) && parseUrl(s) == Some(url)
    ensures ExtractBeatmapId(s, parseUrl) == IdFromUrl(url)
  {
  }

  /** When the path rule applies its verdict is final: the fragment is never
      looked at, so a URL with any other fragment (or none) gives the same
      answer, a failed parse of the path id included. */
  lemma PathRuleIgnoresFragment(url: Url, otherFragment: Option<string>)
    requires PathRuleApplies(url)
    ensures IdFromUrl(url) == ParseU32(url.pathSegments.value[1])
    ensures IdFromUrl(url.(fragment := otherFragment)) == IdFromUrl(url)
  {
  }

  /** `https://host/beatmaps/{id}` and `https://host/b/{id}`, with any
      further segments and any fragment, yield `id`. */
  lemma PathRuleReadsId(first: string, n: U32, more: seq<string>, fragment: Option<string>)
    requires first == "beatmaps" || first == "b"
    ensures IdFromUrl(Url(Some([first, ToDecimal(n)] + more), fragment)) == Some(n)
  {
    ParseToDecimal(n);
  }

  /** The fragment splits into exactly two parts precisely when it holds
      exactly one `/`. */
  lemma FragmentHasTwoParts(fragment: string)
    ensures |Split(fragment, '/')| == 2 <==> multiset(fragment)['/'] == 1
  {
    SplitCount(fragment, '/');
  }

  /** Outside the path rule, a fragment `mode/id` yields the parse of `id`
      whatever the mode is. */
  lemma FragmentRuleReadsId(url: Url, mode: string, id: string)
    requires !PathRuleApplies(url)
    requires '/' !in mode && '/' !in id
    requires url.fragment == Some(mode + "/" + id)
    ensures IdFromUrl(url) == ParseU32(id)
  {
    assert Join([mode, id], '/') == mode + "/" + id;
    SplitJoin([mode, id], '/');
  }

  /** Outside the path rule, no fragment or a fragment with other than
      exactly one `/` yields no id. */
  lemma FragmentRuleRejects(url: Url)
    requires !PathRuleApplies(url)
    requires url.fragment.None? || multiset(url.fragment.value)['/'] != 1
    ensures IdFromUrl(url) == None
  {
    if url.fragment.Some? {
      FragmentHasTwoParts(url.fragment.value);
    }
  }

  /** A beatmapset page `https://host/beatmapsets/{mapset}#{mode}/{id}` yields
      the beatmap `id`, never the set number. */
  lemma BeatmapsetPageReadsFragment(mapset: U32, mode: string, n: U32)
    requires '/' !in mode
    ensures IdFromUrl(Url(Some(["beatmapsets", ToDecimal(mapset)]), Some(mode + "/" + ToDecimal(n)))) == Some(n)
  {
    var url := Url(Some(["beatmapsets", ToDecimal(mapset)]), Some(mode + "/" + ToDecimal(n)));
    assert url.pathSegments.value[0] != "beatmaps" && url.pathSegments.value[0] != "b";
    assert '/' !in ToDecimal(n);
    FragmentRuleReadsId(url, mode, ToDecimal(n));
    ParseToDecimal(n);
  }
}
