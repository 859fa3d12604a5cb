/** `fetch_beatmaps`: read the link list, look every link up, write one
    cache line per beatmap found and sort the links into fetched results
    and failures. The lookup service, the pacing between requests and the
    file handles are parameters or left out. */
module Fetch {
  import opened Results
  import opened Seqs
  import opened Text
  import opened Decimal
  import opened BeatmapId

  /** What the tool keeps of a fetched beatmap. */
  datatype BeatmapInfo = BeatmapInfo(checksum: string, mapsetId: U32)

  /** The answer of the lookup service for one beatmap id: the beatmap
      (whose checksum may be missing) or an error with its message. */
  datatype Lookup = Found(checksum: Option<string>, mapsetId: U32) | LookupFailed(message: string)

  /** `osu.beatmap().map_id(id)`. */
  type Lookups = U32 -> Lookup

  /** A link that yielded no beatmap, with the reason reported for it. */
  datatype FailedUrl = FailedUrl(url: string, reason: string)

  /** What happened to one link. */
  datatype UrlOutcome = Saved(info: BeatmapInfo) | Rejected(failure: FailedUrl)

  const INVALID_URL: string := "Invalid URL format"
  const MISSING_CHECKSUM: string := "Missing checksum"

  // ----- the link list -----

  /** One line of the link list as a link: trimmed, and only if it is
      neither blank nor a `#` comment. */
  function LinkOf(line: string): (link: Option<string>)
    ensures link.Some? ==> link.value == Trim(line)
    ensures link.Some? ==> link.value != [] && link.value[0] != '#' && IsTrimmed(link.value)
    ensures link.None? <==> (Trim(line) == [] || Trim(line)[0] == '#')
  {
    var t := Trim(line);
    if t != [] && t[0] != '#' then Some(t) else None
  }

  /** The link-list filter: the trimmed lines, in order, without blank
      lines and `#` comments. */
  function FilterLinks(lines: seq<string>): (urls: seq<string>)
    ensures |urls| <= |lines|
    ensures forall k :: 0 <= k < |urls| ==> urls[k] != [] && urls[k][0] != '#' && IsTrimmed(urls[k])
  {
    FilterLinksWellFormed(lines);
    FilterMap(lines, LinkOf)
  }

  /** The filter keeps exactly the lines whose trimmed text is neither empty
      nor starts with `#`, as their trimmed text, in their original order. */
  lemma {:induction false} FilterLinksSelects(lines: seq<string>)
    ensures |KeptIndices(lines, LinkOf)| == |FilterLinks(lines)|
    ensures forall k :: 0 <= k < |FilterLinks(lines)| ==>
              KeptIndices(lines, LinkOf)[k] < |lines| &&
              FilterLinks(lines)[k] == Trim(lines[KeptIndices(lines, LinkOf)[k]])
    ensures forall k, l :: 0 <= k < l < |KeptIndices(lines, LinkOf)| ==>
              KeptIndices(lines, LinkOf)[k] < KeptIndices(lines, LinkOf)[l]
    ensures forall i :: 0 <= i < |lines| ==>
              (i in KeptIndices(lines, LinkOf) <==> Trim(lines[i]) != [] && Trim(lines[i])[0] != '#')
  {
    FilterMapSelects(lines, LinkOf);
  }

  /** Every kept link is non-empty, trimmed and not a comment. */
  lemma {:induction false} FilterLinksWellFormed(lines: seq<string>)
    ensures forall k :: 0 <= k < |FilterMap(lines, LinkOf)| ==>
              var link := FilterMap(lines, LinkOf)[k]; link != [] && link[0] != '#' && IsTrimmed(link)
  {
    FilterMapSelects(lines, LinkOf);
    forall k | 0 <= k < |FilterMap(lines, LinkOf)|
      ensures var link := FilterMap(lines, LinkOf)[k]; link != [] && link[0] != '#' && IsTrimmed(link)
    {
      var i := KeptIndices(lines, LinkOf)[k];
      assert LinkOf(lines[i]) == Some(FilterMap(lines, LinkOf)[k]);
    }
  }

  // ----- one link -----

  /** The fate of one link: no id means an invalid URL; a lookup error or
      a beatmap without checksum is a failure; otherwise the beatmap is saved. */
  function Classify(url: string, parseUrl: UrlParser, lookup: Lookups): UrlOutcome
  {
    match ExtractBeatmapId(url, parseUrl)
    case None => Rejected(FailedUrl(url, INVALID_URL))
    case Some(id) =>
      match lookup(id)
      case Found(Some(checksum), mapsetId) => Saved(BeatmapInfo(checksum, mapsetId))
      case Found(None, _) => Rejected(FailedUrl(url, MISSING_CHECKSUM))
      case LookupFailed(message) => Rejected(FailedUrl(url, message))
  }

  /** The lookup service answered the id of `url` with the checksum and
      mapset id of `info`. */
  predicate FoundBy(url: string, parseUrl: UrlParser, lookup: Lookups, info: BeatmapInfo) {
    && ExtractBeatmapId(url, parseUrl).Some?
    && lookup(ExtractBeatmapId(url, parseUrl).value) == Found(Some(info.checksum), info.mapsetId)
  }

  /** A link is saved exactly when it has an id whose lookup returned a
      beatmap with a checksum, and what is saved is that checksum and mapset
      id. A link without an id is an invalid URL, a beatmap without checksum
      is reported as missing it, a lookup error is reported with its own
      message, and a failure always names its own link. */
  lemma ClassifyOutcome(url: string, parseUrl: UrlParser, lookup: Lookups)
    ensures var o := Classify(url, parseUrl, lookup);
      && (o.Rejected? ==> o.failure.url == url)
      && (ExtractBeatmapId(url, parseUrl).None? ==> o == Rejected(FailedUrl(url, INVALID_URL)))
      && (o.Saved? <==>
            ExtractBeatmapId(url, parseUrl).Some? && lookup(ExtractBeatmapId(url, parseUrl).value).Found? &&
            lookup(ExtractBeatmapId(url, parseUrl).value).checksum.Some?)
      && (o.Saved? ==> FoundBy(url, parseUrl, lookup, o.info))
      && ((ExtractBeatmapId(url, parseUrl).Some? && lookup(ExtractBeatmapId(url, parseUrl).value).Found? &&
           lookup(ExtractBeatmapId(url, parseUrl).value).checksum.None?) ==>
            o == Rejected(FailedUrl(url, MISSING_CHECKSUM)))
      && ((ExtractBeatmapId(url, parseUrl).Some? && lookup(ExtractBeatmapId(url, parseUrl).value).LookupFailed?) ==>
            o == Rejected(FailedUrl(url, lookup(ExtractBeatmapId(url, parseUrl).value).message)))
  {
  }

  /** The beatmaps saved for `urls`, in link order. */
  function SavedInfos(urls: seq<string>, parseUrl: UrlParser, lookup: Lookups): seq<BeatmapInfo>
    decreases |urls|
  {
    if urls == [] then []
    else
      var last := urls[|urls| - 1];
      SavedInfos(urls[..|urls| - 1], parseUrl, lookup)
        + (if Classify(last, parseUrl, lookup).Saved? then [Classify(last, parseUrl, lookup).info] else [])
  }

  /** The failed links for `urls` with their reasons, in link order. */
  function FailedUrls(urls: seq<string>, parseUrl: UrlParser, lookup: Lookups): seq<FailedUrl>
    decreases |urls|
  {
    if urls == [] then []
    else
      var last := urls[|urls| - 1];
      FailedUrls(urls[..|urls| - 1], parseUrl, lookup)
        + (if Classify(last, parseUrl, lookup).Rejected? then [Classify(last, parseUrl, lookup).failure] else [])
  }

  /** Every saved beatmap is the lookup service's answer for one of the links. */
  lemma {:induction false} SavedFromLookup(urls: seq<string>, parseUrl: UrlParser, lookup: Lookups)
    ensures forall k :: 0 <= k < |SavedInfos(urls, parseUrl, lookup)| ==>
              exists i :: 0 <= i < |urls| && FoundBy(urls[i], parseUrl, lookup, SavedInfos(urls, parseUrl, lookup)[k])
    decreases |urls|
  {
    if urls != [] {
      var n := |urls| - 1;
      var front := SavedInfos(urls[..n], parseUrl, lookup);
      var saved := SavedInfos(urls, parseUrl, lookup);
      SavedFromLookup(urls[..n], parseUrl, lookup);
      ClassifyOutcome(urls[n], parseUrl, lookup);
      forall k | 0 <= k < |saved|
        ensures exists i :: 0 <= i < |urls| && FoundBy(urls[i], parseUrl, lookup, saved[k])
      {
        if k < |front| {
          var i :| 0 <= i < n && FoundBy(urls[..n][i], parseUrl, lookup, front[k]);
          assert urls[..n][i] == urls[i];
          assert saved[k] == front[k];
        } else {
          assert saved[k] == Classify(urls[n], parseUrl, lookup).info;
          assert FoundBy(urls[n], parseUrl, lookup, saved[k]);
        }
      }
    } else {
      assert SavedInfos(urls, parseUrl, lookup) == [];
    }
  }

  /** Every link lands in exactly one of the two lists. */
  lemma {:induction false} EveryUrlAccountedFor(urls: seq<string>, parseUrl: UrlParser, lookup: Lookups)
    ensures |SavedInfos(urls, parseUrl, lookup)| + |FailedUrls(urls, parseUrl, lookup)| == |urls|
    decreases |urls|
  {
    if urls != [] {
      EveryUrlAccountedFor(urls[..|urls| - 1], parseUrl, lookup);
    }
  }

  /** The saved list is built link by link: processing more links only appends. */
  lemma {:induction false} SavedAppend(urls: seq<string>, more: seq<string>, parseUrl: UrlParser, lookup: Lookups)
    ensures SavedInfos(urls + more, parseUrl, lookup) == SavedInfos(urls, parseUrl, lookup) + SavedInfos(more, parseUrl, lookup)
    decreases |more|
  {
    if more == [] {
      assert urls + more == urls;
    } else {
      var n := |more| - 1;
      assert (urls + more)[..|urls + more| - 1] == urls + more[..n];
      assert (urls + more)[|urls + more| - 1] == more[n];
      SavedAppend(urls, more[..n], parseUrl, lookup);
    }
  }

  /** The failure list is built link by link too. */
  lemma {:induction false} FailedAppend(urls: seq<string>, more: seq<string>, parseUrl: UrlParser, lookup: Lookups)
    ensures FailedUrls(urls + more, parseUrl, lookup) == FailedUrls(urls, parseUrl, lookup) + FailedUrls(more, parseUrl, lookup)
    decreases |more|
  {
    if more == [] {
      assert urls + more == urls;
    } else {
      var n := |more| - 1;
      assert (urls + more)[..|urls + more| - 1] == urls + more[..n];
      assert (urls + more)[|urls + more| - 1] == more[n];
      FailedAppend(urls, more[..n], parseUrl, lookup);
    }
  }

  // ----- the cache file -----

  /** A cache line without its newline, `checksum|mapset_id`: the checksum,
      a `|`, then the decimal digits of the mapset id. */
  function CacheRecord(info: BeatmapInfo): (record: string)
    ensures |record| > |info.checksum| + 1
    ensures record[..|info.checksum|] == info.checksum && record[|info.checksum|] == '|'
    ensures var digits := record[|info.checksum| + 1..];
      AllDigits(digits) && DigitsValue(digits) == info.mapsetId && (digits[0] == '0' ==> digits == "0")
  {
    var digits := ToDecimal(info.mapsetId);
    var record := info.checksum + "|" + digits;
    assert record[|info.checksum| + 1..] == digits;
    record
  }

  /** `format!("{}|{}\n", checksum, mapset_id)`. */
  function CacheLine(info: BeatmapInfo): string
  {
    CacheRecord(info) + "\n"
  }

  /** What reaches the file of `line` when `write_all` fails after
      `written` characters were accepted: a proper prefix, because
      `write_all` only reports an error while part of its buffer is unwritten. */
  function CutOff(line: string, written: nat): (part: string)
    requires line != []
    ensures |part| < |line| && part == line[..|part|]
    ensures written < |line| ==> |part| == written
  {
    if written < |line| then line[..written] else line[..|line| - 1]
  }

  /** The cache file after writing one line per result, in order. */
  function CacheText(infos: seq<BeatmapInfo>): string
    decreases |infos|
  {
    if infos == [] then [] else CacheText(infos[..|infos| - 1]) + CacheLine(infos[|infos| - 1])
  }

  /** Writing one more line appends it to the cache. */
  lemma CacheTextAppend(infos: seq<BeatmapInfo>, info: BeatmapInfo)
    ensures CacheText(infos + [info]) == CacheText(infos) + CacheLine(info)
  {
    assert (infos + [info])[..|infos|] == infos;
  }

  /** A record is read back by `lines()` as written: it holds no newline
      when its checksum holds none, and it ends in a digit, not a carriage
      return. */
  lemma RecordIsOneLine(info: BeatmapInfo)
    requires '\n' !in info.checksum
    ensures '\n' !in CacheRecord(info) && !EndsWithCr(CacheRecord(info))
  {
    var record := CacheRecord(info);
    var digits := record[|info.checksum| + 1..];
    assert record == record[..|info.checksum|] + [record[|info.checksum|]] + digits;
    assert '\n' !in digits;
    assert record[|record| - 1] == digits[|digits| - 1];
    assert IsDigit(digits[|digits| - 1]);
  }

  /** The records of the cache lines for `infos`, in order. */
  function CacheRecords(infos: seq<BeatmapInfo>): (records: seq<string>)
    ensures |records| == |infos|
    ensures forall k :: 0 <= k < |infos| ==> records[k] == CacheRecord(infos[k])
  {
    seq(|infos|, k requires 0 <= k < |infos| => CacheRecord(infos[k]))
  }

  /** One more beatmap adds its record at the end. */
  lemma CacheRecordsSnoc(infos: seq<BeatmapInfo>)
    requires infos != []
    ensures CacheRecords(infos) == CacheRecords(infos[..|infos| - 1]) + [CacheRecord(infos[|infos| - 1])]
  {
  }

  /** The cache file is the records, each terminated by a newline. */
  lemma {:induction false} CacheTextIsTerminated(infos: seq<BeatmapInfo>)
    ensures CacheText(infos) == Terminated(CacheRecords(infos))
    decreases |infos|
  {
    if infos != [] {
      var n := |infos| - 1;
      var front := CacheRecords(infos[..n]);
      var record := CacheRecord(infos[n]);
      CacheTextIsTerminated(infos[..n]);
      CacheRecordsSnoc(infos);
      TerminatedAppend(front, record);
      assert CacheText(infos) == Terminated(front) + (record + "\n");
      assert Terminated(front) + record + "\n" == Terminated(front) + (record + "\n");
    }
  }

  /** The start of a cache line cut off by a failed write holds no newline. */
  lemma CutOffHasNoNewline(info: BeatmapInfo, written: nat)
    requires '\n' !in info.checksum
    ensures '\n' !in CutOff(CacheLine(info), written)
  {
    var record := CacheRecord(info);
    var cut := CutOff(CacheLine(info), written);
    assert cut == record[..|cut|];
    RecordIsOneLine(info);
  }

  // ----- the whole fetch -----

  /** The first of the `n` cache-line writes that fails, or `n` if none does. */
  function FirstFailedWrite(n: nat, writeOk: nat -> bool): (k: nat)
    ensures k <= n
    ensures forall j :: 0 <= j < k ==> writeOk(j)
    ensures k < n ==> !writeOk(k)
    decreases n
  {
    if n == 0 then 0
    else if FirstFailedWrite(n - 1, writeOk) < n - 1 then FirstFailedWrite(n - 1, writeOk)
    else if writeOk(n - 1) then n
    else n - 1
  }

  /** The end of a fetch: the results, the failures and the cache text; or
      a failed cache write (`write_all` returned an error), after which the
      cache holds the lines written before it and whatever start of the
      failed line reached the file. */
  datatype FetchOutcome =
    | Fetched(results: seq<BeatmapInfo>, failed: seq<FailedUrl>, cache: string)
    | CacheWriteFailed(partialCache: string)

  /** What a fetch over `urls` produces, stated without the loop: the
      `k`-th saved beatmap's line is the `k`-th write, and the first write
      that fails ends the fetch, having put `written(k)` characters of its
      line (but never all of it) into the file. */
  function FetchResult(urls: seq<string>, parseUrl: UrlParser, lookup: Lookups,
                       writeOk: nat -> bool, written: nat -> nat): FetchOutcome
  {
    var saved := SavedInfos(urls, parseUrl, lookup);
    var k := FirstFailedWrite(|saved|, writeOk);
    if k < |saved| then CacheWriteFailed(CacheText(saved[..k]) + CutOff(CacheLine(saved[k]), written(k)))
    else Fetched(saved, FailedUrls(urls, parseUrl, lookup), CacheText(saved))
  }

  /** A failing write for any saved beatmap ends the fetch in failure:
      `write_all`'s error is passed straight up by `?`. */
  lemma FetchFailsOnWrite(urls: seq<string>, parseUrl: UrlParser, lookup: Lookups,
                          writeOk: nat -> bool, written: nat -> nat, k: nat)
    requires k < |SavedInfos(urls, parseUrl, lookup)|
    requires !writeOk(k)
    ensures FetchResult(urls, parseUrl, lookup, writeOk, written).CacheWriteFailed?
  {
    assert FirstFailedWrite(|SavedInfos(urls, parseUrl, lookup)|, writeOk) <= k;
  }

  /** The loop of `fetch_beatmaps`, over the already filtered links.
      `writeOk(k)` says whether writing the `k`-th cache line succeeds and,
      if it fails, `written(k)` how many of its characters were accepted. */
  method FetchBeatmaps(urls: seq<string>, parseUrl: UrlParser, lookup: Lookups,
                       writeOk: nat -> bool, written: nat -> nat)
    returns (outcome: FetchOutcome)
    ensures outcome == FetchResult(urls, parseUrl, lookup, writeOk, written)
    ensures outcome.Fetched? ==> |outcome.results| + |outcome.failed| == |urls|
    ensures outcome.Fetched? ==> outcome.cache == CacheText(outcome.results)
  {
    var results: seq<BeatmapInfo> := [];
    var failed: seq<FailedUrl> := [];
    var cache: string := [];
    var i := 0;
    while i < |urls|
      invariant 0 <= i <= |urls|
      invariant results == SavedInfos(urls[..i], parseUrl, lookup)
      invariant failed == FailedUrls(urls[..i], parseUrl, lookup)
      invariant cache == CacheText(results)
      invariant FirstFailedWrite(|results|, writeOk) == |results|
    {
      var outcome := Classify(urls[i], parseUrl, lookup);
      ProcessOne(urls, i, parseUrl, lookup);
      match outcome {
        case Saved(info) =>
          if !writeOk(|results|) {
            WriteFailureEndsFetch(urls, i, results, parseUrl, lookup, writeOk, written);
            return CacheWriteFailed(cache + CutOff(CacheLine(info), written(|results|)));
          }
          FirstFailedWriteNextOk(|results|, writeOk);
          CacheTextAppend(results, info);
          cache := cache + CacheLine(info);
          results := results + [info];
        case Rejected(failure) =>
          failed := failed + [failure];
      }
      i := i + 1;
    }
    assert urls[..i] == urls;
    EveryUrlAccountedFor(urls, parseUrl, lookup);
    assert FetchResult(urls, parseUrl, lookup, writeOk, written) == Fetched(results, failed, cache);
    return Fetched(results, failed, cache);
  }

  /** Processing link `i` extends exactly one of the two lists by its outcome. */
  lemma ProcessOne(urls: seq<string>, i: nat, parseUrl: UrlParser, lookup: Lookups)
    requires i < |urls|
    ensures var o := Classify(urls[i], parseUrl, lookup);
      && SavedInfos(urls[..i + 1], parseUrl, lookup) == SavedInfos(urls[..i], parseUrl, lookup) + (if o.Saved? then [o.info] else [])
      && FailedUrls(urls[..i + 1], parseUrl, lookup) == FailedUrls(urls[..i], parseUrl, lookup) + (if o.Rejected? then [o.failure] else [])
  {
    assert urls[..i + 1][..i] == urls[..i];
    assert urls[..i + 1][i] == urls[i];
  }

  /** The beatmaps saved for the first `j` links open the list saved for all of them. */
  lemma SavedPrefix(urls: seq<string>, j: nat, parseUrl: UrlParser, lookup: Lookups)
    requires j <= |urls|
    ensures |SavedInfos(urls[..j], parseUrl, lookup)| <= |SavedInfos(urls, parseUrl, lookup)|
    ensures SavedInfos(urls, parseUrl, lookup)[..|SavedInfos(urls[..j], parseUrl, lookup)|] == SavedInfos(urls[..j], parseUrl, lookup)
  {
    var before := SavedInfos(urls[..j], parseUrl, lookup);
    var after := SavedInfos(urls[j..], parseUrl, lookup);
    SavedAppend(urls[..j], urls[j..], parseUrl, lookup);
    assert urls[..j] + urls[j..] == urls;
    PrefixOfConcat(before, after);
  }

  /** A sequence is the prefix of itself followed by anything. */
  lemma PrefixOfConcat<T>(a: seq<T>, b: seq<T>)
    ensures |a| <= |a + b| && (a + b)[..|a|] == a
  {
  }

  /** A failing write for link `i`, after every earlier write succeeded,
      ends the fetch with the cache written so far followed by the part of
      link `i`'s line that reached the file. */
  lemma WriteFailureEndsFetch(urls: seq<string>, i: nat, results: seq<BeatmapInfo>,
                              parseUrl: UrlParser, lookup: Lookups, writeOk: nat -> bool, written: nat -> nat)
    requires i < |urls|
    requires results == SavedInfos(urls[..i], parseUrl, lookup)
    requires FirstFailedWrite(|results|, writeOk) == |results|
    requires Classify(urls[i], parseUrl, lookup).Saved?
    requires !writeOk(|results|)
    ensures FetchResult(urls, parseUrl, lookup, writeOk, written) ==
            CacheWriteFailed(CacheText(results) + CutOff(CacheLine(Classify(urls[i], parseUrl, lookup).info), written(|results|)))
  {
    var saved := SavedInfos(urls, parseUrl, lookup);
    var k := |results|;
    SavedBeforeLink(urls, i, parseUrl, lookup);
    FirstFailedWriteNext(k, writeOk);
    FirstFailedWriteStable(k, k + 1, |saved|, writeOk);
    assert saved[..k] == results;
  }

  /** The beatmaps saved before a link that is itself saved are a proper
      prefix of all saved beatmaps. */
  lemma SavedBeforeLink(urls: seq<string>, i: nat, parseUrl: UrlParser, lookup: Lookups)
    requires i < |urls|
    requires Classify(urls[i], parseUrl, lookup).Saved?
    ensures |SavedInfos(urls[..i], parseUrl, lookup)| < |SavedInfos(urls, parseUrl, lookup)|
    ensures SavedInfos(urls, parseUrl, lookup)[..|SavedInfos(urls[..i], parseUrl, lookup)|] == SavedInfos(urls[..i], parseUrl, lookup)
    ensures SavedInfos(urls, parseUrl, lookup)[|SavedInfos(urls[..i], parseUrl, lookup)|] == Classify(urls[i], parseUrl, lookup).info
  {
    var before := SavedInfos(urls[..i], parseUrl, lookup);
    var done := SavedInfos(urls[..i + 1], parseUrl, lookup);
    var saved := SavedInfos(urls, parseUrl, lookup);
    ProcessOne(urls, i, parseUrl, lookup);
    assert done[..|before|] == before;
    assert done[|before|] == Classify(urls[i], parseUrl, lookup).info;
    SavedPrefix(urls, i + 1, parseUrl, lookup);
    assert saved[|before|] == saved[..|done|][|before|];
  }

  /** A failing write right after a run of successful ones is the first failure. */
  lemma FirstFailedWriteNext(k: nat, writeOk: nat -> bool)
    requires FirstFailedWrite(k, writeOk) == k
    requires !writeOk(k)
    ensures FirstFailedWrite(k + 1, writeOk) == k
  {
  }

  /** A successful write right after a run of successful ones extends the run. */
  lemma FirstFailedWriteNextOk(k: nat, writeOk: nat -> bool)
    requires FirstFailedWrite(k, writeOk) == k
    requires writeOk(k)
    ensures FirstFailedWrite(k + 1, writeOk) == k + 1
  {
  }

  /** Once a write has failed, later writes do not move the first failure. */
  lemma {:induction false} FirstFailedWriteStable(k: nat, m: nat, n: nat, writeOk: nat -> bool)
    requires k < m <= n
    requires FirstFailedWrite(m, writeOk) == k
    ensures FirstFailedWrite(n, writeOk) == k
    decreases n
  {
    if n > m {
      FirstFailedWriteStable(k, m, n - 1, writeOk);
    }
  }
}
