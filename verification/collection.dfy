/** `main`: obtain the cache file (reusing an existing one or fetching it),
    read the beatmap hashes back from it and assemble the one-collection
    list that is then saved as `collection.db`. */
module CollectionBuilder {
  import opened Results
  import opened Seqs
  import opened Text
  import opened Decimal
  import opened BeatmapId
  import opened Fetch

  /** The client version stamped on the collection list. */
  const COLLECTION_VERSION: nat := 20220906

  /** `osu_db::collection::Collection`. */
  datatype Collection = Collection(name: Option<string>, beatmapHashes: seq<Option<string>>)

  /** `osu_db::collection::CollectionList`. */
  datatype CollectionList = CollectionList(version: nat, collections: seq<Collection>)

  /** Why `main` returns an error before anything is saved. */
  datatype RunError =
    | LinksUnreadable   // `links.txt` could not be opened
    | CacheWriteError   // a cache line could not be written
    | NoBeatmaps        // the cache yielded no hash

  // ----- reading the cache -----

  /** The hash of one cache line: the trimmed text before the first `|`
      (the whole trimmed line if there is none), unless that is empty. */
  function HashOf(line: string): (h: Option<string>)
    ensures h.Some? ==> h.value == Trim(Split(line, '|')[0])
    ensures h.Some? ==> h.value != [] && '|' !in h.value && IsTrimmed(h.value)
    ensures h.None? <==> Trim(Split(line, '|')[0]) == []
  {
    var t := Trim(Split(line, '|')[0]);
    TrimAddsNothing(Split(line, '|')[0], '|');
    if t == [] then None else Some(t)
  }

  /** The hash pipeline over the cache's lines: every kept entry is `Some`
      of a non-empty, `|`-free, trimmed hash, and no line yields more than one. */
  function ParseHashes(lines: seq<string>): (hashes: seq<Option<string>>)
    ensures |hashes| <= |lines|
    ensures forall k :: 0 <= k < |hashes| ==>
              hashes[k].Some? && hashes[k].value != [] && '|' !in hashes[k].value && IsTrimmed(hashes[k].value)
  {
    KeptHashesWellFormed(lines);
    WrapAll(FilterMap(lines, HashOf))
  }

  /** Every hash the filter keeps is non-empty, `|`-free and trimmed. */
  lemma {:induction false} KeptHashesWellFormed(lines: seq<string>)
    ensures forall k :: 0 <= k < |FilterMap(lines, HashOf)| ==>
              var h := FilterMap(lines, HashOf)[k]; h != [] && '|' !in h && IsTrimmed(h)
    decreases |lines|
  {
    if lines != [] {
      var n := |lines| - 1;
      KeptHashesWellFormed(lines[..n]);
      var front := FilterMap(lines[..n], HashOf);
      var last := HashOf(lines[n]);
      assert FilterMap(lines, HashOf) == front + Kept(last);
      forall k | 0 <= k < |FilterMap(lines, HashOf)|
        ensures var h := FilterMap(lines, HashOf)[k]; h != [] && '|' !in h && IsTrimmed(h)
      {
        if k >= |front| {
          assert FilterMap(lines, HashOf)[k] == last.value;
        }
      }
    }
  }

  /** The parser keeps exactly the lines whose trimmed text before the first
      `|` is non-empty, in their original order, as that text. */
  lemma ParseHashesSelects(lines: seq<string>)
    ensures |KeptIndices(lines, HashOf)| == |ParseHashes(lines)|
    ensures forall k :: 0 <= k < |ParseHashes(lines)| ==>
              KeptIndices(lines, HashOf)[k] < |lines| &&
              ParseHashes(lines)[k] == Some(Trim(Split(lines[KeptIndices(lines, HashOf)[k]], '|')[0]))
    ensures forall k, l :: 0 <= k < l < |KeptIndices(lines, HashOf)| ==>
              KeptIndices(lines, HashOf)[k] < KeptIndices(lines, HashOf)[l]
    ensures forall i :: 0 <= i < |lines| ==>
              (i in KeptIndices(lines, HashOf) <==> Trim(Split(lines[i], '|')[0]) != [])
  {
    FilterMapSelects(lines, HashOf);
  }

  /** A checksum the cache can carry through unchanged. */
  predicate WellFormedChecksum(c: string) {
    c != [] && '|' !in c && '\n' !in c && IsTrimmed(c)
  }

  /** An MD5 digest as 32 lowercase hexadecimal characters. */
  predicate IsMd5Hex(c: string) {
    |c| == 32 && forall i :: 0 <= i < |c| ==> ('0' <= c[i] <= '9' || 'a' <= c[i] <= 'f')
  }

  /** A real beatmap checksum survives the cache. */
  lemma Md5IsWellFormed(c: string)
    requires IsMd5Hex(c)
    ensures WellFormedChecksum(c)
  {
  }

  /** Reading back one written record gives its checksum. */
  lemma HashLineRoundTrip(info: BeatmapInfo)
    requires info.checksum != [] && '|' !in info.checksum && IsTrimmed(info.checksum)
    ensures HashOf(CacheRecord(info)) == Some(info.checksum)
  {
    var digits := ToDecimal(info.mapsetId);
    assert CacheRecord(info) == info.checksum + ("|" + digits);
    SplitSeparatorFreePrefix(info.checksum, "|" + digits, '|');
    assert Split("|" + digits, '|')[0] == [];
    assert info.checksum + [] == info.checksum;
    TrimFixesTrimmed(info.checksum);
  }

  /** The checksums of `infos`, in order. */
  function Checksums(infos: seq<BeatmapInfo>): (cs: seq<string>)
    ensures |cs| == |infos|
    ensures forall k :: 0 <= k < |infos| ==> cs[k] == infos[k].checksum
  {
    seq(|infos|, k requires 0 <= k < |infos| => infos[k].checksum)
  }

  /** Every record of well-formed checksums is read back as one line that
      yields its checksum. */
  lemma RecordsReadBack(infos: seq<BeatmapInfo>)
    requires forall k :: 0 <= k < |infos| ==> WellFormedChecksum(infos[k].checksum)
    ensures forall k :: 0 <= k < |CacheRecords(infos)| ==>
              '\n' !in CacheRecords(infos)[k] && !EndsWithCr(CacheRecords(infos)[k])
    ensures FilterMap(CacheRecords(infos), HashOf) == Checksums(infos)
  {
    var records := CacheRecords(infos);
    forall k | 0 <= k < |records|
      ensures '\n' !in records[k] && !EndsWithCr(records[k])
      ensures HashOf(records[k]) == Some(Checksums(infos)[k])
    {
      RecordIsOneLine(infos[k]);
      HashLineRoundTrip(infos[k]);
    }
    FilterMapKeepsAll(records, HashOf, Checksums(infos));
  }

  /** The cache round trip: reading the text the fetch wrote gives back
      every saved checksum, wrapped in `Some`, in the order they were saved. */
  lemma CacheRoundTrip(infos: seq<BeatmapInfo>)
    requires forall k :: 0 <= k < |infos| ==> WellFormedChecksum(infos[k].checksum)
    ensures ParseHashes(Lines(CacheText(infos))) == WrapAll(Checksums(infos))
  {
    CacheTextIsTerminated(infos);
    RecordsReadBack(infos);
    LinesOfTerminated(CacheRecords(infos));
  }

  /** The cache left by a failed write, read back by a later run: every
      checksum written before it, then the hash of the cut-off start of the
      failed line if that start yields one. */
  lemma ReadAfterCutOff(infos: seq<BeatmapInfo>, info: BeatmapInfo, written: nat)
    requires forall k :: 0 <= k < |infos| ==> WellFormedChecksum(infos[k].checksum)
    requires '\n' !in info.checksum
    ensures ParseHashes(Lines(CacheText(infos) + CutOff(CacheLine(info), written))) ==
            WrapAll(Checksums(infos) + Kept(HashOf(CutOff(CacheLine(info), written))))
  {
    var cut := CutOff(CacheLine(info), written);
    var records := CacheRecords(infos);
    CutOffHasNoNewline(info, written);
    CacheTextIsTerminated(infos);
    RecordsReadBack(infos);
    LinesOfCutOff(records, cut);
    var tail := if cut == [] then [] else [cut];
    FilterMapAppend(records, tail, HashOf);
    assert FilterMap(tail, HashOf) == Kept(HashOf(cut)) by {
      if cut != [] {
        assert tail[..0] == [];
      }
    }
  }

  /** A cut that stops inside a real checksum is read back by a later run as
      a hash of its own: the truncated checksum. */
  lemma TruncatedChecksumRead(info: BeatmapInfo, written: nat)
    requires IsMd5Hex(info.checksum)
    requires 0 < written < |info.checksum|
    ensures HashOf(CutOff(CacheLine(info), written)) == Some(info.checksum[..written])
  {
    var cut := CutOff(CacheLine(info), written);
    assert cut == info.checksum[..written];
    SplitSeparatorFreePrefix(cut, [], '|');
    assert cut + [] == cut;
    TrimFixesTrimmed(cut);
  }

  // ----- assembling the collection -----

  /** Refuse an empty hash list; otherwise one collection named `name`
      holding the hashes, in a list stamped with the client version. */
  function AssembleCollection(hashes: seq<Option<string>>, name: string): (r: Result<CollectionList, RunError>)
    ensures r.Failure? <==> hashes == []
    ensures r.Failure? ==> r.error == NoBeatmaps
    ensures r.Success? ==>
              && r.value.version == COLLECTION_VERSION
              && |r.value.collections| == 1
              && r.value.collections[0].name == Some(name)
              && r.value.collections[0].beatmapHashes == hashes
  {
    if hashes == [] then Failure(NoBeatmaps)
    else Success(CollectionList(COLLECTION_VERSION, [Collection(Some(name), hashes)]))
  }

  /** `main` up to saving: with a cache file present its text is used
      directly; otherwise the links are read and fetched, and the cache the
      fetch wrote is read back. `None` for `linksFile` means it could not
      be opened. */
  function Run(cacheFile: Option<string>, linksFile: Option<string>, parseUrl: UrlParser,
               lookup: Lookups, writeOk: nat -> bool, written: nat -> nat, name: string): Result<CollectionList, RunError>
  {
    if cacheFile.Some? then AssembleCollection(ParseHashes(Lines(cacheFile.value)), name)
    else if linksFile.None? then Failure(LinksUnreadable)
    else
      match FetchResult(FilterLinks(Lines(linksFile.value)), parseUrl, lookup, writeOk, written)
      case CacheWriteFailed(_) => Failure(CacheWriteError)
      case Fetched(_, _, cache) => AssembleCollection(ParseHashes(Lines(cache)), name)
  }

  /** With a cache file present the fetch is skipped: the result depends on
      the cache text alone, not on the links, the lookup service or the
      writes, and it is the collection of the hashes the cache holds. */
  lemma RunWithCacheSkipsFetch(cache: string, links: Option<string>, otherLinks: Option<string>,
                               parseUrl: UrlParser, otherParseUrl: UrlParser,
                               lookup: Lookups, otherLookup: Lookups,
                               writeOk: nat -> bool, otherWriteOk: nat -> bool,
                               written: nat -> nat, otherWritten: nat -> nat, name: string)
    ensures Run(Some(cache), links, parseUrl, lookup, writeOk, written, name) ==
            Run(Some(cache), otherLinks, otherParseUrl, otherLookup, otherWriteOk, otherWritten, name)
    ensures Run(Some(cache), links, parseUrl, lookup, writeOk, written, name).Failure? <==> ParseHashes(Lines(cache)) == []
    ensures Run(Some(cache), links, parseUrl, lookup, writeOk, written, name).Success? ==>
              Run(Some(cache), links, parseUrl, lookup, writeOk, written, name).value.collections[0].beatmapHashes == ParseHashes(Lines(cache))
  {
  }

  /** The lookup service only ever returns checksums the cache carries intact. */
  predicate LookupChecksumsWellFormed(lookup: Lookups) {
    forall id: U32 :: lookup(id).Found? && lookup(id).checksum.Some? ==> WellFormedChecksum(lookup(id).checksum.value)
  }

  /** Every saved beatmap's checksum came from the lookup service. */
  lemma {:induction false} SavedChecksumsWellFormed(urls: seq<string>, parseUrl: UrlParser, lookup: Lookups)
    requires LookupChecksumsWellFormed(lookup)
    ensures forall k :: 0 <= k < |SavedInfos(urls, parseUrl, lookup)| ==>
              WellFormedChecksum(SavedInfos(urls, parseUrl, lookup)[k].checksum)
    decreases |urls|
  {
    if urls != [] {
      var n := |urls| - 1;
      SavedChecksumsWellFormed(urls[..n], parseUrl, lookup);
      var o := Classify(urls[n], parseUrl, lookup);
      ClassifyOutcome(urls[n], parseUrl, lookup);
      if o.Saved? {
        var id := ExtractBeatmapId(urls[n], parseUrl).value;
        assert lookup(id).Found? && lookup(id).checksum.Some?;
      }
    }
  }

  /** End to end, without a cache file and with every write succeeding: the
      run fails with `NoBeatmaps` exactly when no link yielded a beatmap,
      and otherwise produces one collection whose hashes are the fetched
      checksums in link order. */
  lemma {:induction false} RunAfterFetch(links: string, parseUrl: UrlParser, lookup: Lookups,
                                         writeOk: nat -> bool, written: nat -> nat, name: string)
    requires forall k: nat :: writeOk(k)
    requires LookupChecksumsWellFormed(lookup)
    ensures var saved := SavedInfos(FilterLinks(Lines(links)), parseUrl, lookup);
      Run(None, Some(links), parseUrl, lookup, writeOk, written, name) ==
        if saved == [] then Failure(NoBeatmaps)
        else Success(CollectionList(COLLECTION_VERSION, [Collection(Some(name), WrapAll(Checksums(saved)))]))
  {
    var urls := FilterLinks(Lines(links));
    var saved := SavedInfos(urls, parseUrl, lookup);
    assert FirstFailedWrite(|saved|, writeOk) == |saved|;
    SavedChecksumsWellFormed(urls, parseUrl, lookup);
    CacheRoundTrip(saved);
  }

  /** A failed cache write aborts the run before any collection is built. */
  lemma RunWriteFailure(links: string, parseUrl: UrlParser, lookup: Lookups,
                        writeOk: nat -> bool, written: nat -> nat, name: string, k: nat)
    requires k < |SavedInfos(FilterLinks(Lines(links)), parseUrl, lookup)|
    requires !writeOk(k)
    ensures Run(None, Some(links), parseUrl, lookup, writeOk, written, name) == Failure(CacheWriteError)
  {
    FetchFailsOnWrite(FilterLinks(Lines(links)), parseUrl, lookup, writeOk, written, k);
  }
}
