# osuLinksToCollections — a Dafny model of the link-to-collection pipeline

The tool turns a text file of osu! beatmap links into an osu! collection.
For every link it works out a beatmap id, asks the osu! web API for that
beatmap, and appends `checksum|mapset_id` to a cache file
(`collection_hashes.txt`). It then reads the checksums back from the cache
and builds a one-collection `CollectionList` stamped with client version
`20220906`, which is saved as `collection.db`. If a cache file already
exists, the fetch is skipped and the existing cache is used.

This project models that pipeline as pure Dafny functions over
`seq<char>`, with one loop method for the fetch. It also proves the
properties the code relies on.

- `results.dfy` (`Results`): `Option` and `Result`.
- `seqs.dfy` (`Seqs`): `Iterator::filter_map`, with the lemma that it keeps
  exactly the selected elements in order.
- `text.dfy` (`Text`): `str::trim` with Rust's Unicode White_Space set,
  `str::split(char)` with its inverse `join`, and `BufRead::lines`.
- `decimal.dfy` (`Decimal`): `str::parse::<u32>` (optional `+`, checked
  overflow) and `u32` formatting, with their round trip.
- `beatmap_id.dfy` (`BeatmapId`): `extract_beatmap_id`. A parsed URL is
  an abstract record holding the optional path segments and the optional
  fragment. The URL parser is a parameter of type `string -> Option<Url>`.
- `fetch.dfy` (`Fetch`): the link-list filter and the per-link
  classification. It also has the cache-line format and the fetch loop.
  The loop is checked against a loop-free reference definition,
  `FetchResult`. The lookup service is a parameter that returns a beatmap
  (with or without a checksum) or an error message. Whether the `k`-th
  cache write succeeds is also a parameter, and so is how much of its line
  a failing write had already put into the file.
- `collection.dfy` (`CollectionBuilder`): the cache-line parser, the
  empty-list check and the assembly of the `CollectionList`. It also has
  `main`'s control flow as `Run`, with end-to-end lemmas.

The binary `collection.db` encoding is not part of this repository's code.
`CollectionList::to_file` comes from the external `osu_db` crate, so the
model stops at the `CollectionList` value that would be saved. The
repository also has no checksum validator. The code accepts whatever
non-empty text precedes the first `|` on a cache line, and the model does
the same. The lemma `Md5IsWellFormed` shows that real 32-digit hex MD5
checksums always meet the round trip's side condition. A checksum that
fails it is still saved, but it is not read back intact. An empty checksum,
for example, is written as `|5` and yields no hash.

A failed cache write ends the run with an error, but it does not undo what
`write_all` had already written. The cache file then holds the earlier lines
and the start of the failed one. A later run finds that file and reuses it as
the cache. `ReadAfterCutOff` and `TruncatedChecksumRead` state what that run
reads: the earlier checksums, then the cut-off start of the failed line. A
cut that stops inside the checksum becomes a hash of its own.

## Model

| member | source | states |
|---|---|---|
| Seqs.FilterMap | src/api_data.rs:64-69 | `filter_map` yields at most one output per input; which outputs, and in what order, is stated by `FilterMapSelects` |
| Seqs.FilterMapSelects | src/api_data.rs:64-69 | output `k` is the payload of the `k`-th kept input, kept positions strictly increase, and a position is kept iff the step returns `Some` |
| Seqs.FilterMapAppend | src/api_data.rs:64-69 | filtering a concatenation is the concatenation of the filtered parts, so nothing is reordered |
| Text.Trim | src/api_data.rs:67 | the trimmed text neither starts nor ends with whitespace and is no longer than the input |
| Text.TrimIsSlice | src/api_data.rs:67 | the trimmed text is a contiguous slice of the input, and everything cut off on either side is whitespace |
| Text.Split | src/api_data.rs:35 | splitting yields at least one piece, no piece contains the separator, and joining the pieces with the separator restores the input |
| Text.SplitJoin | src/main.rs:72-73 | splitting a join of separator-free pieces gives back exactly those pieces |
| Text.SplitCount | src/api_data.rs:35-36 | the number of pieces is the number of separators plus one |
| Text.Lines | src/main.rs:68-70 | no line read contains a newline; what is read from written text is stated by `LinesOfTerminated` and `LinesOfCutOff` |
| Text.LinesOfTerminated | src/main.rs:69 | reading back a text written as newline-terminated lines gives those lines, when none holds a newline or ends in a carriage return |
| Text.LinesOfCutOff | src/main.rs:68-70 | a text of newline-terminated lines followed by an unterminated tail reads as those lines and then the tail, if it is non-empty, with no carriage return stripped from it |
| Decimal.ParseU32 | src/api_data.rs:17 | parsing succeeds iff the text is an optional `+` and then one or more ASCII digits worth at most 2^32-1, and the result is that value |
| Decimal.AccumulateMeaning | src/api_data.rs:28 | the digit loop with checked multiply and add fails iff a non-digit occurs or the final value exceeds 2^32-1, because overflow midway implies overflow at the end |
| Decimal.ToDecimal | src/api_data.rs:89 | a formatted number is a non-empty digit string denoting that number, with no leading zero unless it is `0` |
| Decimal.ParseToDecimal | src/api_data.rs:89 | parsing a formatted `u32` gives back the same number |
| Decimal.ParsePlusToDecimal | src/api_data.rs:17 | a `+` before a formatted `u32` is accepted |
| Decimal.ParseRejectsOverflow | src/api_data.rs:28 | a number beyond 32 bits is rejected, not wrapped |
| BeatmapId.ExtractBeatmapId | src/api_data.rs:16-21 | a text that is a `u32` literal yields its value; a text that is neither a `u32` nor a parsable URL yields no id |
| BeatmapId.IdFromUrl | src/api_data.rs:23-43 | a URL yields an id only under the path rule or from a fragment with exactly one `/`; the individual rules are stated by the lemmas below |
| BeatmapId.ExtractBareNumber | src/api_data.rs:17-19 | a bare formatted number is its own id, whatever the URL parser would return for it |
| BeatmapId.ExtractFromUrl | src/api_data.rs:21-43 | a text that is not a number is judged by its parsed URL alone |
| BeatmapId.PathRuleIgnoresFragment | src/api_data.rs:24-31 | when the first path segment is `beatmaps` or `b` and a second segment exists, the result is the parse of that segment, possibly no id, and it does not depend on the fragment |
| BeatmapId.PathRuleReadsId | src/api_data.rs:24-29 | `/beatmaps/{id}` and `/b/{id}` yield `id`, whatever segments or fragment follow |
| BeatmapId.FragmentHasTwoParts | src/api_data.rs:35-36 | the fragment splits into exactly two parts iff it contains exactly one `/` |
| BeatmapId.FragmentRuleReadsId | src/api_data.rs:34-40 | outside the path rule, a fragment `mode/id` yields the parse of `id`, and the mode is ignored |
| BeatmapId.FragmentRuleRejects | src/api_data.rs:34-43 | outside the path rule, a missing fragment or one with other than exactly one `/` yields no id |
| BeatmapId.BeatmapsetPageReadsFragment | src/api_data.rs:34-40 | a beatmapset page `/beatmapsets/{set}#{mode}/{id}` yields the beatmap id, not the set number |
| Fetch.LinkOf | src/api_data.rs:67-68 | a line is dropped iff its trimmed text is empty or starts with `#`; otherwise it becomes that non-empty trimmed text |
| Fetch.FilterLinks | src/api_data.rs:64-69 | the filtered list is no longer than the input, and every link in it is non-empty, trimmed and does not start with `#` |
| Fetch.FilterLinksSelects | src/api_data.rs:64-69 | the links are the trimmed input lines in their original order, keeping exactly the lines whose trimmed text is non-empty and does not start with `#` |
| Fetch.Classify | src/api_data.rs:85-120 | the fate of one link; its meaning is stated by `ClassifyOutcome` |
| Fetch.ClassifyOutcome | src/api_data.rs:85-120 | a link without an id fails as `Invalid URL format`; a link is saved iff its id's lookup returned a beatmap with a checksum, and what is saved is that checksum and mapset id; a beatmap without checksum fails as `Missing checksum`; a lookup error fails with its own message; a failure records its own link |
| Fetch.SavedFromLookup | src/api_data.rs:86-95 | every saved beatmap is, checksum and mapset id, the lookup service's answer for the id of one of the links |
| Fetch.EveryUrlAccountedFor | src/api_data.rs:84-121 | each link adds exactly one entry to the results or to the failures |
| Fetch.SavedAppend | src/api_data.rs:92-95 | results are appended link by link, in link order |
| Fetch.FailedAppend | src/api_data.rs:104-120 | failures are appended link by link, in link order |
| Fetch.CacheRecord | src/api_data.rs:89 | a record is the checksum, then `|`, then the decimal digits of the mapset id |
| Fetch.RecordIsOneLine | src/api_data.rs:89 | a record whose checksum holds no newline is one line and does not end in a carriage return |
| Fetch.CacheLine | src/api_data.rs:89 | the record followed by a newline; the text of many lines is stated by `CacheTextIsTerminated` |
| Fetch.CacheTextIsTerminated | src/api_data.rs:88-95 | the cache holds one `checksum|mapset_id` line per result, each ending in a newline, in result order |
| Fetch.CutOff | src/api_data.rs:90 | what a failing `write_all` leaves of its line is a proper prefix, of the length it had written when that is shorter than the line |
| Fetch.FetchBeatmaps | src/api_data.rs:84-121 | the loop agrees with the loop-free definition: a failed write ends the fetch with the lines written before it followed by the part of the failed line that reached the file; otherwise results plus failures number the links and the cache is the lines of the results |
| Fetch.WriteFailureEndsFetch | src/api_data.rs:90 | a failed write for a saved link, after all earlier writes succeeded, ends the fetch with the earlier lines and then the written start of that link's line in the cache |
| Fetch.FetchFailsOnWrite | src/api_data.rs:90 | if any saved beatmap's write fails, the fetch ends in failure |
| CollectionBuilder.HashOf | src/main.rs:71-76 | a line yields a hash iff its trimmed text before the first `|` is non-empty; that hash holds no `|` and is trimmed |
| CollectionBuilder.ParseHashes | src/main.rs:68-78 | every entry is `Some` of a non-empty, `|`-free, trimmed hash, and there are no more entries than lines |
| CollectionBuilder.ParseHashesSelects | src/main.rs:68-78 | entry `k` is the trimmed text before the first `|` of the `k`-th kept line, in line order, and a line is kept iff that text is non-empty |
| CollectionBuilder.KeptHashesWellFormed | src/main.rs:71-76 | every kept hash is non-empty, `|`-free and trimmed |
| CollectionBuilder.HashLineRoundTrip | src/main.rs:72-74 | for a non-empty checksum without `|` or surrounding whitespace, parsing the record written for it yields exactly that checksum |
| CollectionBuilder.CacheRoundTrip | src/main.rs:68-78 | when every checksum is non-empty, `|`-free, newline-free and trimmed, reading back the whole cache the fetch wrote gives `Some(checksum)` for every result, in result order |
| CollectionBuilder.ReadAfterCutOff | src/main.rs:68-78 | when every checksum written before is non-empty, `|`-free, newline-free and trimmed and the failed one is newline-free, a cache left by a failed write reads as the checksums written before it, followed by the hash of the cut-off start of the failed line if that start yields one |
| CollectionBuilder.TruncatedChecksumRead | src/main.rs:71-76 | when the cut stops inside an MD5 checksum, that truncated checksum is read as a hash |
| CollectionBuilder.AssembleCollection | src/main.rs:82-97 | an empty hash list is an error and nothing is built; otherwise the list has version 20220906 and one collection named `Some(name)` holding the hashes in order |
| CollectionBuilder.SavedChecksumsWellFormed | src/api_data.rs:88-95 | if every checksum the lookup service returns is non-empty, `|`-free, newline-free and trimmed, so is every saved checksum |
| CollectionBuilder.Run | src/main.rs:9-97 | `main` up to saving; its outcomes are stated by `RunWithCacheSkipsFetch`, `RunAfterFetch` and `RunWriteFailure` |
| CollectionBuilder.RunWithCacheSkipsFetch | src/main.rs:13-20 | with a cache file present the result does not depend on the links, the lookup service or the writes; it fails iff the cache yields no hash, and otherwise its collection holds exactly the cache's hashes |
| CollectionBuilder.RunAfterFetch | src/main.rs:13-97 | without a cache, with all writes succeeding and every checksum the lookup service returns non-empty, `|`-free, newline-free and trimmed, the run fails with no beatmaps iff no link was saved; otherwise it builds one collection of the fetched checksums in link order |
| CollectionBuilder.RunWriteFailure | src/main.rs:27-51 | a failed cache write aborts the run with an error before a collection is built |

## Left out

- Saving `collection.db` (src/main.rs:100). `CollectionList::to_file` belongs to the external `osu_db` crate, so its binary layout is not part of this model. The model ends with the `CollectionList` value.
- `CollectionList.version` is a `nat`. The integer width of the field is defined in `osu_db`, which is not part of this model. The only value ever stored is 20220906.
- The osu! API client (src/api_data.rs:51-56, 86). Building it can fail, for example on bad credentials, and that error path is not modelled. The per-beatmap lookup is the parameter `lookup`, a function of the id alone. It is therefore assumed stable within a run: a beatmap listed twice gets the same answer twice, whereas the real service can answer a repeated request differently, for example with a transient error and then a success.
- The rate limit and the one-second `sleep` between requests (src/api_data.rs:54, 80, 116). These are timing concerns only.
- `Url::parse` internals (src/api_data.rs:21). WHATWG URL parsing and percent-decoding are replaced by the abstract parser parameter.
- File I/O. The existence check (src/main.rs:13) becomes `cacheFile: Option<string>`. Failing to open `links.txt` (src/api_data.rs:61) becomes `linksFile == None`. Failing to create the cache (src/api_data.rs:74-78) or to reopen it (src/main.rs:57-64) is not modelled. Reopening is assumed to return the text the fetch wrote.
- Lines dropped by `filter_map(Result::ok)` (src/api_data.rs:66, src/main.rs:70). Strings here are sequences of Unicode scalar values, so invalid UTF-8 cannot be expressed.
- Fetch.CutOff: counts the part of a line that reached the file in characters. `write_all` counts bytes, so a cut inside a multi-byte UTF-8 character cannot be expressed. Cache lines with ASCII checksums are unaffected.
- Console output, the authentication hints (src/main.rs:37-49) and the warning printed when a fetch saves nothing (src/main.rs:31-34).
- The hard-coded collection name, credentials and file names. The name is the parameter `name`.
- Fetch results are discarded by `main`, which only reads the cache. So `Run` does not return the failure list either.
