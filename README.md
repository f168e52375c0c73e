# Analytics Log Agent — a Dafny model

The Analytics Log Agent reads web-server access logs and sends one Matomo tracking hit per log line. It either follows the log file (tail mode) or replays a whole file at a fixed rate (catlog mode). This project models the agent's core in Dafny and proves properties of that model:

- **Parser.** The nginx/apache "combined" line parser, with its fixed regular expression written out as a field-by-field scanner.
- **Timestamps.** The timestamp normaliser, which uses two `time.Parse` layouts.
- **Classifiers.** The URL filters for assets, downloads and excluded substrings, and the user-agent allow-list.
- **Hits.** How one hit becomes a form post to the tracker, and optionally a post to the agent plugin's error channel.
- **Title cache.** The page-title extractor, and the cache that keeps titles in memory and in an append-only file.
- **Batch buffer.** The buffer that sends hits to the tracker 200 at a time.
- **Drivers.** The catlog and tail loops, and the command-line overrides of the configuration.

Files, one module each:

| file | module | models |
|---|---|---|
| `wrappers.dfy` | `Wrappers` | `Option`, standing for Go's nil or error results |
| `strings.dfy` | `Strings` | The Go `strings` functions the agent uses. A Go string is treated as its sequence of runes. |
| `config.dfy` | `Configuration` | The `Config` object and its sections |
| `logparser.dfy` | `LogParser` | `LogData` and `parseLog` |
| `timestamp.dfy` | `Timestamp` | `parseTimestamp` and `formatTimestamp` |
| `classify.dfy` | `Classify` | `isIgnored`, `isDownloadableFile` and `shouldSendURL` |
| `matomo.dfy` | `Matomo` | `contains`, `InitializeAgentURL` and `sendToMatomo` |
| `title.dfy` | `Title` | The title cache and the title extractor |
| `batch.dfy` | `Batch` | The batch buffer |
| `logagent.dfy` | `LogAgent` | `catLogFile` and the flag overrides of `main` |
| `tail.dfy` | `Tail` | `tailLogFile` |

State the source changes in place is modelled as classes:

- `Configuration.Config` is the configuration object the driver and `InitializeAgentURL` update.
- `Title.TitleCache` holds the map and the lines of its file.
- `Batch.LogBuffer` holds the buffer and the batch posts made so far.

HTTP posts are recorded as values (`Matomo.Post`, `Batch.BatchPost`). Every outcome the environment decides is a parameter:

- a failing plugin post;
- a file that cannot be opened;
- a failed write;
- a fetched page;
- how a batch send ends.

## Model

| member | source | states |
|---|---|---|
| `LogParser.ParseLog` | logparser.go:40-68 | Any format other than exactly `nginx` or `apache` gives nil. |
| `LogParser.NginxIsApache` | logparser.go:42-45 | Both formats use the same pattern, so they parse every line alike. |
| `LogParser.ParseLogSome` | logparser.go:43-64 | A line parses to record `d` exactly when the format is accepted and the pattern matches with groups `d` at some position and at no earlier one. This is RE2's leftmost match, with the nine groups taken verbatim into IP, Timestamp, Method, URL, Protocol, Status, Size, Referrer and UserAgent. |
| `LogParser.ParseLogNone` | logparser.go:52-67 | The result is nil exactly when the format is not accepted or the pattern matches nowhere in the line. |
| `LogParser.ParsedIsWellFormed` | logparser.go:43 | In a parsed record:<br>- IP, Method, URL and Protocol are non-empty and hold no white space;<br>- Timestamp is non-empty and holds no `]`;<br>- Status and Size are non-empty runs of digits, so a size of `-` gives nil;<br>- Referrer and UserAgent hold no `"` and may be empty. |
| `LogParser.MissingLiteralIsNil` | logparser.go:43-67 | A line lacking ` - - [`, the `] "` that closes the time, or the `" ` that closes the request section gives nil. |
| `LogParser.MatchHasLiterals` | logparser.go:43 | Every match contains those literal pieces of the pattern. |
| `LogParser.ParseRender` | logparser.go:43-64 | A well-formed record, written out as a log line and followed by any text, parses back to itself. The pattern is not anchored at the end. |
| `LogParser.MatchAtIff` | logparser.go:43-52 | At a fixed start position, the scanner and the pattern agree in both directions. |
| `LogParser.CombinedFits` | logparser.go:43 | The groups of the pattern accept a record exactly when the record is well formed. |
| `LogParser.CombinedRender` | logparser.go:43 | The pattern text with the record's groups filled in is the rendered log line. |
| `LogParser.Search` | logparser.go:52 | Leftmost search: the result is the match at the smallest start position, and None means no position matches. |
| `LogParser.ParsedIsLeftmost` | logparser.go:43-64 | A parsed record comes from an accepted format and from a match at some position with no match before it. |
| `LogParser.LeftmostIsParsed` | logparser.go:43-64 | Under an accepted format, the groups of the leftmost match are the parsed record. |
| `LogParser.ScanCount` | logparser.go:43-64 | A successful scan yields one group per capture of the pattern, so the nine submatches the code indexes exist. |
| `Timestamp.ParseTimestamp` | parsetimestamp.go:28-56 | The loop tries the bracketed layout, then the UTC layout, and stops at the first that accepts.<br>- On success it returns that clock's hour, minute and second as two-digit strings.<br>- Otherwise it returns three empty strings and failure. |
| `Timestamp.Attempts` | parsetimestamp.go:30-39 | One attempt per layout, in layout order; every clock an attempt yields is valid. |
| `Timestamp.FirstParseFound` | parsetimestamp.go:38-44 | The loop's result is the clock of the first layout that accepts, when every earlier layout rejects. |
| `Timestamp.FirstParseNone` | parsetimestamp.go:38-48 | When every layout rejects, the loop yields no clock. |
| `Timestamp.FirstOfTwo` | parsetimestamp.go:30-44 | With the two layouts, the bracketed layout's clock wins whenever it accepts; otherwise the UTC layout decides. |
| `Timestamp.ParseBracketed` | parsetimestamp.go:31 | `time.Parse` with `02/Jan/2006:15:04:05 -0700`. A result is a valid clock, and the input's month field is a month name. |
| `Timestamp.ParseUtc` | parsetimestamp.go:32 | `time.Parse` with `2006-01-02 15:04:05 UTC`. A result is a valid clock, and the input ends in `UTC`. |
| `Timestamp.FormatTimestamp` | parsetimestamp.go:58-78 | On failure it returns `""`. On success it returns a 19-character text. |
| `Timestamp.FormatAgreesWithParse` | parsetimestamp.go:63-77 | `formatTimestamp` accepts exactly what `parseTimestamp` accepts. On success it returns `YYYY-MM-DD HH:MM:SS` built from the same clock. |
| `Timestamp.LayoutsExclusive` | parsetimestamp.go:30-70 | At most one layout accepts an input. So trying both in order, or dispatching on `UTC`, gives the same clock. |
| `Timestamp.BracketedExcludesUtc` | parsetimestamp.go:66-70 | An input the bracketed layout accepts never contains `UTC`. |
| `Timestamp.UtcMentionsUtc` | parsetimestamp.go:66-67 | An input the UTC layout accepts contains `UTC`. |
| `Timestamp.BracketedRoundTrip` | parsetimestamp.go:31-39 | A bracketed timestamp, written with any zone offset, reads back to its wall-clock fields. No zone conversion is applied. |
| `Timestamp.UtcRoundTrip` | parsetimestamp.go:32-39 | A UTC-layout timestamp reads back to its clock. |
| `Timestamp.Wire` | parsetimestamp.go:77 | The `2006-01-02 15:04:05` rendering is 19 characters long. |
| `Timestamp.FormatUtcExample` | parsetimestamp.go:63-77 | `formatTimestamp("2024-10-10 13:55:36 UTC")` is `2024-10-10 13:55:36`. |
| `Timestamp.FormatBracketedExample` | parsetimestamp.go:63-77 | `formatTimestamp("10/Oct/2024:13:55:36 +0200")` is `2024-10-10 13:55:36`. |
| `Timestamp.DaysIn` | parsetimestamp.go:39 | A month has 28 to 31 days; the day field is bounded by its month and year, leap years included. |
| `Classify.PathOf` | isIgnored.go:32 | The part of the URL before its first `?`: it holds no `?` and is a prefix of the URL. |
| `Classify.PathOfUnique` | isIgnored.go:32 | That prefix is unique. |
| `Classify.IsIgnored` | isIgnored.go:30-45 | A URL is ignored exactly when its path:<br>- contains `robots.txt`, matched case-sensitively;<br>- or contains `autodiscover` in any case;<br>- or, lower-cased, ends with one of the 17 media extensions. |
| `Classify.QueryIsIgnored` | isIgnored.go:32 | A query string changes neither `isIgnored` nor `isDownloadableFile`. |
| `Classify.RobotsIgnored` | isIgnored.go:34 | A path containing `robots.txt` is ignored. |
| `Classify.RobotsIsCaseSensitive` | isIgnored.go:34 | `/ROBOTS.TXT` is not ignored. |
| `Classify.AutodiscoverIgnored` | isIgnored.go:34 | A path containing `autodiscover` in any letter case is ignored. |
| `Classify.ExtensionIgnored` | isIgnored.go:25-43 | A path ending with a listed media extension in any case, such as `.PNG`, is ignored. |
| `Classify.UpperCaseImageIgnored` | isIgnored.go:39-43 | `/img/Logo.PNG?v=2` is ignored. |
| `Classify.IsDownloadableFile` | isDownload.go:37-48 | A URL is a download exactly when its lower-cased path ends with one of the 75 listed extensions. |
| `Classify.ExtensionDownloadable` | isDownload.go:25-46 | A path ending with a listed download extension, in any case, is a download. |
| `Classify.XmlIsBoth` | isDownload.go:33 | `.xml` is on both lists, so such a URL is both ignored and a download. |
| `Classify.EmptyUrl` | isIgnored.go:44 | The empty URL is neither ignored nor a download. |
| `Classify.ShouldSendUrl` | helpers.go:24-32 | An empty exclusion list admits every URL; an empty entry excludes every URL. |
| `Classify.ExcludedExactly` | helpers.go:25-30 | A URL is held back exactly when some entry occurs in it verbatim, case-sensitively. |
| `Classify.ExclusionOrderFree` | helpers.go:25-26 | The order and repetition of the exclusion list do not matter. |
| `Strings.AnyContained` | matomo.go:83-90 | `contains`: true exactly when some entry is a substring of the item. An empty list gives false. |
| `Matomo.WithSlash` | matomo.go:77-170 | The result ends in `/`. It is the URL itself when the URL already ends in `/`, and the URL plus `/` otherwise. |
| `Matomo.InitAgent` | matomo.go:74-81 | The URL ends in `/`. The agent URL is that URL plus `index.php?module=API&method=Agent.postLogData`. No other field changes. |
| `Matomo.InitAgentIdempotent` | matomo.go:74-81 | Initialising twice is the same as initialising once. |
| `Matomo.InitializeAgentUrl` | matomo.go:74-81 | The method leaves the Matomo section as `InitAgent` describes and the other sections unchanged. |
| `Matomo.ErrorStatusesAreSomeErrors` | matomo.go:114-150 | Every one of the 35 codes is a 4xx or 5xx code. `404` and `500` are listed; `422`, `507` and `200` are not. |
| `Matomo.HitFormFields` | matomo.go:94-112 | A hit carries exactly these keys, in sorted order:<br>- `cip` = IP;<br>- `idsite` = site id;<br>- `rec` = `1`;<br>- `status_code` = status;<br>- `token_auth` = token;<br>- `ua` = user agent;<br>- `url` = website + URL;<br>- `urlref` = referrer. |
| `Matomo.HitKeysSorted` | matomo.go:103-112 | The keys are in the byte order in which `url.Values.Encode` writes them. |
| `Matomo.EncodeSplits` | batch.go:27 | Without `&` in keys and values, the encoded form splits at `&` back into its `key=value` pairs, in key order. |
| `Matomo.SortByKeySorted` | batch.go:27 | `Encode` writes the fields sorted by key, as `url.Values.Encode` does, and writes each field exactly once. |
| `Matomo.IncreasingIsSorted` | batch.go:27 | A form whose keys already increase is written in its own order. |
| `Matomo.HitEncodesInOrder` | matomo.go:103-112 | A hit's form is already in key order, so its encoding lists its fields as built. |
| `Matomo.EncodeSortsKeys` | batch.go:27 | Fields added as `b`, then `a`, are written `a=2&b=1`. |
| `Matomo.Hit` | matomo.go:93-182 | No post is made exactly when a non-empty allow-list matches no part of the user agent. Otherwise:<br>- every post carries the hit form;<br>- an error-channel post to the agent URL comes first, when it is made;<br>- the tracker post comes last unless the error-channel post failed;<br>- without the plugin, or with an unlisted status, every post goes to the tracker;<br>- there are two posts when the error-channel post is made and succeeds, and one otherwise, so the tracker gets the hit at most once. |
| `Matomo.TrackerUrl` | matomo.go:166-173 | The tracker URL ends in `/matomo.php`. |
| `Matomo.AgentIsNotTracker` | matomo.go:153-173 | The error-channel URL and the tracker URL differ. |
| `Matomo.SendToMatomo` | matomo.go:93-182 | The method makes exactly the posts of `Hit` for the old configuration. It leaves the Matomo section initialised and the other sections unchanged. |
| `Matomo.UnlistedStatusOnlyTracked` | matomo.go:114-173 | A tracked hit with status `422` or `507` goes only to the tracker, even with the plugin on. |
| `Title.CacheFilePath` | title.go:32-37 | The configured cache file when one is set, else `/tmp/matomo_agent-url_title_cache.txt`. Never empty. |
| `Title.ExtractTitle` | title.go:123-133 | None exactly when `<title>` or `</title>` is missing, or the first `</title>` does not come after the first `<title>`. A title holds no `\n` or `\r` and has no outer white space. |
| `Title.TitleGap` | title.go:125-130 | When the check passes, the end index is at least the start index plus 7, so the slice is in bounds. |
| `Title.ExtractFromPage` | title.go:123-133 | A page with `<title>`, a plain title and `</title>` yields exactly that title. |
| `Title.ExtractAfterPrefix` | title.go:123-133 | For any text before the tag without `<` and any title without `<`, the result is the text between the tags with every `\n` and `\r` removed and outer white space trimmed. |
| `Title.OpenAfterPrefix` | title.go:123 | After text without `<`, the first `<title>` is the one that follows that text. |
| `Title.CloseAfterPrefix` | title.go:124 | The first `</title>` is the one right after a title without `<`. |
| `Title.ClosingFirstIsNoTitle` | title.go:125-127 | A page that starts with `</title>` has no title. |
| `Title.FetchTitle` | title.go:110-136 | A failed request gives no title; a fetched body gives its extracted title. |
| `Title.TitleCache.LoadCache` | title.go:42-64 | A missing file changes nothing and is no error. Another open error is an error. Otherwise every line is folded into the map as `Loaded` describes. |
| `Title.LoadedLast` | title.go:55-61 | A key holds the value from the last line that stores it. |
| `Title.LoadedOther` | title.go:58-59 | A key no line stores keeps its earlier value. |
| `Title.SaveLoadRoundTrip` | title.go:58-83 | For a URL without `:`, the line `saveCache` appends reloads to `url→title`. |
| `Title.SchemeUrlReloadsAsScheme` | title.go:58-83 | A URL `https:…` reloads under the key `https`: the line is split at its first `:`. |
| `Title.TitleCache.SaveCache` | title.go:66-88 | A known URL changes neither the map nor the file. Otherwise exactly one line `url:title` is appended, and the map gains `url→title`, only when the write succeeds. Existing entries are never overwritten. |
| `Title.TitleCache.CollectTitle` | title.go:90-108 | The page is requested exactly when the URL is not cached, and a cached title is returned as is. A failed fetch returns `""` and an error with the cache untouched. Otherwise the fetched title is returned even when saving fails, and it is saved only when the write succeeds. |
| `Batch.Requests` | batch.go:24-31 | One request per buffered hit, in order: `?` and the encoded form. |
| `Batch.BatchRequests` | batch.go:24-31 | The array loop builds exactly `Requests`. |
| `Batch.RequestDecodes` | batch.go:27-30 | Each request starts with `?`, and the rest splits back into the hit's pairs in key order. |
| `Batch.LogBuffer.SendBatch` | batch.go:18-88 | An empty buffer does nothing. Otherwise a post of all requests and the token goes to `TrackerURL + "matomo.php"` when it reaches the transport. The buffer is cleared only when Matomo responds and kept on any error. |
| `Batch.LogBuffer.AddLogToBatch` | batch.go:90-104 | The hit is appended and the buffer is sent exactly when the new length is at least 200. While sends succeed, the buffer stays below 200 and each batch has exactly 200 hits. |
| `Batch.LogBuffer.FlushBatch` | batch.go:106-108 | Sends whatever is buffered, with no threshold. |
| `LogAgent.TickDelay` | log-agent.go:41-44 | With truncating division, there is a positive ticker interval exactly when `0 < rps <= 10^9`. It is the largest `d` with `d * rps <= 10^9`. |
| `LogAgent.DelaySign` | log-agent.go:41 | The truncated quotient `time.Second / rps` is positive exactly for `0 < rps <= 10^9`. |
| `LogAgent.GoDiv` | log-agent.go:41 | Go's truncating division: quotient times divisor plus the Go remainder is the dividend. |
| `LogAgent.CatLogFile` | log-agent.go:33-71 | An unopenable file is an error before the rate is used, and a bad rate panics. Otherwise:<br>- every line that parses is sent once, in file order, after one tick;<br>- every other line is reported with no tick and no send;<br>- a scanner error is an error;<br>- only the Matomo section is initialised. |
| `LogAgent.ReplayLine` | log-agent.go:49-62 | One pass of the loop: an unparsed line is reported with no tick and no send; a parsed one is sent after one tick. Only the Matomo section may change, to its initialised form. |
| `LogAgent.LinesStep` | log-agent.go:52-56 | Reading one more line adds it to exactly one of the sent records and the reported lines. |
| `LogAgent.HitsOfStep` | log-agent.go:59-62 | One more hit adds its posts after those of the earlier hits. |
| `LogAgent.LinesPartition` | log-agent.go:52-56 | Every line is either sent or reported, and only lines that fail to parse are reported. |
| `LogAgent.UnknownFormatSendsNothing` | log-agent.go:52-56 | Under a format other than nginx or apache, nothing is sent and every line is reported. |
| `LogAgent.HitsOf` | log-agent.go:62 | The posts of a run of hits, in order; at most two per hit. |
| `LogAgent.HitsOfPrefix` | log-agent.go:48-63 | The posts of a shorter run are a prefix of a longer run's. |
| `LogAgent.HitInitAgent` | matomo.go:96 | `sendToMatomo` on an already-initialised section posts the same as on the original. |
| `LogAgent.ApplyFlags` | log-agent.go:101-142 | Each section becomes its flag-overridden version. |
| `LogAgent.OverString` | log-agent.go:101-109 | A non-empty string flag replaces the configured value and an empty one keeps it; the result is empty only when both are. |
| `LogAgent.OverBool` | log-agent.go:110-142 | A boolean flag sets a setting and never clears it. |
| `LogAgent.FlagsTakeEffect` | log-agent.go:101-142 | Every string flag (`token-auth`, `matomo-url`, `site-id`, `log-format`, `log-path`, `log-level`, `log-file`, `title-domain`) replaces its field only when non-empty. Every boolean flag (`plugin`, `downloads`, `collect-title`, `batch`) sets its field when true and keeps it when false. `-user-agents` is split on `,` when given. No other field changes. |
| `LogAgent.UserAgentsFlagSplits` | log-agent.go:122-124 | `-user-agents` is split on `,`: the entries hold no comma and join back to the flag. |
| `LogAgent.SingleUserAgent` | log-agent.go:122-124 | A flag without a comma gives a one-entry list. |
| `LogAgent.OverridesIdempotent` | log-agent.go:101-142 | Applying the same flags twice is the same as applying them once. |
| `LogAgent.DefaultFlagsKeepFileButDownloads` | log-agent.go:76-115 | With no flags given, every setting is the file's except `downloads`. That flag defaults to true, so download tracking ends up on. |
| `Tail.TailLogFile` | tail.go:27-48 | A format other than nginx or apache is fatal before the file is opened, and a failed open is fatal. Otherwise every line that parses is sent once, in order, and the others are dropped without a word. |
| `LogAgent.ReplaySkip` | tail.go:43-44 | A line that does not parse is dropped and sends nothing. |
| `LogAgent.ReplaySend` | tail.go:43-46 | A line that parses is sent, and its posts follow the earlier ones. |

## Left out

- HTTP itself is not modelled:
  - `http.PostForm`, `http.Get` and `http.DefaultClient.Do` are replaced by recorded posts, with their outcome passed in.
  - `validateTokenAuth` (matomo.go:31-72) is not part of this model.
- Mutexes and concurrency are not modelled (title.go:40; batch.go:16,94-95); all state is sequential.
- Batch payload text is not modelled: JSON marshalling, the `&`/`=` replacement and the curl text only build logged text. A batch post records only its target, its requests and the token.
- `Matomo.Encode`: percent-escaping is not modelled, because the escaping rules are outside the agent. The form is written as `key=value` pairs joined by `&`, with the fields stably sorted by key.
- `Matomo.SortByKeySorted`: states that the written order is sorted by key and holds the same fields. That the values of one key keep the order in which they were added follows from how `InsertField` places a field, but no lemma states it.
- File I/O is not modelled. The cache file is its sequence of lines, and a write either fully succeeds or changes nothing; partial writes are not modelled.
- `Title.TitleCache.LoadCache`: a scanner error in the middle of the file is not modelled.
- `Title.TitleCache.CollectTitle`: the page is passed in as the fetched body.
- Timing is not modelled. The catlog ticker is only counted, and the tail follower's lines are a finite sequence.
- `LogAgent.CatLogFile`: `readFails` stands for a scanner error after the given lines.
- `Strings.Lower` folds ASCII letters only; Go's `strings.ToLower` also folds other Unicode letters.
- `Timestamp.ParseBracketed`: the model keeps Go's one-digit hour, spaces, fractional seconds and case-insensitive month names. It does not model other `time.Parse` features the two layouts do not use.
- Strings are modelled as rune sequences, so Go's byte indexing in `strings.Index` and slices is not modelled. It agrees with the model on every ASCII literal in the source.
- Setup and logging are not modelled: `logging.go`, `loadConfig` (viper), flag parsing itself, the log messages, and the duplicate `main` in matomo-agent.go.
- `Configuration.BatchSection`: `config.Batch.Mode` is assigned at log-agent.go:141, but the `Config` struct at config.go:28-54 declares no batch section. The model adds one so that the assignment has somewhere to go.
- The classifiers are modelled but not wired in, because neither `sendToMatomo` nor either driver calls `isIgnored`, `isDownloadableFile` or `shouldSendURL`.
- `addLogToBatch` is modelled without a caller, because no driver calls it.
