# pura threat-intel matching engine and JIRA ticket text, in Dafny

This project models the logic of two modules of **pura**, a tool that
triages reported e-mails, and proves properties of that model.

- `pura/modules/threat_intel.py`: the threat-intelligence matching engine.
  `is_threat(hosts)` fetches a list of plain-text feeds and then a list of
  CSV feeds. In each feed it looks the hosts up in list order and stops at
  the first host that matches. A plain feed is
  normalised by `__strip_feed`: comment and blank lines go, each line gives
  its first token, and dashed IP ranges give their two endpoints. A CSV feed
  is reduced by `__parse_csv` to the indicators of its `url` (else `ip`)
  column. The lookup, `__is_in_feed`, is a fixed chain of exact checks
  (confidence 1.0), then substring checks (0.9, 0.6, 0.6, 0.7). It uses the
  host / host+path projections of a URL (`__get_fqdn`, `__get_fqdn_path`).
  So each feed reports at most its first matching host. The scan stops
  early, before fetching the next feed, once there are as many reports as
  hosts.
- `pura/modules/jira_client.py`: the text of the tickets:
  - the classification-to-priority table;
  - the `%placeholder%` substitution into the summary and description
    templates;
  - the body of the "user notified" comment.

Files, one module each:

| file | module | models |
|---|---|---|
| `wrappers.dfy` | `Wrappers` | `Option`, and `Result` with the one exception the engine can raise (`IndexError` from `line.split()[0]`) |
| `text.dfy` | `Text` | the Python `str` operations used: `isspace`, `strip`, `split()`, `split(',')`, `in`, `replace`, `lower` |
| `indicators.dfy` | `Indicators` | the collaborators of the engine as an `Env` of oracles; `__get_fqdn`, `__get_fqdn_path` |
| `plain_feed.dfy` | `PlainFeed` | `__strip_feed` |
| `csv_feed.dfy` | `CsvFeed` | `__parse_csv`, with the caller's list as a `LineBuffer` object that `pop(0)` changes in place |
| `matcher.dfy` | `Matcher` | `__is_in_feed` |
| `threat_intel.dfy` | `ThreatIntel` | `is_threat`, the `FEEDS` lists, and a corrected scan |
| `jira_client.dfy` | `JiraClient` | `PRIORITIES`, `__determine_priority`, `templates`, `__parse_template`, the body of `add_comment_user_notified` |

How the model relates to the code:

- Each loop is a method proved against a function:
  - `StripFeed` against `Stripped`;
  - `ParseCsv` and `CollectColumn` against `CsvIndicators` and `Pick`;
  - `FirstMatchingHost` against `FirstHit`;
  - `IsThreat` against `Scan`;
  - `ParseTemplate` against `ReplaceAll`.
- The properties are stated on those functions.
- Confidences are integer tenths: 10, 9, 7 and 6 for a hit, 0 for none.
- The regular expressions `REGEX.IP`, `REGEX.URL` and `REGEX.IP_MULTI`, and
  `urlparse`, are uninterpreted functions in an `Env`. The regular
  expressions are in `pura/helpers/regex.py`, which is not part of this
  model. A `None` from `urlparse` stands for its `ValueError`.
- The HTTP fetch is a function from URL to `Option<seq<string>>`, already
  split into lines.
- An exception the source does not catch is a `Raised` result and
  propagates. That exception is `IndexError` on a kept line that is only
  whitespace, such as the `'\r'` line of a CRLF feed.

Where the code and its stated intent differ, the model follows the code.
The one exception is `IsThreatDefault`, which scans the feed lists with the
missing comma of `FEEDS['plain']` restored; `IsThreatAsWritten` scans the
lists as written. The differences:

- `is_threat` `break`s after the first matching host of each feed, so one
  feed reports at most one host. This is modelled as written.
- `is_threat` does not skip hosts already reported, so a host can be
  reported twice and the early stop can hide a host that a later feed
  matches. This is recorded under Findings.
- A comment line indented by whitespace does not start with `#`. It is kept,
  and its `#...` token becomes a feed entry (`PlainFeed.IndentedCommentKept`).
  This is modelled as written.
- The missing comma in `FEEDS['plain']` is recorded under Findings.

## Model

| member | source | states |
|---|---|---|
| Text.Strip | pura/modules/threat_intel.py:229 | `host.strip()` never lengthens the host |
| Text.StripBothEnds | pura/modules/threat_intel.py:229 | `strip()` is `lstrip()` followed by `rstrip()`: it removes exactly the leading and the trailing whitespace |
| Text.StripTrims | pura/modules/threat_intel.py:229 | a stripped host has no whitespace at either end |
| Text.StripClean | pura/modules/threat_intel.py:229 | a host with no whitespace at its ends is unchanged by `strip()` |
| Text.LStrip | pura/modules/threat_intel.py:136 | the result is a suffix of the input, what was removed is all whitespace, and it does not start with whitespace |
| Text.RStrip | pura/modules/threat_intel.py:229 | the result is a prefix of the input, what was removed is all whitespace, and it does not end with whitespace |
| Text.TakeToken | pura/modules/threat_intel.py:136 | the token is a whitespace-free prefix that ends at whitespace or at the end of the line |
| Text.FirstToken | pura/modules/threat_intel.py:136 | `line.split()[0]` fails exactly on an all-whitespace line; otherwise it is the maximal non-empty whitespace-free run after the leading whitespace |
| Text.FirstTokenOf | pura/modules/threat_intel.py:136 | whitespace, then a token, then whitespace or nothing: that token is the first |
| Text.SplitOn | pura/modules/threat_intel.py:104 | `split(',')` gives at least one piece, and no piece holds the separator |
| Text.JoinSplitOn | pura/modules/threat_intel.py:104 | joining the pieces of a split with the separator gives back the line |
| Text.SplitOnJoin | pura/modules/threat_intel.py:115 | splitting a join of separator-free cells gives back the cells |
| Text.Replace | pura/modules/jira_client.py:163-164 | replacing a key by itself leaves the text unchanged |
| Text.ReplaceAbsent | pura/modules/jira_client.py:163-164 | `replace` leaves text without an occurrence of the key unchanged |
| Text.ReplaceSkips | pura/modules/jira_client.py:163-164 | text that holds no first character of the key passes through `replace` unchanged |
| Text.ReplaceHit | pura/modules/jira_client.py:163-164 | an occurrence at the front is replaced by the value, and the rest is processed after it |
| Text.Lower | pura/modules/jira_client.py:134 | `lower()` keeps the length and lower-cases each character |
| Indicators.Fqdn | pura/modules/threat_intel.py:29-40 | `__get_fqdn` is the input when `urlparse` fails or gives no netloc, and otherwise the non-empty netloc |
| Indicators.FqdnPath | pura/modules/threat_intel.py:43-56 | `__get_fqdn_path` is the input when `urlparse` fails or gives no netloc, and otherwise starts with the netloc |
| Indicators.Projections | pura/modules/threat_intel.py:29-56 | without a netloc (or when parsing fails) both projections are the input unchanged; with one, `__get_fqdn` is the non-empty netloc and `__get_fqdn_path` is the netloc followed by the path |
| Indicators.FqdnPrefixOfPath | pura/modules/threat_intel.py:43-56 | the host projection is a prefix of the host+path projection |
| PlainFeed.TokensRaised | pura/modules/threat_intel.py:136 | the comprehension raises only for a kept all-whitespace line of the feed |
| PlainFeed.TokensOkLines | pura/modules/threat_intel.py:136 | when the comprehension succeeds, no kept line is all whitespace |
| PlainFeed.TokensOkTokens | pura/modules/threat_intel.py:136 | when the comprehension succeeds, every token is non-empty and whitespace-free |
| PlainFeed.ExpandAll | pura/modules/threat_intel.py:140-147 | the expansion loop gives at least one entry per token |
| PlainFeed.Stripped | pura/modules/threat_intel.py:133-148 | `__strip_feed` raises exactly when the comprehension does, and otherwise gives at least one entry per token of the comprehension |
| PlainFeed.StripFeed | pura/modules/threat_intel.py:133-148 | the loop returns the tokens with each `IP_MULTI` token replaced by its `-`-separated pieces, in order, or the comprehension's IndexError |
| PlainFeed.StrippedAppend | pura/modules/threat_intel.py:133-148 | the feed is normalised line by line: stripping a concatenation concatenates the results (order and duplicates kept), and the first failing line decides the exception |
| PlainFeed.TokensAppend | pura/modules/threat_intel.py:136 | the comprehension over a concatenation is the concatenation of the two comprehensions, and the first failure wins |
| PlainFeed.ExpandAllAppend | pura/modules/threat_intel.py:140-147 | the expansion loop over a concatenation concatenates the two expansions |
| PlainFeed.ExpandAllSnoc | pura/modules/threat_intel.py:140-147 | one more token at the end appends its expansion at the end |
| PlainFeed.StrippedLine | pura/modules/threat_intel.py:136-147 | a line that is empty or starts with `#` gives nothing; a kept all-whitespace line raises IndexError; any other line gives the expansion of its first token |
| PlainFeed.StrippedRaisesIff | pura/modules/threat_intel.py:136 | stripping raises if and only if some kept line is all whitespace |
| PlainFeed.StrippedNoSpace | pura/modules/threat_intel.py:133-148 | no entry of a stripped feed contains whitespace |
| PlainFeed.SplitOnNoSpace | pura/modules/threat_intel.py:144 | the pieces of a whitespace-free token are whitespace-free |
| PlainFeed.ExpandAllNoSpace | pura/modules/threat_intel.py:140-147 | expanding whitespace-free tokens gives whitespace-free entries |
| PlainFeed.RangeLine | pura/modules/threat_intel.py:136-145 | any line `a-b` followed by whitespace and a note, where `a` and `b` hold no `-` or whitespace and the token matches `IP_MULTI`, gives exactly `[a, b]`: the range is not expanded and the note is dropped |
| PlainFeed.RangeToken | pura/modules/threat_intel.py:136 | for any whitespace-free `a` and `b`, the first token of `a-b` followed by a note is `a-b`: it stops at the whitespace before the note |
| PlainFeed.RangeEnds | pura/modules/threat_intel.py:144-145 | for any `a` and `b` without `-`, an `IP_MULTI` token `a-b` gives `[a, b]` |
| PlainFeed.IndentedCommentKept | pura/modules/threat_intel.py:136 | an indented comment line is kept and its `#` token becomes an entry |
| CsvFeed.IndexOf | pura/modules/threat_intel.py:106-109 | `list.index`: the first position holding the value, or none when the value is absent (ValueError) |
| CsvFeed.Column | pura/modules/threat_intel.py:104-112 | the column is the first `url` header, else the first `ip` header, and there is none exactly when neither header is present |
| CsvFeed.Pick | pura/modules/threat_intel.py:114-122 | the rows yield at most one value each |
| CsvFeed.PickIndicators | pura/modules/threat_intel.py:118-120 | every value kept is non-empty and passes the IP or URL test |
| CsvFeed.CsvIndicators | pura/modules/threat_intel.py:99-130 | an empty document yields nothing; otherwise fewer values than lines come out (the header is never emitted), all of them indicators |
| CsvFeed.LineBuffer.PopFront | pura/modules/threat_intel.py:104 | `pop(0)` returns the first line and removes it from the caller's list |
| CsvFeed.ParseCsv | pura/modules/threat_intel.py:99-130 | returns the indicators of the document, and leaves the caller's list without its header line (an empty list is left empty) |
| CsvFeed.CollectColumn | pura/modules/threat_intel.py:114-122 | the loop collects, in row order, the cell of each long enough row that is non-empty and passes the IP or URL test |
| CsvFeed.PickStep | pura/modules/threat_intel.py:114-122 | one more row appends exactly that row's contribution |
| CsvFeed.PickLast | pura/modules/threat_intel.py:114-122 | a row added at the end contributes after all the others |
| CsvFeed.PickAppend | pura/modules/threat_intel.py:114-122 | extraction from a concatenation of rows concatenates the results |
| CsvFeed.PickMembership | pura/modules/threat_intel.py:114-122 | a value is extracted if and only if some row holds it in the chosen column and it is an indicator; short rows are skipped |
| CsvFeed.CsvRows | pura/modules/threat_intel.py:99-130 | under one header, rows keep their order: extraction over `a + b` is extraction over `a`, then over `b` |
| CsvFeed.CsvExample | pura/modules/threat_intel.py:99-130 | a `name,url,date` document yields the URL of its data row |
| CsvFeed.ExampleHeader | pura/modules/threat_intel.py:104 | the header `name,url,date` splits into its three names |
| CsvFeed.ExampleRow | pura/modules/threat_intel.py:115 | a row of three comma-free cells splits into those cells |
| CsvFeed.SplitCell | pura/modules/threat_intel.py:115 | a comma-free cell and its comma come off the front of a row |
| CsvFeed.SplitLast | pura/modules/threat_intel.py:115 | a comma-free last cell is a single piece |
| CsvFeed.CsvNoColumnExample | pura/modules/threat_intel.py:110-112 | a header with neither `url` nor `ip` makes the whole document yield nothing |
| Matcher.MatchStripped | pura/modules/threat_intel.py:153-193 | the result is `(False, 0.0)` or a hit with confidence 1.0, 0.9, 0.7 or 0.6 |
| Matcher.IsInFeed | pura/modules/threat_intel.py:151-193 | raises exactly when the feed cannot be stripped; otherwise `(False, 0.0)` or a hit with one of the four confidences |
| Matcher.ExactOutranksPartial | pura/modules/threat_intel.py:153-168 | the confidence is 1.0 if and only if an exact check fires, and then the result is `(True, 1.0)` |
| Matcher.PartialSevenOnlyForOpaque | pura/modules/threat_intel.py:172-191 | 0.7 is returned only for a host that is neither an IP nor a URL |
| Matcher.OpaqueHost | pura/modules/threat_intel.py:166-193 | a host that is neither IP nor URL gets 1.0 when it is an entry, else 0.7 when it is inside one, else no match |
| Matcher.IpHost | pura/modules/threat_intel.py:153-193 | an IP that is not a URL gets 1.0 when it is an entry, else 0.6 when it is inside one, else no match |
| Matcher.UrlHost | pura/modules/threat_intel.py:157-193 | a URL that is not an IP gets 1.0 when host+path, host or the whole URL is an entry; else 0.9 when host+path is inside an entry; else 0.6 when the host is; else no match |
| Matcher.PathPartialImpliesHostPartial | pura/modules/threat_intel.py:174-183 | whenever the host+path substring check fires, so would the host one, which is why 0.9 must be tried first |
| Matcher.FoundMonotone | pura/modules/threat_intel.py:153-193 | adding entries to a feed never loses a match |
| Matcher.IpExactExample | pura/modules/threat_intel.py:153-156 | an IP listed in the feed matches at 1.0 |
| Matcher.UrlExactExample | pura/modules/threat_intel.py:157-165 | a URL whose host+path, or whose host, is listed matches at 1.0 |
| Matcher.UrlPartialExample | pura/modules/threat_intel.py:173-178 | a URL whose host+path sits strictly inside an entry matches at 0.9 |
| ThreatIntel.Sources | pura/modules/threat_intel.py:222-253 | the feeds are tried as every plain feed in list order, then every CSV feed |
| ThreatIntel.SourcesSplit | pura/modules/threat_intel.py:222-253 | the feed order is the plain feeds followed by the CSV feeds |
| ThreatIntel.SourcesPlain | pura/modules/threat_intel.py:222 | a URL is listed among the sources as a plain feed if and only if it is in the plain list |
| ThreatIntel.FeedListAsWritten | pura/modules/threat_intel.py:15-26 | as written, `FEEDS` gives five sources, and neither the Malware Domain List URL nor the Cybercrime tracker URL is one of them |
| ThreatIntel.FeedListCorrected | pura/modules/threat_intel.py:15-26 | with the comma restored, six sources in listed order, among them both of those URLs |
| ThreatIntel.FirstHit | pura/modules/threat_intel.py:227-233 | a report from the host loop is found, carries the feed URL, and names the stripped form of one of the hosts |
| ThreatIntel.FirstMatchingHost | pura/modules/threat_intel.py:227-233 | the host loop returns the report of the first host that matches, or nothing, or the strip exception |
| ThreatIntel.FirstHitRaises | pura/modules/threat_intel.py:227-233 | the host loop raises if and only if there is a host and the feed cannot be stripped |
| ThreatIntel.FirstHitNone | pura/modules/threat_intel.py:227-233 | a feed reports nothing if and only if every host, stripped, misses it |
| ThreatIntel.FirstHitIsFirst | pura/modules/threat_intel.py:227-233 | a reported host is the first in list order that the feed matches; the report holds its stripped form, `found=True`, the matcher's confidence and the feed URL |
| ThreatIntel.CheckPlainFeed | pura/modules/threat_intel.py:225-235 | a plain feed that fetches to nothing is skipped; otherwise its first matching host is reported |
| ThreatIntel.CheckCsvFeed | pura/modules/threat_intel.py:239-253 | a CSV feed that fetches to nothing, or whose parse yields nothing, is skipped; otherwise its first matching host among the indicators is reported |
| ThreatIntel.IsThreat | pura/modules/threat_intel.py:196-254 | the two feed loops compute the scan over plain then CSV feeds, with the early return and the exception passing through |
| ThreatIntel.IsThreatDefault | pura/modules/threat_intel.py:15-26 | `is_threat(hosts)` scans the configured feeds, with the missing comma restored |
| ThreatIntel.IsThreatAsWritten | pura/modules/threat_intel.py:15-26 | `is_threat(hosts)` scans the feed lists as written, with the two joined URLs as one plain feed |
| ThreatIntel.Scan | pura/modules/threat_intel.py:222-253 | the scan keeps the reports it starts from as a prefix and adds at most one report per feed |
| ThreatIntel.ScanCons | pura/modules/threat_intel.py:222-253 | one feed of the scan: it raises, adds nothing, or appends its report and goes on |
| ThreatIntel.ScanBound | pura/modules/threat_intel.py:222-254 | earlier reports are kept as a prefix; no more reports than hosts and than feeds come out; once there are as many reports as hosts nothing is added (so no hosts give `[]`) |
| ThreatIntel.ScanReports | pura/modules/threat_intel.py:222-253 | every added report is found, has one of the four confidences, and names the first host that a configured feed matches, with that feed's URL |
| ThreatIntel.ScanSplit | pura/modules/threat_intel.py:222-253 | scanning `a + b` is scanning `a`, then `b` from its reports; an exception in `a` ends the scan |
| ThreatIntel.PlainBeforeCsv | pura/modules/threat_intel.py:222-253 | the plain feeds come before every CSV feed in the scan, and the CSV pass starts from what the plain pass returns |
| ThreatIntel.SkippedFeed | pura/modules/threat_intel.py:226-253 | a feed that fetches to nothing, or a CSV feed without indicators, is skipped without effect and later feeds are still tried |
| ThreatIntel.ScanRaises | pura/modules/threat_intel.py:222-253 | the scan raises only when there is a host and some listed feed has a kept all-whitespace line |
| ThreatIntel.WordVerdict | pura/modules/threat_intel.py:151-193 | with no IP, URL or range recognised, a one-word feed matches a host of the same length exactly when they are equal |
| ThreatIntel.DuplicateStopsEarly | pura/modules/threat_intel.py:222-235 | as written, a host matched by two feeds is reported twice, the early stop fires, and a host that a later feed matches is never reported |
| ThreatIntel.FirstPendingHit | pura/modules/threat_intel.py:227-233 | a report from the corrected host loop is found and carries the feed URL |
| ThreatIntel.PendingScan | pura/modules/threat_intel.py:222-253 | the corrected scan keeps the reports it starts from as a prefix and adds at most one report per feed |
| ThreatIntel.FirstPendingHitFresh | pura/modules/threat_intel.py:227-233 | the corrected host loop reports only a host not yet reported, and one of the given hosts |
| ThreatIntel.PendingScanDistinct | pura/modules/threat_intel.py:222-253 | the corrected scan reports each host at most once, and only given hosts |
| ThreatIntel.PendingStopMeansResolved | pura/modules/threat_intel.py:223-224 | with the correction, `len(results) == len(hosts)` means every host has been reported |
| ThreatIntel.PendingResolvesBoth | pura/modules/threat_intel.py:222-235 | on the input that shows the finding, the corrected scan reports both hosts |
| ThreatIntel.PendingHits | pura/modules/threat_intel.py:227-233 | on that input the corrected host loop reports `bad` from feed "a", skips it in feed "b", and reports `good` from feed "c" |
| ThreatIntel.DistinctCard | pura/modules/threat_intel.py:232 | reports naming distinct hosts name as many hosts as there are reports |
| ThreatIntel.StrippedHostsCard | pura/modules/threat_intel.py:227-229 | there are no more stripped hosts than hosts |
| ThreatIntel.StrippedHostsHas | pura/modules/threat_intel.py:227-229 | every host's stripped form is among the stripped hosts |
| JiraClient.Priority | pura/modules/jira_client.py:131-144 | the priority chosen is always a key of `PRIORITIES` and never '4' |
| JiraClient.PriorityTable | pura/modules/jira_client.py:32-38 | malware is Highest, phishing and fraud High, spam Medium, legitimate Lowest, anything else '2' |
| JiraClient.PriorityCaseInsensitive | pura/modules/jira_client.py:134 | classifications equal after lower-casing get the same priority |
| JiraClient.LowerIdempotent | pura/modules/jira_client.py:134 | lower-casing twice is lower-casing once |
| JiraClient.PriorityExample | pura/modules/jira_client.py:134-136 | `MalWare` is recognised as malware |
| JiraClient.Substitutions | pura/modules/jira_client.py:150-157 | six substitution pairs, none with an empty key |
| JiraClient.ParseTemplate | pura/modules/jira_client.py:149-166 | the loop applies the same six `replace` calls in the same key order to both templates |
| JiraClient.ReplaceAllStep | pura/modules/jira_client.py:162-164 | one more pair is one more `replace` on the text so far |
| JiraClient.SummaryFilled | pura/modules/jira_client.py:28 | with no `%` in any value, the summary is `'[' + classification + '] for user ' + recipient` |
| JiraClient.DescriptionFilled | pura/modules/jira_client.py:29 | with no `%` in any value, the description is the template text with the six values in place |
| JiraClient.SummaryPercentFree | pura/modules/jira_client.py:159-166 | with no `%` in any value, the summary holds no `%` afterwards |
| JiraClient.DescriptionPercentFree | pura/modules/jira_client.py:159-166 | with no `%` in any value, the description holds no `%` afterwards |
| JiraClient.NoPlaceholderLeft | pura/modules/jira_client.py:159-166 | with no `%` in any value, no `%key%` placeholder remains in either output |
| JiraClient.FilledPercentFree | pura/modules/jira_client.py:162-164 | substituting clean pairs into a well-formed template whose every placeholder gets a `%`-free value leaves no `%` |
| JiraClient.ReplaceAllRender | pura/modules/jira_client.py:162-164 | substituting distinct placeholders one after another binds each placeholder of the template to its value |
| JiraClient.ReplaceSlots | pura/modules/jira_client.py:163-164 | one `replace` of a placeholder not yet substituted binds it everywhere in the template and changes nothing else |
| JiraClient.ReplaceSlot | pura/modules/jira_client.py:163-164 | one `replace` on one slot: its placeholder is bound when it is the key, and is kept otherwise |
| JiraClient.ReplaceAtKey | pura/modules/jira_client.py:163-164 | the placeholder being replaced gives way to its value |
| JiraClient.ReplaceAtValue | pura/modules/jira_client.py:163-164 | a value substituted earlier is not touched by a later `replace` |
| JiraClient.ReplaceAtOther | pura/modules/jira_client.py:163-164 | a different placeholder still waiting is not touched |
| JiraClient.OtherPlaceholder | pura/modules/jira_client.py:163-164 | replacing one placeholder keeps a different one in front |
| JiraClient.PlaceholderNotPrefix | pura/modules/jira_client.py:150-157 | no placeholder starts with a different placeholder |
| JiraClient.ClosingPercent | pura/modules/jira_client.py:163-164 | the `%` that closes a placeholder cannot open an occurrence of a key |
| JiraClient.MapOfKeys | pura/modules/jira_client.py:150-157 | the map of clean pairs has `%`-free values and only their keys |
| JiraClient.MapOfHolds | pura/modules/jira_client.py:150-157 | with distinct keys, each key maps to its own value |
| JiraClient.SubstitutionPlaceholders | pura/modules/jira_client.py:150-157 | the six keys are `%name%` placeholders |
| JiraClient.SubstitutionKeysDistinct | pura/modules/jira_client.py:150-157 | the six keys are distinct |
| JiraClient.SubstitutionValues | pura/modules/jira_client.py:150-157 | each placeholder is bound to its own argument |
| JiraClient.SummaryWellFormed | pura/modules/jira_client.py:28 | the summary template is text without `%` around placeholders |
| JiraClient.DescriptionWellFormed | pura/modules/jira_client.py:29 | the description template is text without `%` around placeholders |
| JiraClient.SummaryTemplateText | pura/modules/jira_client.py:28 | the summary template is the literal `[%classification%] for user %recipient%` |
| JiraClient.SummaryLayout | pura/modules/jira_client.py:28 | the summary template lays out `[`, the classification, `] for user `, the recipient |
| JiraClient.DescriptionLayout | pura/modules/jira_client.py:29 | the description template lays out its six placeholders in order around its text |
| JiraClient.NotifiedBody | pura/modules/jira_client.py:193-197 | the body starts `Response sent to user `, its length is that of its parts, and a non-empty message ends it |
| JiraClient.NotifiedMessageRecoverable | pura/modules/jira_client.py:195-197 | for one user and channel, the body determines the message, and an empty message cannot be confused with a non-empty one |
| JiraClient.NotifiedDefaults | pura/modules/jira_client.py:193-195 | with no message, the body is the single sentence, via email by default |

## Left out

- `__is_ip`, `__is_url` and the `IP_MULTI` match are uninterpreted predicates, because their regular expressions are in `pura/helpers/regex.py`, which is not part of this model. `urlparse` is an uninterpreted function that may fail.
- `__fetch_feed` is a parameter `url -> Option<seq<string>>`. The HTTP session, the logging of errors, and the unbound `res` after a transport exception are not modelled.
- Logging, the `print(line)` of `__strip_feed` and `main()` are not modelled, because they are output only.
- CsvFeed.ParseCsv: a `response` that is not a list is not modelled, because the model's argument is always a list of lines. The broad `except Exception` only guards code that cannot raise on a list of strings.
- Text.Lower: lower-cases ASCII letters only. No non-ASCII character lower-cases into one of the five classification words, so the table is unaffected.
- Text.Replace: requires a non-empty key. Python's `replace` with an empty key inserts the value between characters, but the six keys are never empty.
- JiraClient.DescriptionFilled: the description template is written as literal text around slots (`DescriptionLead`, `DescriptionSlots`). Its equality with the string literal of line 29 is read off, not proved. The summary template's equality with line 28 is proved (`SummaryTemplateText`).
- The low-confidence override of `create_issue` (pura/modules/jira_client.py:176) is not modelled, because it parses a float from a string and compares it with an environment setting.
- All JIRA API calls are not modelled: `__create_issue`, `__set_priority`, `__assign_user` with its random choice, attachments and comments. The same goes for pura/modules/jira.py, mail_client.py, pura.py, `__main__.py`, the helpers and setup.py.
- `CACHE_FILES` is unused configuration.
- ThreatIntel.IsThreat: models `is_threat` as written, with duplicate reports. The corrected behaviour is `PendingScan`, which no method implements.
- ThreatIntel.IsThreatDefault: scans `FEEDS` with the comma after the Malware Domain List URL restored, so it is not `is_threat` exactly as written. `IsThreatAsWritten` is.

## Findings

| source | as written | input that shows it | evidently intended | confidence | as-written member | corrected member |
|---|---|---|---|---|---|---|
| pura/modules/threat_intel.py:222-253 | a host already reported is matched again against later feeds, so it can be reported twice, and the early return `len(results) == len(hosts)` can then stop the scan before another host is reported | hosts `[bad, good]`, plain feeds "a" and "b" listing `bad` and "c" listing `good`: the result is `bad` twice, and `good` is never reported | skip hosts already reported, so that the early return means every host is resolved | high, not executed | ThreatIntel.DuplicateStopsEarly | ThreatIntel.PendingStopMeansResolved |
| pura/modules/threat_intel.py:20-21 | no comma after the Malware Domain List URL, so Python joins it with the Cybercrime tracker URL into one string, and `FEEDS['plain']` has four entries | `FEEDS['plain']` itself: its fourth entry is the two URLs concatenated, a URL that is never a feed | five plain feeds, as the comments list them | high, not executed | ThreatIntel.FeedListAsWritten | ThreatIntel.FeedListCorrected |
