# Verification of MQ-Sentinel

MQ-Sentinel is a read-only diagnostics server for IBM MQ. This project models its
logic in Dafny and proves what its documentation and tests rely on. `dafny verify
dfyconfig.toml` checks everything.

| file | part of the system |
|---|---|
| `MqscValue`, `MqscParser`, `MqscMessageIds` | the scanner that turns MQSC reply text into attribute rows |
| `MqscPrinter` | a printer for replies, and the proof that parsing undoes it |
| `RateLimit`, `RateLimitThreads` | the per-subject token bucket, alone and under thread interleavings |
| `Audit`, `AuditThreads` | the hash-chained audit log: verifier, writer, resuming constructor, threads |
| `Drbd`, `DrbdPrinter`, `DrbdFindings` | the `drbdadm status` line machine, its line patterns, a printer, and the findings it leads to |
| `Sorting`, `HealthCheck` | stable sorting by (severity, category, issue) and the composite report |
| `Channels`, `Dlq`, `Cluster` | the matchers for channels, dead-letter headers and full repositories |
| `Allowlist`, `CommandTexts`, `ReportTexts`, `Commands`, `ParsedNames` | the read-only command gate, the recommended commands, and which of them pass it |
| `Jwks`, `Rbac`, `Inventories`, `Server`, `ServerRuns` | key-set cache, roles, inventory, and the dispatcher that ties limiter, roles and audit log together |
| `ServerThreads`, `ServerSerial` | calls of the dispatcher in worker threads, and their comparison with calls one after another |
| `PyText`, `Encoding`, `EncodingTells` | Python strings with lone surrogates, what the JSON encoder accepts, and what an encoding tells |
| `Text`, `Seqs`, `Findings`, `Wrappers` | strings with Python's white space and line breaks, sequences, findings, Option and Result |

Objects that the program updates in place (`RateLimiter`, `_Bucket`, `AuditLogger` and its
file, `RealOIDCVerifier`, `MQSentinelServer`, the check log) are classes; loops that fill
lists or dictionaries are methods with loops, each proved equal to a specification
function about which the theorems are then stated. Regular expressions are functions on
text. Clock readings, how token verification and the diagnosis end (a value, an
`Exception`, or something that is none), timestamps and durations are parameters.

The definitions that everything else is stated with, character classes, key names, limits,
texts and tables, are spelled out once more beside the theorems, so that none of them means
only itself: `SpacesAre`, `LineBreaksAre`, `LettersAndDigitsAre` and `UpperCaseIs` in `Text`,
`SurrogatesAre`, `IntegersThatFit`, `GenesisIsZeros`, `RecordKeysAre`, `HashedParametersAre`,
`SearchIsForRepos`, `ReasonIsRead`, `ReportSays`, `LogReportTells`, `DiskFindingTells`,
`SplitBrainFindingTells`, `ShellTexts` and `NothingIsRefused`, besides those of the table below.

Things the proofs brought to light, each stated by a lemma with its exact condition:

- The limiter's window bound holds for clock readings, in any order. For the times at which
  requests are let through it holds in every run only if threads never wait between reading
  the clock and taking the lock, or nothing is refilled or granted at all
  (`LockTimeBoundIff`); otherwise up to the longest wait (`LockTimeBound`).
- An append keeps the audit chain intact exactly when its previous hash is the last one in
  the file and the file does not end in an unfinished line. A file that has lost its final
  newline verifies, and no longer does after the next write; a second logger on the same file
  breaks the chain, too (`AppendKeepsIntactIff`, `LostNewlineBreaksTheChain`,
  `InterleavingKeepsIntactIff`, `SecondLoggerBreaksTheChain`).
- `dispatch` leaves one audit record per call exactly when everything that is hashed or
  written can be encoded; a tool name with a lone surrogate is enough to lose the record and
  the answer (`RecordedIff`, `OneRecordPerCallIff`, `SurrogateToolLeavesNoRecord`).
- A null error in a record does not mean an answer: something outside `Exception`, such as a
  `KeyboardInterrupt`, is recorded with a null error, too (`ErrorIsNullIff`, `EscapesIff`,
  `EscapeLeavesANullError`).
- A refused diagnosis tells a caller who may read nothing whether the name is that of a
  production queue manager, since the refusal names the lacking action; nothing else of the
  inventory shows, and nothing at all in the record (`WithoutRoleToldApartIff`,
  `ProdNameIsTold`).
- The rule that every recommended command must pass the MQSC gate holds for MQSC commands on
  clean names, and never for the commands of DRBD findings (`CommandIsAllowedIff`,
  `DrbdCommandsAreNeverAllowed`).
- A refresh that brings the JSON document `null` is forgotten at once: the next call makes
  a request again (`RequestIffNullOrExpired`).
- Cluster names are compared with upper-cased text, so a cluster with a lower-case letter in
  its name is never seen as served by the local queue manager (`LowerCaseNeedsARow`,
  `ReportedNameCountsIffUpperCase`).
- `message_ids` does not break lines before inline identifiers as the row parser does: there
  are as many identifiers as message lines exactly when no identifier stands inside a line,
  and a reply may have more rows than identifiers (`AsManyIdsIffNothingInline`,
  `SampleHasMoreRowsThanIds`).
- A printed attribute line is taken for a message line exactly when its first key looks like
  a z/OS message identifier (`MessageLineIffCsqKey`).

## Model

| member | source | states |
|---|---|---|
| MqscValue.ReadValue | src/mq_sentinel/connectors/mqsc_parser.py:94-122 | the scan returns the trimmed text up to the first close parenthesis that balances the open one outside quotes, and the index behind it; if there is none, the trimmed rest of the line and its length, plus one if a quote is open |
| MqscValue.SkipQuoted | src/mq_sentinel/connectors/mqsc_parser.py:101-113 | the inner scan over a quoted string, doubled quotes included, ends behind its closing quote or at the end of the line |
| MqscValue.ReadsBackIffBalanced | src/mq_sentinel/connectors/mqsc_parser.py:94-122 | a value followed by a close parenthesis is read back up to exactly that parenthesis, whatever follows, if and only if it is quote- and parenthesis-balanced and trimmed |
| Text.StripTakesTheMiddle | src/mq_sentinel/connectors/mqsc_parser.py:94-122 | stripping takes away exactly the white space on either side |
| Text.LineIsSplitOff | src/mq_sentinel/connectors/mqsc_parser.py:33-34 | splitting into lines takes off the text before the first line break of any kind, CR LF being one |
| Text.WordIsSplitOff | src/mq_sentinel/security/allowlist.py:85-86 | splitting into words takes off the first run of characters that are no white space |
| MqscParser.ParseAttributes | src/mq_sentinel/connectors/mqsc_parser.py:58-91 | the positional scan of a line yields the attributes of its token-by-token reading, with prose rejected and message lines restricted to pairs |
| MqscParser.KeyIsTheLongestRun | src/mq_sentinel/connectors/mqsc_parser.py:23-23 | a key is a capital letter and the longest run of capitals, digits and underscores behind it, the characters written out |
| MqscParser.MessageLineIff | src/mq_sentinel/connectors/mqsc_parser.py:22-22 | a line is a message line if and only if, behind white space, it starts with AMQ, four digits, a capital and a colon, or with CSQ, a capital or digit, three digits and a capital that end a word |
| MqscParser.ProseLineAddsNothing | src/mq_sentinel/connectors/mqsc_parser.py:41-43 | a line whose first character behind white space is no capital letter, such as a command echo or a trailer, leaves the rows of a reply as they are |
| MqscParser.ParseMqscReply | src/mq_sentinel/connectors/mqsc_parser.py:29-46 | the line loop yields the rows of the fold over the reply's lines, telling "no message line yet" from "empty row" |
| MqscParser.ParsingIsCompositional | src/mq_sentinel/connectors/mqsc_parser.py:29-46 | if the first text ends in a line break of any kind and the second starts with a message line, the rows of both texts together are the rows of the first followed by those of the second |
| MqscParser.RowsAreFewAndNonEmpty | src/mq_sentinel/connectors/mqsc_parser.py:29-46 | no row is empty and there are at most as many rows as message lines |
| MqscParser.TextBeforeAddsNothing | src/mq_sentinel/connectors/mqsc_parser.py:38-41 | text without a message line, ended by a line break of any kind, changes no row of the reply behind it |
| MqscPrinter.ParseUndoesPrint | src/mq_sentinel/connectors/mqsc_parser.py:29-91 | parsing the printed form of any legal list of blocks gives the blocks' rows in order; blanks and line breaks may stand anywhere between tokens and at line ends, are needed only behind keywords, and keys may repeat |
| MqscPrinter.RowLooksUpLastToken | src/mq_sentinel/connectors/mqsc_parser.py:39-43 | a block's row maps a key to the value of its last token in the block, else to what the message line gives |
| MqscPrinter.MessageLineIffCsqKey | src/mq_sentinel/connectors/mqsc_parser.py:22-22 | a printed attribute line matches the message-line pattern exactly when its first key is shaped like a z/OS identifier |
| MqscMessageIds.MessageIds | src/mq_sentinel/connectors/mqsc_parser.py:49-55 | the loop collects one identifier per message line, in order |
| MqscMessageIds.IdIsTheEightCharacters | src/mq_sentinel/connectors/mqsc_parser.py:49-55 | the identifier given for a message line is its first eight characters exactly when white space, a colon or the end of the line follows them |
| MqscMessageIds.AsManyIdsIffNothingInline | src/mq_sentinel/connectors/mqsc_parser.py:33-55 | for every reply there are at most as many identifiers as message lines of the parsed reply, and as many if and only if no identifier with its colon stands inside a line, behind blanks and other text |
| MqscMessageIds.EachBreakAddsAMessage | src/mq_sentinel/connectors/mqsc_parser.py:24-35 | every line break put before an inline identifier adds exactly one message line |
| MqscMessageIds.UnchangedIffNothingInline | src/mq_sentinel/connectors/mqsc_parser.py:24-33 | a reply is left unbroken if and only if nowhere in it does an identifier with its colon follow blanks and a non-space character |
| MqscMessageIds.InlineMessageAddsARow | src/mq_sentinel/connectors/mqsc_parser.py:29-55 | two messages with attributes on one line are two rows but give a single identifier |
| MqscMessageIds.SampleHasMoreRowsThanIds | src/mq_sentinel/connectors/mqsc_parser.py:29-55 | some reply has more rows than identifiers |
| RateLimit.RateLimiter.Allow | src/mq_sentinel/security/ratelimit.py:25-39 | a call is decided exactly as its key's own requests decide it, and no other key's bucket changes |
| RateLimit.MinuteEarnsTheRate | src/mq_sentinel/security/ratelimit.py:27-34 | in any sixty seconds a bucket gains exactly the configured rate per minute |
| RateLimit.TokensAreLeastBudget | src/mq_sentinel/security/ratelimit.py:25-39 | the refilled token count is the minimum, over all calls k so far, of burst plus refill since k minus what was granted since k, for arbitrary call times |
| RateLimit.AdmittedIffWithinEveryBudget | src/mq_sentinel/security/ratelimit.py:36-39 | a request is admitted if and only if its cost is within every such budget |
| RateLimit.DecisionsAreTheGreedyOnes | src/mq_sentinel/security/ratelimit.py:25-39 | the decisions are the one and only sequence that grants a request exactly when no interval ending there is overdrawn |
| RateLimit.ConformingStreamIsGrantedWhole | src/mq_sentinel/security/ratelimit.py:25-39 | a stream is granted whole if and only if its demand over every interval is at most burst plus refill |
| RateLimit.WindowBound | src/mq_sentinel/security/ratelimit.py:26-39 | the cost granted to clock readings in a window is at most burst + length * rate / 60, whatever the order in which they reach the bucket |
| RateLimit.BalancesAppend | src/mq_sentinel/security/ratelimit.py:28-39 | one more call changes the balance of its own key only |
| RateLimit.PrefixDecides | src/mq_sentinel/security/ratelimit.py:25-39 | later calls never change earlier decisions |
| RateLimitThreads.EveryInterleavingIsBounded | src/mq_sentinel/security/ratelimit.py:26-39 | the same bound for every interleaving of threads that read the clock before taking the lock |
| RateLimitThreads.LockTimeBound | src/mq_sentinel/security/ratelimit.py:26-39 | for windows of lock times the bound holds with the window extended by the longest delay between reading and lock |
| RateLimitThreads.LockTimeBoundIff | src/mq_sentinel/security/ratelimit.py:26-39 | every window of lock times of every run with waits up to a given delay keeps the unextended bound if and only if the delay, the rate or the burst is zero |
| RateLimitThreads.StallBreaksTheBound | src/mq_sentinel/security/ratelimit.py:26-39 | for every positive rate, burst and delay there is a run whose lock times exceed the bound |
| Audit.VerifyChain | src/mq_sentinel/audit/logger.py:83-102 | the loop gives the verdict of the line-by-line specification, with the line at which it stops |
| Audit.IntactIffChained | src/mq_sentinel/audit/logger.py:83-102 | a file is accepted if and only if every line is blank or a record and each record carries its own hash and the hash its predecessors end in |
| Audit.PrefixIsIntact | src/mq_sentinel/audit/logger.py:83-102 | verification is prefix-closed |
| Audit.RejectionNamesTheFirstBadLine | src/mq_sentinel/audit/logger.py:89-100 | the line at which verification stops, reported for the two chain errors, ends the shortest prefix that is not intact |
| Audit.LastHashPinsTheLog | src/mq_sentinel/audit/logger.py:83-102 | a file that verifies and ends in the retained last hash holds the original records, given a collision-free hash that never yields the genesis value |
| Audit.LoadsTheEndHash | src/mq_sentinel/audit/logger.py:41-56 | on an intact file a new logger loads the hash of the last record |
| Audit.AuditLogger.Load | src/mq_sentinel/audit/logger.py:41-56 | the loop finds the last non-blank line and its hash; genesis for an empty or undecodable one, an error for one that is no object |
| Audit.AppendKeepsIntactIff | src/mq_sentinel/audit/logger.py:70-80 | appending a sealed record keeps a file intact if and only if it links to the hash a fresh logger would load and the file does not end in an unfinished line other than plain white space |
| Audit.LostNewlineBreaksTheChain | src/mq_sentinel/audit/logger.py:41-80 | a file that verifies and has lost its final newline stops verifying with the next write, and a restart then loads the genesis value |
| Audit.RecordEncodesIff | src/mq_sentinel/audit/logger.py:58-73 | the encoder accepts a record exactly when its event has no lone surrogate and a duration of at most 64 bits |
| Audit.AuditLogger.Write | src/mq_sentinel/audit/logger.py:58-80 | a write that cannot be encoded raises and changes nothing; any other appends the sealed record behind what the file ends in, where each of its nine fields holds its part of the event and it links to the previous hash; a file that verifies stays in step with the logger exactly when it was in step |
| Audit.AppendedTellsEvent | src/mq_sentinel/audit/logger.py:58-69 | what the appended record holds under ts, actor, tenant, tool, target_qm, params_hash, outcome, duration_ms and error |
| AuditThreads.EveryInterleavingKeepsTheLog | src/mq_sentinel/audit/logger.py:58-80 | from a file that verifies and does not end in an unfinished line, every interleaving of writers on one logger, with restarts, leaves an intact file with every appended event exactly once and a memory equal to what a fresh logger loads |
| AuditThreads.InterleavingKeepsIntactIff | src/mq_sentinel/audit/logger.py:58-80 | from any file that verifies, an interleaving leaves a file that verifies if and only if it appends nothing or the file did not end in an unfinished line |
| AuditThreads.SecondLoggerBreaksTheChain | src/mq_sentinel/audit/logger.py:36-39 | two loggers opened on the same intact file: after both have written, the file is intact exactly when the first record happens to hash to the value both had loaded and had a line of its own |
| Drbd.ParseDrbd | src/mq_sentinel/tools/rdqm.py:186-263 | the line machine with its pending peer equals the block-structured specification |
| Drbd.EntriesByLine | src/mq_sentinel/tools/rdqm.py:222-249 | one entry per peer header below a resource header, in order, with the nearest resource above and the last detail line before the next header |
| Drbd.DrbdEntriesByLine | src/mq_sentinel/tools/rdqm.py:186-263 | the same for whole texts, with the placeholder exactly for a marker without entries |
| DrbdPrinter.ResourceIffMatch | src/mq_sentinel/tools/rdqm.py:38-40 | a line is read as a resource header with given fields if and only if it decomposes as the pattern says |
| DrbdPrinter.PeerIffMatch | src/mq_sentinel/tools/rdqm.py:41-41 | the same for peer headers |
| DrbdPrinter.DetailIffMatch | src/mq_sentinel/tools/rdqm.py:42-44 | the same for peer details |
| Drbd.MarkerIffMatch | src/mq_sentinel/tools/rdqm.py:45-45 | a text has the split-brain marker if and only if somewhere in it split and brain are spelled in the letter forms listed, with at most one character between them that is no line feed |
| DrbdPrinter.ParseUndoesPrint | src/mq_sentinel/tools/rdqm.py:186-263 | parsing a printed list of resource blocks gives back their flattened peers, whatever the indentation, gaps and trailing white space of each line |
| DrbdFindings.DiagnoseDrbd | src/mq_sentinel/rcs/matchers/rdqm.py:221-382 | with the marker the findings are one split-brain finding per pair, or a single one, and nothing else; without it, one connection finding per pair not Connected, then one per side with a bad disk |
| DrbdFindings.CriticalIffSplitBrain | src/mq_sentinel/rcs/matchers/rdqm.py:221-271 | a finding is CRITICAL if and only if the text matches that pattern, and then all findings are |
| DrbdFindings.SplitBrainTextIsCritical | src/mq_sentinel/rcs/matchers/rdqm.py:221-271 | a text with split-brain, split brain or splitbrain in it has findings, all of them CRITICAL |
| DrbdFindings.ConnectionReportTells | src/mq_sentinel/rcs/matchers/rdqm.py:274-333 | which connection states are reported, which of them as HIGH, and what such a finding says and advises |
| DrbdFindings.DiskReportTells | src/mq_sentinel/rcs/matchers/rdqm.py:336-382 | which disk states are reported, local side first |
| DrbdFindings.ReportCounts | src/mq_sentinel/rcs/matchers/rdqm.py:221-382 | the number and the severities of the findings of either report |
| DrbdFindings.PeersAreTheHeaderLines | src/mq_sentinel/tools/rdqm.py:222-249 | there are as many pairs as peer headers below some resource header |
| DrbdFindings.PeersComeFromPeers | src/mq_sentinel/tools/rdqm.py:38-44 | connection states of parsed pairs are non-empty and trimmed, and every pair carries the marker of the whole text |
| DrbdFindings.CheckSplitBrain | src/mq_sentinel/rcs/matchers/rdqm.py:221-271 | the loop reports each flagged entry |
| DrbdFindings.CheckConnection | src/mq_sentinel/rcs/matchers/rdqm.py:274-333 | the loop reports each unflagged entry whose state is neither empty nor Connected, HIGH for the bad states |
| DrbdFindings.CheckDiskState | src/mq_sentinel/rcs/matchers/rdqm.py:336-382 | the nested loop reports each bad side of each unflagged entry |
| Sorting.StableSortIff | src/mq_sentinel/tools/health_check.py:106-106 | a list is the stable sort of another if and only if it is sorted and has, for every key, the same elements in the same order |
| Sorting.KeyLeIsTotalOrder | src/mq_sentinel/tools/health_check.py:179-185 | the keys are totally ordered, issues compared character by character |
| Sorting.StringLeIff | src/mq_sentinel/tools/health_check.py:179-185 | strings are ordered by the first character in which they differ, a prefix before its extensions |
| Sorting.PermutationSortsToSameKeys | src/mq_sentinel/tools/health_check.py:106-106 | permuted input sorts to the same sequence of keys |
| Sorting.DistinctKeysArriveInAnyOrder | src/mq_sentinel/tools/health_check.py:106-106 | items with distinct keys may be permuted without changing the sorted list |
| Sorting.SortPermutes | src/mq_sentinel/tools/health_check.py:106-106 | sorting neither loses nor adds an item |
| HealthCheck.FullHealthCheck | src/mq_sentinel/tools/health_check.py:70-125 | the report of three check outcomes: sorted findings, their summary, which checks ran and which were skipped |
| HealthCheck.BuildSummary | src/mq_sentinel/tools/health_check.py:188-223 | the counting loops give the exact number of findings per severity and category, the overall status and the first five issues |
| HealthCheck.EachCheckIsKeptWhole | src/mq_sentinel/tools/health_check.py:70-106 | per category the report holds exactly what the check returned, nothing if it failed |
| HealthCheck.OverallIsTheFirstSeverity | src/mq_sentinel/tools/health_check.py:205-215 | for a sorted list the overall status is the first finding's severity; INFO or nothing gives OK |
| HealthCheck.CountsSumToTotal | src/mq_sentinel/tools/health_check.py:188-223 | the counts per severity and per category each add up to the number of findings |
| HealthCheck.TopIssuesAreTheWorst | src/mq_sentinel/tools/health_check.py:195-203 | with more than five findings the top issues are the first five and nothing behind them is more severe |
| HealthCheck.TopIssuesAreTheFirst | src/mq_sentinel/tools/health_check.py:195-203 | the top issues tell severity, category and issue of the first five findings, or of all if there are fewer |
| HealthCheck.ReportIsOrdered | src/mq_sentinel/tools/health_check.py:179-185 | in a report no finding stands behind a less severe one, nor among equally severe ones behind a later category, channels, dlq, cluster, nor within one behind a later issue |
| HealthCheck.ArrivalOrderKeepsTheKeys | src/mq_sentinel/tools/health_check.py:106-106 | the report's (severity, category, issue) sequence does not depend on the order of arrival |
| HealthCheck.CodeOrderDoesNotMatter | src/mq_sentinel/rcs/matchers/channels.py:79-103 | the whole report is the same for every order in which the set of AMQ codes is visited |
| Channels.MatchChannelFailures | src/mq_sentinel/rcs/matchers/channels.py:33-105 | the findings are those of the rows in order, then one per documented code of the log in some order, each once |
| Channels.MatchChannelRows | src/mq_sentinel/rcs/matchers/channels.py:49-76 | the row loop with its early continues reports each row by the first condition that applies |
| Channels.RowIsRead | src/mq_sentinel/rcs/matchers/channels.py:49-60 | which columns give name, status and doubt, an empty value counting as absent |
| Channels.ReportTells | src/mq_sentinel/rcs/matchers/channels.py:59-76 | exactly when a row is reported, and with which severity, reason code and message code |
| Channels.ReportAdvises | src/mq_sentinel/rcs/matchers/channels.py:108-272 | the commands of the finding for each case |
| Channels.OtherTextIsNoInteger | src/mq_sentinel/rcs/matchers/channels.py:52-56 | a reason with any character but digits, underscores and a leading sign is not read |
| Channels.IntReadsDecimal | src/mq_sentinel/rcs/matchers/channels.py:52-56 | a reason code is read back from its decimal notation, with or without a plus sign and white space around it |
| Channels.CodesAreTheMatches | src/mq_sentinel/rcs/matchers/channels.py:16-20 | the codes extracted are exactly the matches of the pattern in the log, each without its severity letter |
| Channels.MatchesIff | src/mq_sentinel/rcs/matchers/channels.py:16-16 | the pattern told by its characters |
| Dlq.MatchDlqFindings | src/mq_sentinel/rcs/matchers/dlq.py:46-77 | the depth finding, one finding per non-zero reason in strictly increasing order over exactly its headers, then the backout finding |
| Dlq.DepthReportTells | src/mq_sentinel/rcs/matchers/dlq.py:80-106 | the depth finding: its severity by depth, its text and its commands |
| Dlq.ReasonReportTells | src/mq_sentinel/rcs/matchers/dlq.py:134-158 | a reason finding: its severity by reason, its count and its text |
| Dlq.ReasonReportAdvises | src/mq_sentinel/rcs/matchers/dlq.py:263-292 | the fix steps for each reason, on the destination that occurs most often |
| Dlq.BackoutReportTells | src/mq_sentinel/rcs/matchers/dlq.py:70-77 | messages backed out five times or more are reported, with their number |
| Dlq.GroupByReason | src/mq_sentinel/rcs/matchers/dlq.py:59-63 | the grouping loop gives each occurring reason the headers with that reason, in order |
| Dlq.MatchReasons | src/mq_sentinel/rcs/matchers/dlq.py:65-68 | the sorted loop reports each non-zero reason once, in increasing order |
| Dlq.ReasonFindingsConserveHeaders | src/mq_sentinel/rcs/matchers/dlq.py:59-68 | the counts of the reason findings and the headers without a reason add up to the sample, and no finding counts nothing |
| Dlq.MostCommonIsFirstMaximum | src/mq_sentinel/rcs/matchers/dlq.py:143-149 | the destination named occurs at least as often as any other, and more often than those seen before it |
| Cluster.SelfFullRepoClusters | src/mq_sentinel/rcs/matchers/cluster.py:325-343 | the scan terminates and collects exactly the trimmed non-empty names of those REPOS(...) occurrences in the upper-cased text that do not lie inside an earlier one |
| Cluster.CheckFullRepos | src/mq_sentinel/rcs/matchers/cluster.py:58-122 | one finding per unserved cluster, in the order the clusters first appear |
| Cluster.RowIsRead | src/mq_sentinel/rcs/matchers/cluster.py:66-73 | which columns give the cluster and whether a row is a full repository |
| Cluster.ReportTells | src/mq_sentinel/rcs/matchers/cluster.py:78-97 | what the finding for a cluster says and advises |
| Cluster.GroupByCluster | src/mq_sentinel/rcs/matchers/cluster.py:66-70 | the grouping loop gives each cluster its rows, clusters in order of first appearance, blank names dropped |
| Cluster.ReportedOnceIffUnserved | src/mq_sentinel/rcs/matchers/cluster.py:58-122 | a cluster is reported exactly once if it occurs, none of its rows has QMTYPE REPOS and the reply does not name it; otherwise not at all |
| Cluster.LowerCaseNeedsARow | src/mq_sentinel/rcs/matchers/cluster.py:330-341 | a cluster with a lower-case letter is reported whatever the reply says, unless a row is a full repository |
| Cluster.ReportedNameCountsIffUpperCase | src/mq_sentinel/rcs/matchers/cluster.py:330-341 | a reply with REPOS(name) outside an earlier REPOS(...), whatever stands around it, serves the cluster exactly when the name has no lower-case letter |
| Allowlist.AllowedIffReadOnly | src/mq_sentinel/security/allowlist.py:70-98 | a command is allowed if and only if it has no semicolon, CR, LF or NUL and what stands before its first comment mark is a DISPLAY, DIS or PING CHANNEL |
| Allowlist.AllowedIffVerb | src/mq_sentinel/security/allowlist.py:70-98 | the same with characters and words written out: which four characters are forbidden, where comments begin, and which words may come first |
| Allowlist.DeniedVerbsAre | src/mq_sentinel/security/allowlist.py:24-46 | the nineteen verbs that are refused by name |
| Allowlist.StrippingKeepsTheFront | src/mq_sentinel/security/allowlist.py:50-67 | on a single line, comment stripping keeps exactly the text before the first * or -- |
| Commands.CommandIsAllowedIff | src/mq_sentinel/rcs/engine.py:54-56 | every command a modelled matcher can recommend is allowed exactly when it is MQSC and the object name in it has no semicolon, CR, LF or NUL |
| Commands.DrbdCommandsAreNeverAllowed | src/mq_sentinel/rcs/engine.py:54-56 | no fix step and no verify command of any DRBD finding of any status text is allowed by that gate |
| Commands.ChannelCommandsAllowedIffClean | src/mq_sentinel/rcs/matchers/channels.py:108-272 | the same for all commands of any channel finding |
| Commands.LogCommandsAllowed | src/mq_sentinel/rcs/matchers/channels.py:94-98 | the commands of log findings are always allowed |
| Commands.DepthCommandsAllowedIffClean | src/mq_sentinel/rcs/matchers/dlq.py:101-106 | the same for the depth finding and the queue name |
| Commands.ReasonCommandsAllowedIffClean | src/mq_sentinel/rcs/matchers/dlq.py:133-292 | the same for reason findings, the queue name and the most common destination |
| Commands.BackoutCommandsAllowedIffClean | src/mq_sentinel/rcs/matchers/dlq.py:309-313 | the same for the backout finding |
| Commands.ClusterCommandsAllowedIffClean | src/mq_sentinel/rcs/matchers/cluster.py:93-97 | the same for the full-repository finding |
| ReportTexts.ChannelStatusTexts | src/mq_sentinel/rcs/matchers/channels.py:125-133 | the text of these commands, written out |
| ReportTexts.ChannelTexts | src/mq_sentinel/rcs/matchers/channels.py:191-197 | the text of these commands, written out |
| ReportTexts.QueueDepthTexts | src/mq_sentinel/rcs/matchers/dlq.py:101-106 | the text of these commands, written out |
| ReportTexts.QueueTexts | src/mq_sentinel/rcs/matchers/dlq.py:263-292 | the text of these commands, written out |
| ReportTexts.ClusterTexts | src/mq_sentinel/rcs/matchers/cluster.py:93-97 | the text of these commands, written out |
| ReportTexts.ManagerTexts | src/mq_sentinel/rcs/matchers/channels.py:125-133 | the text of these commands, written out |
| ReportTexts.ConditionTexts | src/mq_sentinel/rcs/matchers/channels.py:94-98 | the text of these commands, written out |
| ParsedNames.ParsedValuesHaveNoBreak | src/mq_sentinel/connectors/mqsc_parser.py:29-91 | no value of a parsed row contains a line boundary |
| ParsedNames.ParsedChannelCommandsAllowedIff | src/mq_sentinel/rcs/engine.py:54-56 | for a channel row parsed from a reply, every recommended command is allowed exactly when the name has no semicolon and no NUL |
| Jwks.RealOidcVerifier.GetJwks | src/mq_sentinel/auth/oidc.py:142-160 | when a request is made, what is served and what is cached in each case |
| Jwks.RequestIffNullOrExpired | src/mq_sentinel/auth/oidc.py:145-155 | after a refresh, a call makes a request exactly when the refresh brought null or is at least one lifetime old |
| Jwks.RefreshesAreSpaced | src/mq_sentinel/auth/oidc.py:142-160 | successive refreshes are at least one lifetime apart unless the earlier brought null |
| Jwks.RefreshRateIsBounded | src/mq_sentinel/auth/oidc.py:142-160 | n + 1 refreshes of a run take at least n lifetimes |
| Jwks.LastRefreshIsCached | src/mq_sentinel/auth/oidc.py:151-155 | what is cached is what the last refresh brought |
| Jwks.StaleOnlyAfterFailure | src/mq_sentinel/auth/oidc.py:147-159 | keys past their lifetime are served only without a URL or when this call's request failed |
| Rbac.Authorize | src/mq_sentinel/auth/rbac.py:37-46 | the loop over the roles grants an action exactly when some role does, and a refusal names the caller and that action |
| Rbac.RolesGrant | src/mq_sentinel/auth/rbac.py:23-30 | each action is granted exactly to the holders of the roles named; a role of any other name grants nothing |
| Inventories.LooksUpTheLast | src/mq_sentinel/inventory/registry.py:16-24 | of several entries with one name the last is looked up |
| Inventories.NamesStandAsFirstSeen | src/mq_sentinel/inventory/registry.py:16-30 | the entries stand in the order in which their names are first seen |
| Server.MqSentinelServer.Dispatch | src/mq_sentinel/server.py:380-460 | each call ends as the calls before it decide, an exception with what its message is made from; it passes the limiter at most once, appends its one record if everything in it can be encoded, and keeps limiter and chain in step with the run |
| Server.MqSentinelServer.Guarded | src/mq_sentinel/server.py:387-444 | the guarded part sets its variables so that error is null exactly when a result was returned or something outside Exception escaped, and outcome is ok exactly when a result was returned |
| Encoding.EncodesIff | src/mq_sentinel/server.py:64-66 | a JSON value is encoded if and only if its integers fit in 64 bits, its strings and keys have no lone surrogates and its nesting is within the encoder's |
| EncodingTells.EncodesAlikeIff | src/mq_sentinel/server.py:64-66 | two values are encoded alike if and only if they are the same scalar, lists encoded alike item by item, or objects mapping the same keys to values encoded alike, in whatever order their members stand |
| Server.MqSentinelServer.ReadableEntries | src/mq_sentinel/server.py:214-242 | the health loop keeps exactly the entries the caller may read |
| Server.MqSentinelServer.constructor | src/mq_sentinel/server.py:116-132 | a new dispatcher starts with a fresh limiter whose burst equals its rate and resumes the chain of the file |
| ServerRuns.ErrorIsNullIff | src/mq_sentinel/server.py:388-460 | the recorded error is null exactly when a result was returned or something outside Exception escaped; the recorded outcome is ok exactly when a result was returned, and denied exactly when the limiter refused an authenticated caller |
| ServerRuns.ErrorNamesTheClass | src/mq_sentinel/server.py:441-459 | the recorded error is the class name of the exception that the caller sees |
| ServerRuns.EscapesIff | src/mq_sentinel/server.py:387-460 | something outside Exception gets away if and only if the call can be recorded and it comes from verifying the token, or from a diagnosis that is reached, passes, exists and is permitted |
| ServerRuns.EscapeLeavesANullError | src/mq_sentinel/server.py:441-460 | a diagnosis left by something outside Exception leaves a record with a null error although nothing was returned |
| ServerRuns.ToolsLeadTo | src/mq_sentinel/server.py:398-438 | what each tool name leads to before any role is checked, and which parameter errors come first |
| ServerRuns.DiagnosisNeedsRole | src/mq_sentinel/server.py:244-378 | a returned diagnosis is the one asked for, of a queue manager of the inventory, and its caller holds prod-read or admin-audit, or, outside prod, nonprod-read |
| ServerRuns.HealthListsTheReadable | src/mq_sentinel/server.py:214-242 | an entry is listed exactly when the caller holds one of the roles named for its environment |
| ServerRuns.RefusalNamesTheAction | src/mq_sentinel/server.py:244-258 | without the non-prod right every diagnosis is refused, and the refusal names read:prod exactly when the inventory has a production queue manager of that name, else read:nonprod |
| ServerRuns.WithoutRoleToldApartIff | src/mq_sentinel/server.py:244-258 | for an authenticated caller without the non-prod right, two inventories lead to different endings if and only if the call passes, can be recorded, reaches a diagnosis and names a production queue manager of exactly one of them; the record is the same in every case |
| ServerRuns.ProdNameIsTold | src/mq_sentinel/auth/rbac.py:37-46 | the inputs that show it: a production queue manager of that name against an empty inventory |
| ServerRuns.HealthHidesInventoryIff | src/mq_sentinel/server.py:214-242 | the health answer is the same for every inventory exactly for callers without the non-prod right |
| ServerRuns.RecordedIff | src/mq_sentinel/server.py:445-460 | a call leaves a record exactly when its parameters are encodable, its tool name, subject and tenant have no lone surrogates and its duration fits in 64 bits, whatever the call ends in |
| ServerRuns.SurrogateToolLeavesNoRecord | src/mq_sentinel/server.py:445-460 | a tool name with a lone surrogate leaves no record although its parameters are encodable |
| ServerRuns.OneRecordPerCallIff | src/mq_sentinel/server.py:445-460 | a run leaves at most one record per call, and exactly one per call if and only if every call meets that condition |
| ServerRuns.RecordTellsCall | src/mq_sentinel/server.py:445-460 | what a record holds under each of its nine keys, in terms of the call |
| ServerRuns.RecordsFollowTheCalls | src/mq_sentinel/server.py:445-460 | in such a run the i-th record behind those the file held tells of the i-th call: time, actor, tenant, tool, queue manager, parameters, outcome, duration and error |
| ServerRuns.ParamsHashTells | src/mq_sentinel/server.py:64-66 | two records carry the same hash of parameters if and only if the parameters are encoded alike, unless the hash collides on them |
| ServerRuns.EverySubjectIsBounded | src/mq_sentinel/server.py:393-396 | in any window a subject's authenticated non-denied calls number at most burst + length * rate / 60 |
| ServerThreads.EveryInterleavingKeepsTheRecords | src/mq_sentinel/server.py:495-508 | for every interleaving of worker threads the file verifies, and holds behind what it held one record per thread that got the logger's lock, each with its own call and decision; the decisions are those of calls made one at a time in the order of the limiter's lock, and only calls that cannot be written are lost |
| ServerThreads.SettledRunsRecordWhatTheyCan | src/mq_sentinel/server.py:445-460 | once all threads have ended, those recorded, each once, are exactly those whose calls can be written |
| ServerThreads.EveryInterleavingIsBounded | src/mq_sentinel/server.py:393-396 | for every interleaving, the threads of a subject that pass with a clock reading in a window number at most burst + length * rate / 60 |
| ServerSerial.EveryInterleavingIsSerial | src/mq_sentinel/server.py:380-460 | for every settled interleaving there is an order of its calls such that dispatching them one after another makes the same decisions and leaves the same multiset of records |

## Left out

- Floating-point rounding in the limiter: tokens and times are exact reals.
- Non-ASCII digits and letters in patterns, `upper()` and `int()`: of the case mappings, those of the ASCII letters and of U+0131 and U+017F, which become I and S, are modelled, and not those that give several characters; white space and line boundaries are complete, and the split-brain search folds the three non-ASCII letters that match it.
- The bytes of JSON, SHA-256 and the form of timestamps: records are field maps, the hash is any function of the map without its own hash, and collision-freeness is a hypothesis where it is needed. How deep the encoder lets containers be nested is a parameter.
- Disk errors, and failures of the diagnostic logging in `dispatch`.
- Encoding.EncodesIff: is about sequences of tokens, not bytes; it covers the JSON values that requests can bring; NaN and infinities, which are encoded as null, count as numbers.
- Two processes writing one audit file are covered by the case of a second logger; interleavings of several loggers are not enumerated further.
- ServerThreads.EveryInterleavingKeepsTheRecords: takes the limiter's and the logger's critical sections as single steps, which their locks make them; restarts are covered by `AuditThreads` only.
- Values in dictionaries are strings in the row matchers; rows with other value types, which only fixtures can bring, are not modelled.
- RateLimit.RateLimiter.Allow: is the part of `allow` under the lock; the clock reading before it is a parameter, and refill, test and charge are in `Bucket.Take`.
- Some inner parts are methods of their own: the quoted-string loop of `_read_value`, the word-skipping loop of the attribute scanner, the inner loop of the disk check, the row loop of the channel matcher, the reason loop of the dead-letter matcher, the top-issue loop of the summary, and the guarded and the final part of `dispatch`.
- HealthCheck.FullHealthCheck: takes the outcomes of the three checks as parameters; connecting, topology detection, raw evidence, durations and sanitising are not modelled.
- Dlq.MatchDlqFindings: gives issues, severities, codes and commands; evidence strings, root-cause prose, links and remediation texts are left out, as in all findings.
- Four of the five cluster checks: stale entries, suspended members, unhealthy channels and self-only membership, which are single-branch checks.
- Server.MqSentinelServer.Dispatch: takes how verification and the diagnosis end as part of the call; JWT signature checks, key selection and claim extraction are done by a library. An exception is its class and what its message is made from, without the exceptions it was raised in; `JSONEncodeError` stands for the encoder's.
- The algorithm inside `sorted`, which is modelled as a stable insertion sort and characterised as the only stable sort.
- The shell gate, the other matchers (Pacemaker, native HA, z/OS, multi-instance), topology detection, the Knowledge Center table, the sanitiser, inventory loading, secrets, connectors, HTTP, CLI and telemetry.
