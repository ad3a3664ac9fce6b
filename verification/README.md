# A verified model of the blackbox exporter's stateful cores

The blackbox exporter probes endpoints over HTTP, TCP, Unix sockets, DNS and ICMP. Most of its code
passes work on to libraries. This project models the parts that keep state or do arithmetic of their
own, and proves what they promise, for all inputs and over all runs:

| module | what it models |
|---|---|
| `ResultHistories` | the two bounded history slices, with Go slices as backing array plus length |
| `LineScanner`, `Dialogue`, `DialogueLines`, `DialogueBytes` | the query/response interpreter over a chunked byte stream, with the buffered line scanner made explicit |
| `IcmpEcho`, `IcmpNetwork` | recognising an echo reply byte by byte; concurrent probes as a transition system |
| `HttpTrace` | the round-trip trace hooks, the order in which they fire, and the phase durations |
| `GostFallback`, `HttpClient` | the GOST dialer and retry, the redirect loop, the choice of transport |
| `HttpVerdict` | the size-limited, counted body reader and the verdict on a response |
| `AcceptEncoding`, `ConfigReload`, `HttpHost` | configuration: encoding negotiation, checksum-gated reload, isolation of shared headers |
| `IpAddress`, `TlsExpiry`, `DnsValidation` | address choice and hash, expiry aggregation, record validation |

Loops and objects of the program are methods and classes here; each is proved against a
specification function or a quantified condition, and the laws are lemmas about those.

Regular expressions, CEL, JSON, YAML, checksums, decompression, the resolver, the network and the TLS
handshake appear as function parameters or as outcomes chosen freely by the environment.

## What is proved

* **History.** The two bounded slices are exactly the tails of the unbounded log (`RunIsTail`), and
  every listing ever handed out stays unchanged for the life of the history (part of the class
  invariant), because the append in `List` never happens in place. That in turn holds for every run
  and every limit if and only if append growth from nil at most doubles (`ListAlwaysCopiesIff`). The
  condition concerns only capacities reached from nil: the slices made by `make` and `copy` may grow
  in any way. Under any policy that breaks it a listing is overwritten (`ListingOverwritten`).
* **Dialogue.** For scripts of expects and sends, the report depends only on the byte stream and its
  ending, never on the chunks, overlong lines included (`ChunkingIrrelevant`). Such a script passes if
  and only if its patterns can be assigned to matching lines in increasing order, at most one entry is
  labelled, the texts it has to send can be written, and the metric registry accepts the labels it
  expands (`PassesIffAssignable`), so the greedy search is complete. A script with at most one labelled
  and one upgrading entry panics if and only if the registry refuses its labels (`PanicsIff`). A script of `expect_bytes` and sends passes if and only if the stream begins with the
  expected texts, no chunk ends within one of them, and its writes succeed (`BytesPassIff`). A TLS
  upgrade forgets all plaintext (`UpgradeForgetsPlaintext`). `expect_bytes` looks behind the scanner's
  read-ahead (`ExpectBytesExamines`): with no `expect` since the last upgrade it sees exactly the next
  unread bytes (`ExpectBytesSeesNext`), but in or after an entry with an `expect` it never succeeds if
  all of the response arrives in one chunk of at most 4096 bytes (`ExpectStarvesExpectBytes`). That
  bound is exact (`LongerChunkPasses`). What a passing script sends and registers is stated in terms
  of the lines it matches (`PassingReport`), and exactly when an upgrade lets a script pass in terms of
  configuration and handshake (`UpgradePassesIff`).
* **ICMP.** In every interleaving over a lossy, duplicating, reordering network a probe accepts only
  its own sequence number, hence never another probe's reply, unless draws 65536 apart are alive at
  once (`NeverCrossed`). That distance is exact: there is a run in which a probe accepts the reply to
  the probe 65536 draws later (`CrossingRun`).
* **HTTP.** The recorded times are those of the last hooks that fired (`RecordsLastTimes`,
  `RecordsLookup`), and the hooks of a round trip keep an order of these times (`HooksKeepInv`), with
  any number of retries on the same trace: redials, the GOST backend after them, each with or without a
  lookup. This order does not make every phase duration non-negative: a lookup left
  open in a redirect, and three endings of a retry, record times the wrong way round. On a clock that
  ticks, all durations are non-negative if and only if the ending is none of these (`NonNegativeIff`;
  inputs in `OpenLookup`, `RetryCutOff`, `RetryUnanswered`, `RetryUnconnected`). Time is conserved,
  counted instant by instant: the phases, plus what they count backwards, plus the instants that no
  phase counts, make up the time that passed plus the instants that are counted again, for one round
  trip and for all of a probe (`RoundTripAccounted`, `ProbeAccounted`). No instant is counted three
  times, only the connection phase can count one again, and only in endings that are characterised
  (`DepthOfEnding`). Exactly when the phases exceed the time that passed is stated in recorded times
  (`ExceedsIff`) and for whole probes (`SumWithinElapsed`), with inputs in `FailedRedialCountsTwice` and
  `SecondRetryCountsTwice`. At most 11 round trips and 22 attempts happen on any redirect graph
  (`HttpClient.Client.Do`). The verdict is the conjunction of the configured checks.
* **Configuration and aggregation.** See the table.

Where the code and its stated intent differ, the code is modelled and the exact condition is proved
under which the intent holds: `fail_if_all_match_regexp` (`DnsValidation.IntendedIff`), the fallback
address (`IpAddress.DocumentedIff`), a body file in a retried request (`GostFallback.RetryWithBody`), a
CEL check after a body regexp (`HttpVerdict.Judge`), a configuration edit during a reload
(`ConfigReload.InstallConsistentIff`, `RacingEditGoesStale`), phase durations after a retry
(`HttpTrace.NonNegativeIff`, `HttpTrace.SumWithinElapsed`), and a coding listed at weight 0 beside a
positive `*` (`AcceptEncoding.AgreesWithRfcIff`).

## Model

| member | source | states |
|---|---|---|
| `ResultHistories.ResultHistory.constructor` | prober/history.go:32-38 | a new history is valid, empty, and has handed out nothing |
| `ResultHistories.ResultHistory.Add` | prober/history.go:41-70 | the log grows by the result with the next id; both slices stay the log's tails; every listing handed out is untouched |
| `ResultHistories.ResultHistory.Shift` | prober/history.go:54-69 | the slice operations compute one `Push` by value and only ever write to their own arrays or fresh ones |
| `ResultHistories.ResultHistory.Evict` | prober/history.go:55-69 | the oldest result is dropped, and preserved within the limit iff it failed |
| `ResultHistories.ResultHistory.List` | prober/history.go:73-79 | the listing is what is retained of the log; an existing array is written only if the append can happen in place; all earlier listings stay intact |
| `ResultHistories.ResultHistory.Concatenate` | prober/history.go:78-78 | the append in `List` leaves both slices' contents alone and is fresh exactly when it must copy |
| `ResultHistories.ResultHistory.ListingOfLog` | prober/history.go:77-78 | the two slices together are the retained log, in strictly increasing id order |
| `ResultHistories.ResultHistory.ListingDoesNotFit` | prober/history.go:78-78 | under at-most-doubling growth a non-empty listing never fits the preserved slice |
| `ResultHistories.ResultHistory.GetById` | prober/history.go:82-98 | finds an entry with the id if one is retained, and nothing only if none is |
| `ResultHistories.ResultHistory.GetByTargetAndModule` | prober/history.go:101-117 | returns the oldest retained entry for the target (and module), and nothing only if there is none |
| `ResultHistories.FirstWhere` | prober/history.go:105-114 | the two lookup loops return the element with the smallest id that is wanted |
| `ResultHistories.Append` | prober/history.go:54-54 | Go's append: in place when the capacity suffices, else into a fresh array |
| `ResultHistories.AppendBounded` | prober/history.go:59-64 | append and drop the oldest beyond the limit, with the resulting capacity |
| `ResultHistories.DropFirst` | prober/history.go:66-68 | make and copy of all but the first element |
| `ResultHistories.RetainedAfterAdd` | prober/history.go:54-69 | how one more log entry changes the recent results and the preserved failures |
| `ResultHistories.RunIsTail` | prober/history.go:29-31 | after any run the recent slice is the last `max` entries and the preserved slice the last `max` expired failures |
| `ResultHistories.ListingIsOrdered` | prober/history.go:77-78 | a listing is strictly increasing in id, so the two slices are disjoint |
| `ResultHistories.ListedExactly` | prober/history.go:29-31 | an entry is listed iff it is among the last `max`, or failed and fewer than `max` failures expired after it |
| `ResultHistories.CapacityOnChain` | prober/history.go:59-64 | the preserved capacity is one that single appends reach from nil, and the last growth was needed |
| `ResultHistories.ListAlwaysCopiesIff` | prober/history.go:78-78 | `List` copies after every run and for every limit iff growth from nil at most doubles |
| `ResultHistories.ListTwice` | prober/history.go:78-78 | once a listing fits in place, the next one overwrites it |
| `ResultHistories.ListingOverwritten` | prober/history.go:78-78 | every growth policy that breaks the condition has a run that overwrites a listing |
| `LineScanner.Read` | prober/query_response.go:139-139 | a read returns a prefix of what the stream still holds, and nothing only at its end |
| `LineScanner.Refill` | prober/query_response.go:111-111 | reading into the scanner buffer keeps the unread stream and makes progress |
| `LineScanner.Scan` | prober/query_response.go:111-111 | a scan that returns a line consumes at least one byte |
| `LineScanner.ScanRefinesNextLine` | prober/query_response.go:104-118 | the buffered scanner returns the lines of plain splitting and leaves the same bytes, for all chunks and any read-ahead |
| `LineScanner.LineWithCRDelivered` | prober/query_response.go:111-113 | a line that ends at CR LF is delivered without either |
| `LineScanner.LineDelivered` | prober/query_response.go:111-113 | a line that ends at LF alone is delivered unchanged |
| `LineScanner.LastLineDelivered` | prober/query_response.go:111-113 | so is a last line without LF, without one final CR |
| `Dialogue.ReadUntilMatch` | prober/query_response.go:109-118 | the scan loop stops at the first matching line |
| `Dialogue.ProcessExpect` | prober/query_response.go:108-133 | read error, missing match, gauge, expansion and labels of an expect entry |
| `Dialogue.ProcessExpectBytes` | prober/query_response.go:134-159 | one read straight from the connection, compared byte by byte |
| `Dialogue.ProcessEntry` | prober/query_response.go:105-199 | one script entry computes `Step` |
| `Dialogue.ProcessStartTLS` | prober/query_response.go:167-199 | configuration, handshake, new connection and scanner, certificate metrics, with their failures |
| `Dialogue.ProbeQueryResponses` | prober/query_response.go:49-202 | the script loop computes `Run` |
| `Dialogue.RegistryDecides` | prober/query_response.go:31-47 | every run is the one with a registry that accepts all labels, or panics if the labels registered there are refused |
| `DialogueLines.SkipToRefinesFindLine` | prober/query_response.go:111-118 | the scan loop finds the first matching line of the plain stream |
| `DialogueLines.StepRefinesLineStep` | prober/query_response.go:108-133 | an expect or send entry has the same report and rest on the chunked and on the plain stream |
| `DialogueLines.RunRefinesLineRun` | prober/query_response.go:105-201 | so does a whole script of such entries |
| `DialogueLines.ChunkingIrrelevant` | prober/query_response.go:104-166 | verdict, sent bytes, gauges and metrics do not depend on the chunking |
| `DialogueLines.FindLineGreedy` | prober/query_response.go:111-128 | the search for one pattern agrees with a greedy walk over the lines |
| `DialogueLines.GreedySound` | prober/query_response.go:105-128 | a greedy success gives a strictly increasing assignment |
| `DialogueLines.GreedyComplete` | prober/query_response.go:105-128 | any strictly increasing assignment makes the greedy walk succeed |
| `DialogueLines.LineRunGreedy` | prober/query_response.go:105-201 | when all writes succeed and all labels are accepted, the plain run passes iff the greedy walk does and the labelled metric is registered at most once |
| `DialogueLines.LineRunWrites` | prober/query_response.go:160-166 | a run equals the one in which all writes succeed if that passes and every text it sends can be written, and otherwise does not pass |
| `DialogueLines.PassesIffAssignable` | prober/query_response.go:105-166 | a script of expects and sends passes iff its patterns can be assigned to matching lines in strictly increasing order, at most one entry is labelled, the texts to send can be written, and the expanded labels are accepted |
| `DialogueLines.PassingReport` | prober/query_response.go:108-166 | a passing script has taken the first matching line for each pattern, sent its texts in order, expanded by these lines and each followed by one line feed, and registered the labels expanded likewise |
| `DialogueBytes.ParallelStep` | prober/query_response.go:105-199 | an entry cannot tell sessions apart that share connection, scanner and registrations |
| `DialogueBytes.ParallelSteps` | prober/query_response.go:105-201 | nor can any script |
| `DialogueBytes.UpgradedState` | prober/query_response.go:180-190 | after an upgrade the connection and the scanner are new |
| `DialogueBytes.UpgradeForgetsPlaintext` | prober/query_response.go:167-199 | no byte received before a TLS upgrade influences a later step: same verdict, texts, registrations and, if they agreed at the upgrade, failure gauges |
| `DialogueBytes.GaugesUnset` | prober/query_response.go:123-159 | as long as a dialogue runs neither failure gauge is set |
| `DialogueBytes.ExpectBytesExamines` | prober/query_response.go:134-152 | which bytes expect_bytes examines, when it succeeds, and what it leaves unread, for any read-ahead |
| `DialogueBytes.NoReadAheadWithoutExpect` | prober/query_response.go:104-113 | without an expect on the connection there is no read-ahead |
| `DialogueBytes.ExpectBytesSeesNext` | prober/query_response.go:104-152 | in every run with no expect since the beginning or the last upgrade, expect_bytes succeeds iff the next unread bytes are the expected ones and lie in one chunk, and consumes just these |
| `DialogueBytes.BytesPassIffAligned` | prober/query_response.go:134-166 | a script of expect_bytes and sends passes iff every text comes out of one read and all its writes succeed |
| `DialogueBytes.AlignedIff` | prober/query_response.go:134-152 | the reads succeed iff the stream begins with the expected texts and no chunk ends within one |
| `DialogueBytes.BytesPassIff` | prober/query_response.go:134-166 | so a script of expect_bytes and sends passes iff that holds and its writes succeed |
| `DialogueBytes.AlignedInOneChunk` | prober/query_response.go:134-152 | on one chunk that means: iff the stream starts with the expected bytes |
| `DialogueBytes.ExpectStarvesExpectBytes` | prober/query_response.go:108-152 | on a response of one chunk of at most 4096 bytes no script without upgrades passes an expect_bytes in or after an entry with an expect |
| `DialogueBytes.LongerChunkPasses` | prober/query_response.go:108-152 | of every chunk longer than the buffer that its first line needs (4096 bytes, doubled as often as it takes), expect_bytes gets the bytes behind that buffer |
| `DialogueBytes.ScanTakes` | prober/query_response.go:111-111 | how much of one large chunk the scanner reads ahead for a line of any length |
| `DialogueBytes.PassedUpgrades` | prober/query_response.go:167-199 | every passing script has upgraded at most once, never over TLS, with a configuration and a completed handshake |
| `DialogueBytes.UpgradePassesIff` | prober/query_response.go:160-199 | a script of sends and upgrades passes iff its writes succeed and it has no upgrade, or one, on a plain connection, whose configuration and handshake succeed |
| `DialogueBytes.StepRegisters` | prober/query_response.go:31-47 | what an entry registers when nothing is registered twice or refused |
| `DialogueBytes.NeverRegistersTwice` | prober/query_response.go:45-45 | at most one labelled and one upgrading entry: no metric is registered twice |
| `DialogueBytes.PanicsIff` | prober/query_response.go:45-46 | such a script panics iff the registry refuses the labels it expands |
| `IcmpEcho.Marshal` | prober/icmp.go:213-228 | the layout of an echo message, with the checksum of itself for IPv4 and a zero one for IPv6 |
| `IcmpEcho.AcceptedIff` | prober/icmp.go:274-293 | the masked comparison succeeds iff the packet is an echo reply with the probe's number and payload, its identifier where it is known, and a correct checksum where it is looked at |
| `IcmpEcho.AwaitReply` | prober/icmp.go:307-374 | the receive loop succeeds iff a matching packet comes before the deadline |
| `IcmpNetwork.StepKeepsInv` | prober/icmp.go:58-63 | every step keeps: numbers follow the counter, and messages and accepted replies carry the number of their probe |
| `IcmpNetwork.RunKeepsInv` | prober/icmp.go:58-63 | so does every run |
| `IcmpNetwork.AcceptsOwnNumber` | prober/icmp.go:351-372 | in every interleaving an accepted packet is an echo reply from the target with the probe's own number and payload |
| `IcmpNetwork.DecidedForGood` | prober/icmp.go:307-374 | a probe that accepted or timed out stays so in every later run |
| `IcmpNetwork.TimedOutForGood` | prober/icmp.go:343-347 | a probe that times out never accepts a reply |
| `IcmpNetwork.ForeignAcceptedIff` | prober/icmp.go:351-372 | a packet of any origin is accepted iff it looks right |
| `IcmpNetwork.SameNumberIff` | prober/icmp.go:58-63 | two draws share a number iff they are a multiple of 65536 apart |
| `IcmpNetwork.ReceiveUncrossed` | prober/icmp.go:351-372 | a near message that is accepted is the probe's own |
| `IcmpNetwork.NeverCrossed` | prober/icmp.go:307-374 | no probe takes another's reply while live requests are fewer than 65536 draws apart |
| `IcmpNetwork.CrossedIff` | prober/icmp.go:274-293 | of two like probes one takes the genuine reply to the other iff their draws are a multiple of 65536 apart; its own reply it always takes |
| `IcmpNetwork.TakesOwnReplyIff` | prober/icmp.go:274-293 | a probe takes the reflection of its own request iff the checksum is right or not looked at |
| `IcmpNetwork.CrossingRun` | prober/icmp.go:58-63 | for every start and every k there is a run in which probe k accepts the reply to probe k + 65536 |
| `HttpTrace.Transport.BeginRoundTrip` | prober/http.go:210-215 | a round trip starts a new trace |
| `HttpTrace.Transport.Fire` | prober/http.go:236-280 | a hook writes to the latest trace only |
| `HttpTrace.RecordsLastTimes` | prober/http.go:236-280 | each recorded time is that of the last event of its hook, in any order of hooks |
| `HttpTrace.RecordsLookup` | prober/http.go:236-256 | the recorded lookup is the last one, or the first dial if there was none |
| `HttpTrace.CompleteExchange` | prober/http.go:236-280 | a complete exchange at any increasing times, with or without TLS and lookup, is legal, and its phases are the differences of those times |
| `HttpTrace.HookKeepsRecordable` | prober/http.go:236-280 | no hook records in the future, and which times are set follows from the progress, retries included |
| `HttpTrace.HookKeepsConnectOrder` | prober/http.go:236-270 | every hook keeps the order of resolution, connection and response |
| `HttpTrace.HookKeepsHandshakeOrder` | prober/http.go:271-280 | every hook keeps the order of the last handshake within the rest |
| `HttpTrace.HookKeepsBesideOrder` | prober/http.go:260-280 | the recorded handshake lies before the recorded connection, or after its response |
| `HttpTrace.HookKeepsLookupApart` | prober/http.go:236-280 | the recorded lookup falls neither within the handshake nor within the processing |
| `HttpTrace.HooksKeepInv` | prober/http.go:236-280 | every legal hook sequence, with any number of retries, keeps all of these |
| `HttpTrace.HooksKeepStrict` | prober/http.go:236-280 | on a clock that ticks, times recorded the wrong way round are strictly so |
| `HttpTrace.AddTrace` | prober/http.go:748-774 | what one trace adds to the phases |
| `HttpTrace.Aggregate` | prober/http.go:734-775 | the aggregation loop sums all traces |
| `HttpTrace.DurationsNonNegative` | prober/http.go:748-774 | every duration is non-negative unless the ending is one of four: an open lookup after the first round trip; a retry of an established connection that resolved again without connecting, has an open handshake, or got a connection but no response after an abandoned one |
| `HttpTrace.NonNegativeIff` | prober/http.go:748-774 | on a clock that ticks this is an equivalence |
| `HttpTrace.OpenLookup` | prober/http.go:749-751 | a redirect whose lookup is still open reports a negative resolution |
| `HttpTrace.RetryCutOff` | prober/http.go:755-758 | a retry cut off in its handshake reports a negative handshake |
| `HttpTrace.RetryUnanswered` | prober/http.go:763-767 | a retry that gets no response after an abandoned one reports negative processing |
| `HttpTrace.RetryUnconnected` | prober/http.go:755-757 | a retry that resolves again and does not connect reports a negative connection |
| `HttpTrace.FinishedTelescopes` | prober/http.go:748-774 | a finished plain round trip sums to end minus start; a TLS one misses exactly the two gaps around the handshake, which are non-negative unless a connection attempt finished late |
| `HttpTrace.FinishedByTheClock` | prober/http.go:700-702 | the same in terms of when the hooks fired |
| `HttpTrace.DoubleCount` | prober/http.go:748-774 | counting covered time by phase and by instant agrees: covered plus idle equals passed plus counted again |
| `HttpTrace.DepthOfEnding` | prober/http.go:748-774 | no instant counts for three phases, for two only within the connection, and for none twice unless the ending is one of those named |
| `HttpTrace.RoundTripAccounted` | prober/http.go:748-774 | for every legal round trip: phases plus backward time plus idle instants equal the time that passed plus the instants counted again; there are none of these unless the ending counts twice |
| `HttpTrace.ExceedsIff` | prober/http.go:748-774 | in recorded times: exactly when the phases of a round trip exceed the time that passed |
| `HttpTrace.ProbeAccounted` | prober/http.go:734-775 | so for all round trips of a probe, with the reported total and the whole time |
| `HttpTrace.SumWithinElapsed` | prober/http.go:734-775 | the phases of all round trips sum to at most the time that passed iff no more instants are counted again than are idle or counted backwards; without an ending that counts twice always |
| `HttpTrace.TraceRoundTrip` | prober/http.go:208-280 | firing the hooks of a round trip records exactly its trace, and no other |
| `HttpTrace.ReportPhases` | prober/http.go:573-582 | from hooks to reported phases: the sum of all traces, and when it exceeds the time that passed |
| `HttpTrace.FailedRedialCountsTwice` | prober/http.go:755-758 | a failed redial after an established connection exceeds the time that passed |
| `HttpTrace.SecondRetryCountsTwice` | prober/gost_tls.go:78-88 | a GOST dial after a redial that failed in its handshake, after a broken response: 197 counted within 104 |
| `GostFallback.ClassifyError` | prober/gost_tls.go:90-113 | the marker loop decides: no certificate error and some marker in the lower-cased text |
| `GostFallback.TriedIff` | prober/gost_tls.go:90-113 | an error is retried iff it is no certificate error and some marker stands in its text, in any letter case |
| `GostFallback.WrappedErrorStillTried` | prober/gost_tls.go:98-111 | wrapping an error in more text keeps its classification |
| `GostFallback.DialTLS` | prober/gost_tls.go:131-192 | on success the connection holds all handles; on every failure each opened handle is closed exactly once; the hooks fired |
| `GostFallback.DialContinuesTrace` | prober/gost_tls.go:131-182 | those hooks legally continue the trace of a standard attempt that failed while dialing, in the handshake of its first or a later connection, before or within its response; what stays on record of that attempt |
| `GostFallback.ProxyDialContinuesTrace` | prober/gost_tls.go:78-88 | so do the hooks of a retry behind a plain proxy, which can begin with the lookup of the proxy |
| `GostFallback.RequestBody.Read` | prober/http.go:534-548 | reading advances through the body; reading a closed file fails |
| `GostFallback.RetryWithBody` | prober/gost_tls.go:78-88 | the retry delivers the whole body iff it is inline and nothing was consumed; a body file always fails |
| `GostFallback.RoundTrips` | prober/gost_tls.go:55-62 | each answer is stamped with the state in the box |
| `GostFallback.StampsAreOwn` | prober/gost_tls.go:31-62 | an answer over the TLS dialer carries the state of the connection dialed for it, to the target or to an https proxy; behind a plain proxy that of the last one dialed |
| `HttpClient.DisciplinedAppend` | prober/gost_tls.go:78-88 | a round trip keeps the discipline of attempts |
| `HttpClient.AttemptsPerTrip` | prober/gost_tls.go:78-88 | at most two attempts per round trip |
| `HttpClient.BackendsPerTrip` | prober/gost_tls.go:78-88 | two attempts share a round trip iff the second is GOST right after the standard one |
| `HttpClient.Client.Fetch` | prober/gost_tls.go:78-88 | the standard backend first, then GOST iff it failed incompatibly over https |
| `HttpClient.Client.RoundTrip` | prober/http.go:208-234 | the ServerName transport serves exactly the requests to the first host when another transport exists |
| `HttpClient.Client.Do` | prober/http.go:503-511 | every later round trip requests the location it was redirected to; at most 11 round trips and 22 attempts for every redirect graph; the redirect gauge; when a redirect is left unfollowed |
| `HttpVerdict.NormaliseLimit` | config/config.go:429-437 | every parsed limit is non-negative, leaves room for one more, and keeps valid values; others mean the largest limit |
| `HttpVerdict.BodyReader.Read` | prober/http.go:289-293 | the limited, counted read delivers the next bytes within the limit, without overflow |
| `HttpVerdict.BodyReader.ReadAll` | prober/http.go:656-664 | reading to the end delivers what is left within the limit, and fails iff the body is cut or broken |
| `HttpVerdict.CheckHeaders` | prober/http.go:123-171 | the header loops equal the quantified rules |
| `HttpVerdict.MatchRegexps` | prober/http.go:50-69 | the body regexps are judged on the unread rest of the body |
| `HttpVerdict.MatchCel` | prober/http.go:71-121 | so are the CEL programs |
| `HttpVerdict.CheckStatus` | prober/http.go:605-620 | the status is listed, or 2xx if there is no list |
| `HttpVerdict.CheckBody` | prober/http.go:664-699 | body checks and final drain: verdict and counted bytes |
| `HttpVerdict.Judge` | prober/http.go:602-798 | with at most one kind of body check the verdict is the conjunction of all checks on the whole body, with both kinds never true; on an unfollowed redirect a body check passes only if there is no body, a CEL check never; counted bytes are min(length, limit) |
| `AcceptEncoding.RoundedPositive` | config/config.go:635-641 | rounding makes a weight positive iff it is at least half a thousandth |
| `AcceptEncoding.RoundNearest` | config/config.go:640-640 | rounding is to the nearest integer and symmetric |
| `AcceptEncoding.RoundedKeepsThousandths` | config/config.go:640-640 | weights with three decimals are kept |
| `AcceptEncoding.ParseRoundTrip` | config/config.go:628-651 | parsing a rendered list of codings and weights gives them back, in order, with any white space around them |
| `AcceptEncoding.ParseEntries` | config/config.go:628-651 | the parsing loop yields the entries of the header |
| `AcceptEncoding.Sift` | config/config.go:653-655 | one entry moves to its place |
| `AcceptEncoding.Sort` | config/config.go:653-655 | the in-place sort computes the stable sort |
| `AcceptEncoding.SortIsStable` | config/config.go:653-655 | entries of equal weight keep their order |
| `AcceptEncoding.SortKeeps` | config/config.go:653-655 | the sorted list is a permutation in descending weight |
| `AcceptEncoding.FirstDecides` | config/config.go:657-663 | in descending order the first covering entry decides for all |
| `AcceptEncoding.SortedFirstIsSome` | config/config.go:626-663 | the verdict is: some covering entry has a positive weight |
| `AcceptEncoding.IsCompressionAcceptEncodingValid` | config/config.go:614-664 | the whole check computes that verdict, and accepts empty inputs |
| `AcceptEncoding.OrderIrrelevant` | config/config.go:653-663 | the order of the entries is irrelevant |
| `AcceptEncoding.AgreesWithRfcIff` | config/config.go:599-664 | it agrees with section 12.5.3 of RFC 9110 except exactly in two cases |
| `ConfigReload.SafeConfig.ReloadConfig` | config/config.go:114-174 | what a reload installs; a failed one leaves configuration and checksum untouched |
| `ConfigReload.QuietRunsStayConsistent` | config/config.go:114-174 | if no edit falls between the reads, the checksum always belongs to the content of the live configuration |
| `ConfigReload.SuccessMeansUpToDate` | config/config.go:130-135 | then a successful reload, skipped or not, means that the configuration is that of the file |
| `ConfigReload.LiveComesFromSource` | config/config.go:148-171 | over every run the live configuration is the parse of its source |
| `ConfigReload.InstallConsistentIff` | config/config.go:125-171 | an install is consistent iff both reads saw the same content |
| `ConfigReload.FileAfterRun` | config/config.go:125-171 | the file is what the last edit made of it, during a reload or not |
| `ConfigReload.SkipsForever` | main.go:145-174 | with a matching checksum no number of reloads changes anything |
| `ConfigReload.RacingEditGoesStale` | config/config.go:125-171 | an edit between the reads that is later undone leaves a stale configuration for good |
| `HttpHost.SetHTTPHost` | prober/handler.go:146-161 | fails iff another host is configured; otherwise a fresh map with the host added; the shared map is not written |
| `HttpHost.IsHostIff` | prober/handler.go:152-152 | Host in any letter case |
| `HttpHost.HostnameReachesRequest` | prober/http.go:559-566 | for every iteration order the request host is the hostname, and so is the server name unless one is configured |
| `HttpHost.OrderIrrelevantIff` | prober/http.go:416-429 | in general the order is irrelevant iff all Host keys hold the same value |
| `HttpHost.Probes` | prober/handler.go:99-106 | any number of probes leaves the shared headers unchanged |
| `IpAddress.IpHash` | prober/utils.go:134-142 | the hash is FNV-1a of the normalised address |
| `IpAddress.StepMultipliesLast` | prober/utils.go:134-142 | the byte is mixed in before the multiplication |
| `IpAddress.TimesInvertible` | prober/utils.go:134-142 | multiplying by the FNV prime is undone by its inverse |
| `IpAddress.FnvStepInjective` | prober/utils.go:134-142 | each step is a bijection of the state and tells bytes apart |
| `IpAddress.OneByteChangesHash` | prober/utils.go:45-48 | two addresses of the same kind that differ in exactly one byte, whichever it is, never share a hash |
| `IpAddress.MappedHashesAlike` | prober/utils.go:136-140 | an IPv4 address and its mapped form hash alike |
| `IpAddress.ChooseProtocol` | prober/utils.go:33-132 | the first address of the preferred family, else the last address; the error cases |
| `IpAddress.FamilyIff` | prober/utils.go:91-126 | which addresses count as IPv4 and which as IPv6 |
| `IpAddress.DocumentedIff` | prober/utils.go:91-131 | that is the documented choice iff the preferred family is present or the last address is the first |
| `TlsExpiry.GetEarliestCertExpiry` | prober/tls.go:25-33 | the minimum non-zero expiry, or zero if there is none |
| `TlsExpiry.GetLastChainExpiry` | prober/tls.go:56-71 | the nested loops compute `Last` |
| `TlsExpiry.LastIsLatest` | prober/tls.go:56-71 | the maximum over the chains of the minimum non-zero expiry |
| `TlsExpiry.OrderAndRepetitionIrrelevant` | prober/tls.go:56-71 | neither order nor repetition of chains and certificates matters |
| `TlsExpiry.OpensslConnectionState` | prober/gost_tls.go:325-345 | the only chain is the peer list, so both expiry metrics coincide |
| `TlsExpiry.ParsedInOrder` | prober/gost_tls.go:329-343 | the peer certificates are exactly those that parse, in order |
| `TlsExpiry.LeafFirst` | prober/gost_tls.go:326-328 | a leaf that parses comes first |
| `DnsValidation.Scan` | prober/dns.go:46-87 | one inner loop with its early exits |
| `DnsValidation.CheckRecord` | prober/dns.go:44-88 | the four inner loops on one record |
| `DnsValidation.ValidRRs` | prober/dns.go:31-98 | the nested loops equal one quantified condition, with empty sections and uncompilable patterns |
| `DnsValidation.OrderIrrelevant` | prober/dns.go:44-98 | permuting records, or patterns within a list, changes nothing |
| `DnsValidation.IntendedIff` | prober/dns.go:89-92 | fail_if_all_match_regexp does what its name says iff the list is empty or another check fails anyway, on empty sections too |

## Left out

- Sockets, dialling, DNS resolution, HTTP/3, gRPC and the TLS handshakes: foreign libraries; only their outcomes appear.
- Regexps, CEL, JSON, YAML, decompression, SHA-256 and the Internet checksum: function parameters. Collision freedom of the configuration checksum is an explicit hypothesis.
- `getTimeout`, `validRcode`, `gostCipherID`, `opensslTLSVersion`, `getTLSCipher` and the other getters: one branch or a finite table each.
- Prometheus gauges other than the failure gauges and the two registrations that can clash; logging, debug output and HTML pages.
- ResultHistories.ResultHistory.Add: ids are unbounded integers, so the wrap-around of a 64-bit id after 2^63 results is not modelled; results are values, since nothing writes to one after it is added; the mutex makes each call atomic.
- LineScanner.Scan: the scanner and the connection are values that the interpreter replaces, so two scanners on one connection are not modelled; the program has none.
- LineScanner.Read: a read returns either data or the end of the stream, never both in one call, as sockets do.
- HttpTrace.Transport.Fire: hooks that fire after the next round trip has begun, and so write to its trace, are not modelled; durations do not saturate.
- HttpTrace.NonNegativeIff: on a clock that can stand still two of the compared times may coincide, so there only the direction of HttpTrace.DurationsNonNegative holds.
- HttpClient.Client.Do: invalid Location headers, cookies, and 307 or 308 redirects that need the body again are not modelled.
- GostFallback.RetryWithBody: the length mismatch that net/http reports for a truncated inline body is not modelled, only that the body is not whole.
- GostFallback.TriedIff: lower-casing is that of ASCII letters; the two other Unicode letters that lower-case to ASCII ones are not modelled.
- AcceptEncoding.IsCompressionAcceptEncodingValid: weights are real numbers with NaN and infinities, without single-precision rounding; the order of a list that contains NaN is that of insertion sort.
- AcceptEncoding.ParseRoundTrip: white space is that of ASCII.
- AcceptEncoding.AgreesWithRfcIff: codings are compared letter by letter, as the code does, although the RFC ignores case.
- ConfigReload.SafeConfig.ReloadConfig: each of the two reads sees one version of the file; a read torn by a concurrent edit is not modelled. The rewriting of the deprecated no_follow_redirects flag is part of the parser.
- TlsExpiry.LastIsLatest: holds for expiry times not before Go's zero time (the year 1), which the code uses as its sentinel.
- IcmpEcho.AwaitReply: hop limits and the duration gauge are not modelled.
