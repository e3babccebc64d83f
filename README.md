# iotics-cli command core, modelled in Dafny

This project models the part of the `iotics-cli` command-line tool that decides
what its commands do and print. The network, DNS, HTTP and gRPC calls around
that part are not modelled. The parts covered are:

- **The fan-out commands** (`list-hosts` and `did-kg`). A coordinator counts
  the hosts the global search discovers, one worker per host reports back, and
  the coordinator finishes when the two counters meet. For `did-kg`, finishing
  means building an RDF graph of the collected hosts.
- **The host workers.** A worker finds a host's url, from the local
  configuration or from the TXT record `dig` prints. It reads the version,
  the twin count or the twins' DID documents at that url, and reports the
  url with `.iotics.space` removed.
- **The DID resolver.** It looks a DID up in a cache directory and otherwise
  asks the resolver service. It splits the payload segment out of the
  returned token. From the decoded document it builds an identity record by
  splitting the issuer and every delegation controller at the first `#`.
- **The sequential commands.**
  - The sequential host list numbers the hosts with a known url.
  - The three delete commands delete twins one at a time through a shared
    helper that logs each deletion: a prompt and `OK` or the error when
    verbose, and a `.` or an `E` mark when quiet, 64 marks to a line. They
    then print a summary.
  - The follow command spawns one follower per twin of a model, up to a cap,
    and then closes the stream; items already buffered are still received.
    Each follower reads its feed until the subscription fails.

The form of the model follows the code:

- **Objects that update their own fields are classes.** These are the actor
  coordinators, the delete commands with their counters, the terminal they
  write to, the resolver's cache directory and the worker's auth builder. A
  coordinator carries a ghost trace of the messages it has handled.
- **Each loop is a method with a `while` loop**, proved equal to a fold over
  the items it has read: the search pages, the twins, the collected DIDs, the
  follow messages or the delegations.
- **Most properties are lemmas about those folds.** Examples: counters and
  marks agree with each other, line breaks come every 64 marks, numbering
  runs from 1, followers stop at the cap save for drained items, the loop stops at the first failure,
  and a lookup is answered from the cache once it is filled.

Modules: `Wrappers`, `Text` (`split_once`, `replace`, decimal columns),
`Search`, `HostLookup`, `FanOut`, `KgCoordinator`, `KgHostWorker`,
`ListCoordinator`, `ListHostWorker`, `ListHostsSeq`, `Resolver`, `DeleteLog`,
`DeleteTwins`, `DeleteByModel`, `DeleteAllTwins`, `FollowByModel`.

## Model

| member | source | states |
|---|---|---|
| Text.SplitOnce | src/commands/did_kg/resolver.rs:86-90 | `split_once('#')` fails exactly when there is no `#`; otherwise the string is head + `#` + tail and the head holds no `#` (the split is at the first one) |
| Text.SplitOnceJoin | src/commands/did_kg/resolver.rs:100-103 | splitting `a#b` with a `#`-free `a` gives back exactly `(a, b)` |
| Text.ReplaceAbsent | src/commands/list_hosts/host_actor.rs:71 | `replace` of a pattern that does not occur leaves the string unchanged |
| Text.ReplaceLeading | src/commands/list_hosts/host_actor.rs:71 | a leading occurrence of the pattern is replaced, and the rest is processed on its own |
| Text.ReplaceFreePrefix | src/commands/list_hosts/host_actor.rs:80 | a prefix that cannot start an occurrence passes through `replace` unchanged |
| Text.PadLeft | src/commands/did_kg/coordinator_actor.rs:163 | `{:6}` right-aligns: the width is the larger of 6 and the text's length, the text ends the column, and spaces precede it |
| Text.DecimalRoundTrip | src/commands/did_kg/coordinator_actor.rs:163 | the decimal rendering of a count reads back as that count |
| Text.PaddedNumberReads | src/commands/did_kg/coordinator_actor.rs:163 | the padded count column, with its leading spaces trimmed, reads back as the count |
| Search.ReadUntilClose | src/commands/delete_twins.rs:74-81 | the stream is closed after the items up to and including the first payload shorter than the page size; none before it is short; without a short page it is never closed |
| Search.FullPagesKeepOpen | src/commands/delete_twins.rs:78-81 | a run of pages of exactly the page size does not close the stream |
| Search.ClosesAtFirstShortPage | src/commands/delete_twins.rs:78-81 | the stream is closed right after the first short page |
| Search.NoShortPageNoClose | src/commands/delete_twins.rs:74-99 | without a short page the command never closes the stream |
| Search.HostRecordsSpec | src/commands/list_hosts/coordinator_actor.rs:91-103 | every record forwarded is the host of some payload received; records and errors together never outnumber the items |
| Search.ErrorCountSpec | src/commands/list_hosts.rs:183-185 | the error count is zero exactly when no item is an error, and all the items exactly when every one is |
| HostLookup.LineLength | src/commands/list_hosts/host_actor.rs:121 | `.` in the expression stops at the first newline, which ends the line |
| HostLookup.MatchAt | src/commands/list_hosts/host_actor.rs:121 | a match at a position starts with `IN TXT "`, ends the capture at a quote, and the capture holds no newline |
| HostLookup.CaptureTxtLeftmost | src/commands/list_hosts/host_actor.rs:121-131 | `captures` finds nothing exactly when no position matches; otherwise it returns the match at the leftmost matching position |
| HostLookup.CaptureAtFirstMatch | src/commands/list_hosts/host_actor.rs:123-129 | the capture is the match at the first position that matches |
| HostLookup.TxtAnswerCaptured | src/commands/list_hosts/host_actor.rs:118-131 | a dig answer line `IN TXT "v"` is read back as `v` when the text before it holds no quote |
| HostLookup.GetHostUrl | src/commands/list_hosts/host_actor.rs:107-145 | a failed script gives no url; a url found holds no newline |
| HostLookup.LocalUrlUndoesListingUrl | src/commands/list_hosts/host_actor.rs:69-73 | removing `https://` and `:10001` from `https://{h}:10001` gives back `h` |
| HostLookup.StripDomainOfSubdomain | src/commands/list_hosts/host_actor.rs:80 | removing `.iotics.space` from `{h}.iotics.space` gives `h` |
| HostLookup.GetHostVersion | src/commands/list_hosts/host_actor.rs:147-175 | the version is empty unless asked for; when asked for it is the host's version, and empty on any failure |
| HostLookup.HostUrl | src/commands/list_hosts/host_actor.rs:63-74 | the local host is `?` at the configured address without scheme and port; a remote host keeps its DID and gets no url when dig fails |
| HostLookup.LocalHostAddressed | src/commands/list_hosts/host_actor.rs:69-72 | the local host is listed at its configured address and shown under its bare name |
| HostLookup.RemoteHostFromTxt | src/commands/list_hosts/host_actor.rs:107-131 | a remote host whose TXT record, in the network's zone, reads `{h}.iotics.space` is listed there and shown as `h` |
| FanOut.CountersCount | src/commands/list_hosts/coordinator_actor.rs:142-193 | every message moves exactly one of the two counters |
| FanOut.DeliveredSpec | src/commands/list_hosts/coordinator_actor.rs:180-182 | a coordinator that stops at its first completion handles a prefix of what is sent: everything when nothing signals, otherwise up to and ending with the one signalling report |
| FanOut.DiscoveriesCounts | src/commands/list_hosts/coordinator_actor.rs:142-151 | discoveries alone count found hosts, handle none and never signal completion |
| FanOut.DiscoveredFirstSignalsOnce | src/commands/list_hosts/coordinator_actor.rs:180-197 | when all hosts are discovered before any report, completion is signalled exactly once, after the last report, in any order of outcomes |
| FanOut.BalancedEndSignals | src/commands/did_kg/coordinator_actor.rs:178-199 | a trace that ends with a report that balances the counters has signalled |
| FanOut.EarlyRepeatedSignal | src/commands/did_kg/coordinator_actor.rs:178-182 | the check on its own, with no once-only guard, is met on discovery, report, discovery, report after the first report, while a host is still to come, and again after the second; the coordinators stop at the first |
| FanOut.GuardedAtMostOnce | src/commands/did_kg/coordinator_actor.rs:178-199 | with a stream-closed flag and a once-only guard, completion fires at most once and only after the close |
| FanOut.GuardedFiresOnce | src/commands/did_kg/coordinator_actor.rs:178-199 | with the guard, a closed and balanced run has fired exactly once, whatever the interleaving |
| FanOut.ClosedBalancedFinalized | src/commands/did_kg/coordinator_actor.rs:178-199 | with the guard, closed and balanced means finalised |
| FanOut.GuardedNoHostAfterStop | src/commands/list_hosts/coordinator_actor.rs:91-182 | with the guard, and the stream closed after the last discovery, no host is discovered after completion, so none is lost to the stop |
| KgCoordinator.HostTriples | src/commands/did_kg/coordinator_actor.rs:236-256 | each host gets three distinct triples about itself, one typing it `diddy:Host` |
| KgCoordinator.HostGraphAdd | src/commands/did_kg/coordinator_actor.rs:236-256 | adding a host adds exactly its three triples |
| KgCoordinator.GraphTypesCollectedHosts | src/commands/did_kg/coordinator_actor.rs:225-257 | the hosts the graph types as `diddy:Host` are exactly the collected hosts, for any ontology that types nothing as a host, even one that names the class as a domain or range |
| KgCoordinator.TwinsColumnReads | src/commands/did_kg/coordinator_actor.rs:163 | the `{:6}` twins column is at least six wide and reads back as the line's twin count |
| KgCoordinator.ResultLinesNumbering | src/commands/did_kg/coordinator_actor.rs:161-174 | the result lines are numbered from 1 up to the handled count, strictly increasing |
| KgCoordinator.CollectedAtMostHandled | src/commands/did_kg/coordinator_actor.rs:162-176 | no more hosts are kept than reports were handled (an equal url replaces an earlier entry) |
| KgCoordinator.TwinTotalRemove | src/commands/did_kg/coordinator_actor.rs:210-214 | the twin total can be split off at any host, whatever order the fold uses |
| KgCoordinator.TwinTotalAfterResult | src/commands/did_kg/coordinator_actor.rs:176 | a result changes the total by replacing that url's old twins with the new ones |
| KgCoordinator.CountTwins | src/commands/did_kg/coordinator_actor.rs:210-214 | the fold over the twin lists totals their lengths |
| KgCoordinator.AddHostTriples | src/commands/did_kg/coordinator_actor.rs:237-256 | the three inserts of one host extend the graph by that host |
| KgCoordinator.BuildGraph | src/commands/did_kg/coordinator_actor.rs:225-257 | the store is the ontology plus three triples per collected host |
| KgCoordinator.Coordinator.constructor | src/commands/did_kg/coordinator_actor.rs:44-53 | counters start at zero with no hosts kept |
| KgCoordinator.Coordinator.ProcessHost | src/commands/did_kg/coordinator_actor.rs:142-152 | a discovered host increments `hosts_found` and nothing else; a stopped coordinator handles nothing |
| KgCoordinator.Coordinator.ReceivePages | src/commands/did_kg/coordinator_actor.rs:98-113 | each page with a payload is one discovery; errors and empty pages are skipped; nothing is delivered once stopped |
| KgCoordinator.Coordinator.HostResultMessage | src/commands/did_kg/coordinator_actor.rs:161-183 | the handled count grows by one, a line numbered by it is written, the url's twins are recorded, and the graph is requested exactly when the counters are equal; the lines written stay the fold of the reports handled; a stopped coordinator handles nothing |
| KgCoordinator.Coordinator.HostEmptyResultMessage | src/commands/did_kg/coordinator_actor.rs:192-200 | only the handled count changes; the graph is requested exactly when the counters are equal; a stopped coordinator handles nothing |
| KgCoordinator.Coordinator.GenerateKb | src/commands/did_kg/coordinator_actor.rs:209-273 | the summary counts the hosts and all their twins; the export is the ontology text followed by the serialised graph; the coordinator stops; a second request, after the stop, is dropped |
| KgCoordinator.Coordinator.EarlyGeneration | src/commands/did_kg/coordinator_actor.rs:142-273 | in mailbox order (a discovered, a reports, b discovered, graph request, b reports) the graph is requested after a's report, the summary and graph cover a only, and b's report is dropped by the stopped coordinator with one line written |
| KgHostWorker.Resolved | src/commands/did_kg/host_actor.rs:146-161 | documents that fail to resolve are skipped |
| KgHostWorker.ResolvedAppend | src/commands/did_kg/host_actor.rs:148-161 | resolution goes DID by DID, in order |
| KgHostWorker.ResolvedFromListed | src/commands/did_kg/host_actor.rs:148-161 | every record kept is the resolution of a listed DID |
| KgHostWorker.ResolvedAllOk | src/commands/did_kg/host_actor.rs:148-161 | when every DID resolves, the records are the resolutions, in order |
| KgHostWorker.ListedTwins | src/commands/did_kg/host_actor.rs:129-178 | a failed listing or a missing payload gives no twins; otherwise at most one per listed DID |
| KgHostWorker.GetTwins | src/commands/did_kg/host_actor.rs:129-178 | the twins are those listed at the host's address, resolved |
| KgHostWorker.Started | src/commands/did_kg/host_actor.rs:53-95 | no url gives the empty result; otherwise the resolved twins are reported under the url without `.iotics.space` |
| ListCoordinator.TwinsColumnReads | src/commands/list_hosts/coordinator_actor.rs:163-166 | the twins column reads back as the count, and empty as no count |
| ListCoordinator.PrintedNumbering | src/commands/list_hosts/coordinator_actor.rs:160-178 | the line numbers are strictly increasing, from 1 up to the handled count |
| ListCoordinator.PrintedConsecutive | src/commands/list_hosts/coordinator_actor.rs:160-178 | without empty results the lines are numbered 1, 2, 3, … |
| ListCoordinator.EarlyStopDropsHost | src/commands/list_hosts/coordinator_actor.rs:180-182 | on discovery, report, discovery, report the coordinator stops after the first report: only one line is written though two hosts are found and both report |
| ListCoordinator.Coordinator.constructor | src/commands/list_hosts/coordinator_actor.rs:35-50 | counters start at zero |
| ListCoordinator.Coordinator.ProcessHost | src/commands/list_hosts/coordinator_actor.rs:132-151 | a discovered host increments `hosts_found` and nothing else; a stopped coordinator handles nothing |
| ListCoordinator.Coordinator.ReceivePages | src/commands/list_hosts/coordinator_actor.rs:91-103 | each page with a payload is one discovery; errors and empty pages are skipped; nothing is delivered once stopped |
| ListCoordinator.Coordinator.HostResultMessage | src/commands/list_hosts/coordinator_actor.rs:160-183 | the handled count grows by one, a line numbered by it is written, and the coordinator stops exactly when the counters meet; a stopped coordinator handles nothing |
| ListCoordinator.Coordinator.HostEmptyResultMessage | src/commands/list_hosts/coordinator_actor.rs:192-198 | only the handled count changes; the coordinator stops exactly when the counters meet; a stopped coordinator handles nothing |
| ListCoordinator.Coordinator.Receive | src/commands/list_hosts/coordinator_actor.rs:121-198 | each message goes to its handler and joins the trace, unless the coordinator has stopped |
| ListCoordinator.Coordinator.HandleAll | src/commands/list_hosts/coordinator_actor.rs:121-198 | from a fresh start, the messages handled are those delivered before the first stop, the lines written are theirs, and the coordinator has stopped exactly when the messages sent signal completion |
| ListHostWorker.AuthBuilder.constructor | src/commands/list_hosts/host_actor.rs:185-188 | the auth builder starts at the given address |
| ListHostWorker.AuthBuilder.UpdateHost | src/commands/list_hosts/host_actor.rs:185-188 | the address changes only when the update is accepted, and its refusal is reported |
| ListHostWorker.TwinCount | src/commands/list_hosts/host_actor.rs:190-196 | a failed listing gives no count, a missing payload 0, and otherwise the number of twins |
| ListHostWorker.GetTwinCount | src/commands/list_hosts/host_actor.rs:177-211 | no count unless asked for and the address update succeeds; then the count at `https://{url}:10001` |
| ListHostWorker.Started | src/commands/list_hosts/host_actor.rs:55-99 | no url gives the empty result; otherwise version and twin count are reported under the url without `.iotics.space` |
| ListHostsSeq.EntriesPerHost | src/commands/list_hosts.rs:146-187 | at most one line per host record; exactly one per host when every host's url is known, in particular when every record is the local host |
| ListHostsSeq.ListStepNumbers | src/commands/list_hosts.rs:165-179 | one item appends its entry, numbered after the lines already written |
| ListHostsSeq.ListAllNumbers | src/commands/list_hosts.rs:144-187 | after any prefix of the stream, the lines are the hosts' entries numbered from 1, and one error is logged per transport error |
| ListHostsSeq.Run | src/commands/list_hosts.rs:144-187 | the loop writes exactly the listing of the whole stream |
| ListHostsSeq.RunNumbersEntries | src/commands/list_hosts.rs:144-187 | the lines written are the hosts' entries numbered 1, 2, 3, … in stream order |
| Resolver.Delegations | src/commands/did_kg/resolver.rs:76-82 | the delegations are the control ones followed by the authentication ones, an absent list counting as empty |
| Resolver.SplitDelegationsEachSplits | src/commands/did_kg/resolver.rs:86-98 | the loop succeeds exactly when every controller splits |
| Resolver.SplitDelegationsSucceeds | src/commands/did_kg/resolver.rs:86-90 | the loop succeeds exactly when every controller holds a `#` |
| Resolver.SplitDelegationsEdges | src/commands/did_kg/resolver.rs:86-98 | one edge per delegation, in order, each the split of its controller |
| Resolver.SplitDelegationsFailsAfter | src/commands/did_kg/resolver.rs:86-90 | the `?` makes one failing controller fail the whole list |
| Resolver.SplitEdgeSpec | src/commands/did_kg/resolver.rs:87-95 | an edge is split off exactly when the controller holds a `#`, at the first one |
| Resolver.TwinDocumentSpec | src/commands/did_kg/resolver.rs:74-112 | the record is built exactly when issuer and controllers all hold `#`; a bad controller is reported before a bad issuer; the update time is kept; edges in order |
| Resolver.SplitEach | src/commands/did_kg/resolver.rs:84-98 | the delegation loop returns the split list, or fails at the first bad controller |
| Resolver.ToTwinDocument | src/commands/did_kg/resolver.rs:76-112 | the conversion after the document is obtained |
| Resolver.PayloadSegment | src/commands/did_kg/resolver.rs:52-53 | the segment kept holds no `.`, and is empty when the token has no `.` |
| Resolver.CompactTokenPayload | src/commands/did_kg/resolver.rs:52-53 | for `header.payload.signature` the payload is kept |
| Resolver.Lookup | src/commands/did_kg/resolver.rs:26-68 | the service is asked exactly on a cache miss; other cache entries are unchanged; a stored entry is returned; a success leaves the document cached; a failed create leaves the cache as it was, a failed write leaves an unreadable file |
| Resolver.SecondLookupHits | src/commands/did_kg/resolver.rs:34-61 | after a successful lookup the same DID is answered from the cache with the same document |
| Resolver.WriteFailurePoisons | src/commands/did_kg/resolver.rs:32-61 | after a write that failed part-way, the next lookup of that DID fails on the unreadable file without asking the service |
| Resolver.DocumentResolver.constructor | src/commands/did_kg/resolver.rs:30-32 | the cache directory starts with the given files |
| Resolver.DocumentResolver.GetDidDocumentCached | src/commands/did_kg/resolver.rs:26-68 | the method moves the cache exactly as the lookup says |
| Resolver.DocumentResolver.ParseDidDocument | src/commands/did_kg/resolver.rs:70-113 | a lookup failure is returned; otherwise the record converted from the document |
| Resolver.DocumentResolver.ResolveTwice | src/commands/did_kg/resolver.rs:26-113 | after a successful resolution, resolving again gives the same record without asking the service; after a write that failed part-way, resolving again fails on the cache without asking it |
| DeleteLog.LogShape | src/commands/helpers.rs:19-44 | a deletion's log ends with its mark, starts with the prompt exactly when verbose, and with a break exactly when quiet at a break |
| DeleteLog.OneMark | src/commands/helpers.rs:23-44 | one deletion writes exactly one mark |
| DeleteLog.StepMarks | src/commands/helpers.rs:29-44 | the mark is a success mark exactly when the deletion succeeded |
| DeleteLog.StepNewlines | src/commands/helpers.rs:23-25 | a break is written only when quiet and the rule breaks at the previous count |
| DeleteLog.DeleteAllFound | src/commands/delete_all_twins.rs:73-88 | `n` deletions count `n` more found |
| DeleteLog.DeleteAllCounts | src/commands/delete_all_twins.rs:73-88 | `n` deletions count `n` found and one deleted per success, appending only |
| DeleteLog.MarksAgreeWithCount | src/commands/helpers.rs:29-44 | success marks equal the deleted count, failure marks the others |
| DeleteLog.QuietBreaks | src/commands/helpers.rs:23-25 | in quiet mode there is one break per index the rule breaks at |
| DeleteLog.BreaksFromZero | src/commands/helpers.rs:23-25 | from zero the helper breaks (n-1)/64 times; the delete-twins command's own rule breaks (n+63)/64 times |
| DeleteLog.Console.constructor | src/commands/delete_all_twins.rs:37-46 | nothing written yet |
| DeleteLog.Console.Write | src/commands/helpers.rs:19-44 | writing appends |
| DeleteLog.Console.DeleteAndLogTwin | src/commands/helpers.rs:9-49 | returns the delete result unchanged and writes exactly the deletion's log |
| DeleteTwins.PageStepCounters | src/commands/delete_twins.rs:89-91 | a page counts its twins found and its successful deletions |
| DeleteTwins.PageStepMarks | src/commands/delete_twins.rs:89-97 | a page's marks agree with its counts |
| DeleteTwins.StreamCounters | src/commands/delete_twins.rs:74-99 | the stream counts every twin received and each successful deletion |
| DeleteTwins.StreamMarks | src/commands/delete_twins.rs:74-99 | the stream's marks agree with its counts |
| DeleteTwins.SummaryAgrees | src/commands/delete_twins.rs:74-108 | the summary's counts are the twins of every item received, those before the close and those drained after it, and the successful deletions; they agree with the marks |
| DeleteTwins.DeleteTwinsCommand.constructor | src/commands/delete_twins.rs:42-50 | counters start at zero |
| DeleteTwins.DeleteTwinsCommand.DeleteTwin | src/commands/delete_twins.rs:122-164 | logs one deletion with this command's own break rule, counts it found, and deleted on success |
| DeleteTwins.DeleteTwinsCommand.DeletePage | src/commands/delete_twins.rs:89-91 | deletes a page's twins in order |
| DeleteTwins.DeleteTwinsCommand.DeleteFromPage | src/commands/delete_twins.rs:75-97 | an error is written; a page's twins are deleted |
| DeleteTwins.DeleteTwinsCommand.DeleteStream | src/commands/delete_twins.rs:74-99 | every item received is handled, those drained after the close included; the stream is closed exactly when a short page arrives, first at the closing point |
| DeleteTwins.DeleteTwinsCommand.Run | src/commands/delete_twins.rs:53-120 | stream, summary, verbose model deletion when asked for, and `Done.` |
| DeleteByModel.Status | src/commands/delete_twins_by_model.rs:139-150 | the command fails exactly when the model twin was to be deleted and could not be |
| DeleteByModel.CollectGathersTwins | src/commands/delete_twins_by_model.rs:78-102 | collection keeps the twins of the items received, in order, and writes one line per error only |
| DeleteByModel.DeletionPassCounts | src/commands/delete_twins_by_model.rs:114-137 | the deletion pass counts every collected twin, its marks agree with the deleted count, and it only appends |
| DeleteByModel.SameTwinsAsStreaming | src/commands/delete_twins_by_model.rs:78-137 | collecting first finds and deletes the same counts as deleting page by page |
| DeleteByModel.DeleteTwinsByModelCommand.constructor | src/commands/delete_twins_by_model.rs:42-50 | keeps the terminal |
| DeleteByModel.DeleteTwinsByModelCommand.CollectTwins | src/commands/delete_twins_by_model.rs:78-102 | every item received is collected, those drained after the close included; the stream is closed exactly when a short page arrives, first at the closing point |
| DeleteByModel.DeleteTwinsByModelCommand.DeleteCollected | src/commands/delete_twins_by_model.rs:114-128 | each twin is deleted with its position as the previous index |
| DeleteByModel.DeleteTwinsByModelCommand.Run | src/commands/delete_twins_by_model.rs:57-156 | collect, announce, delete, report, model deletion, and `Done.` only when the model deletion did not fail |
| DeleteAllTwins.HeaderCounts | src/commands/delete_all_twins.rs:66-71 | the count announcement writes no mark and no break |
| DeleteAllTwins.ReportCounts | src/commands/delete_all_twins.rs:90-96 | the report writes one break and no mark |
| DeleteAllTwins.ListingCounters | src/commands/delete_all_twins.rs:60-97 | every listed twin is counted and the report shows the successful deletions |
| DeleteAllTwins.ListingMarks | src/commands/delete_all_twins.rs:60-97 | the marks agree with the reported counts |
| DeleteAllTwins.QuietLines | src/commands/delete_all_twins.rs:73-96 | in quiet mode `n` twins give (n-1)/64 breaks among the marks and one before the report |
| DeleteAllTwins.DeleteAllTwinsCommand.constructor | src/commands/delete_all_twins.rs:37-46 | counters start at zero |
| DeleteAllTwins.DeleteAllTwinsCommand.DeleteOne | src/commands/delete_all_twins.rs:74-87 | one deletion with the count so far as the previous index |
| DeleteAllTwins.DeleteAllTwinsCommand.DeleteListed | src/commands/delete_all_twins.rs:73-88 | every listed twin is deleted in order |
| DeleteAllTwins.DeleteAllTwinsCommand.Run | src/commands/delete_all_twins.rs:54-108 | a listing error replaces the deletions, and `Done.` follows either way |
| FollowByModel.SpawnTwinsSpec | src/commands/follow_by_model.rs:107-221 | within a page the followers already spawned stay, each new one is numbered by its position and follows the next twin, the loop takes as many twins as there is room for (one once the cap is reached), and the stream is closed exactly when the loop leaves early |
| FollowByModel.SpawnAllSpec | src/commands/follow_by_model.rs:92-237 | after any prefix, followers are numbered from 1 and the first ones follow the twins reported in order; the stream is closed exactly when the twins reach the cap; below it every twin has one follower, at it there are cap followers plus one per drained item with twins |
| FollowByModel.SpawnedFollowers | src/commands/follow_by_model.rs:92-237 | for T twins reported, the first min(T, max(1, maximum)) followers follow the first twins, numbered from 1, so a maximum of 0 still spawns one; each item drained after the close that carries twins adds one more |
| FollowByModel.EmptyPageSpawnsNothing | src/commands/follow_by_model.rs:222-228 | an empty twin list spawns nothing and writes `Found 0 twins` |
| FollowByModel.DrainedPageAddsOne | src/commands/follow_by_model.rs:98-220 | an item with twins drained after the close announces them and spawns exactly one more follower, for its first twin |
| FollowByModel.SpawnLeftStays | src/commands/follow_by_model.rs:217-220 | once the twin loop has broken out, the rest of the page is skipped |
| FollowByModel.SpawnPage | src/commands/follow_by_model.rs:107-221 | the twin loop equals the page's spawn fold |
| FollowByModel.Run | src/commands/follow_by_model.rs:92-237 | every item received is handled, those drained after the close included; the followers and lines are those of the whole stream |
| FollowByModel.DecodesOnlyJson | src/commands/follow_by_model.rs:150-186 | a message is decoded exactly when its feed data's mime starts with `application/json` |
| FollowByModel.MessagesRead | src/commands/follow_by_model.rs:144-200 | reading stops right after the first failure, or at the end |
| FollowByModel.CrashOnlyOnError | src/commands/follow_by_model.rs:188-198 | an empty read is logged but never as a crash |
| FollowByModel.FollowStopsAtFirstError | src/commands/follow_by_model.rs:144-200 | a crash is logged exactly when the stream fails, and then it is the last line; without a failure every message is read |
| FollowByModel.MessagesReadCharacterised | src/commands/follow_by_model.rs:144-200 | the loop reads exactly n messages when n ends at the first failure, or at the end without one |
| FollowByModel.FollowLoop | src/commands/follow_by_model.rs:144-200 | the `active` loop reads exactly up to the first failure and logs each message |
| FollowByModel.FollowTask | src/commands/follow_by_model.rs:117-209 | `started` when verbose, then the subscription failure or the loop's log |
| FollowByModel.LabelShowsNumber | src/commands/follow_by_model.rs:120-125 | the label starts `Follower `, and its four-wide column reads back as the spawn index |

## Left out

- Concurrency. The actix runtime, mailboxes, `ctx.spawn`, `tokio::spawn` and `join_all` are not modelled. Messages are method calls on the coordinator, and the ghost trace records their order. A follower's task is a method run on its own inputs.
- Stopping an actor. A stopped coordinator handles no further message, which stands for its mailbox being dropped. Stopping the system from `stopped` and cancelling the stream task spawned on the context are not modelled.
- External calls are parameters. These are dig output, the version fetch, twin listing, deletion, the resolver service, the follow subscription and JSON or base64 decoding. A deletion's outcome is a function of the DID.
- Tokens, settings, write errors on the terminal and `expect` panics are left out. An absent twin id would panic; the model carries twin DIDs directly.
- Which items are buffered when a stream is closed. A sequence of items stands for what the receiver gets. Closing stops the senders, and the items already buffered are still received and handled, as in the code. Which items arrive before the close depends on timing, which is not modelled.
- Colours and column widths are left out, except the padded count columns and the follower label.
- The RDF store, Turtle parsing and serialisation are abstract. The ontology is a given set of triples, and serialisation is a parameter.
- The cache directory is a map from DID to decoded document. A stored entry is the `DidDocument` itself, so writing it out as JSON and parsing it back is taken to give the same document; the serialiser is not modelled. A file that cannot be parsed is an unreadable entry. A failed create leaves the DID uncached. A write that fails after the create leaves an unreadable file.
- Resolver.DocumentResolver.ResolveTwice: proved for a first resolution that succeeds and for one whose cache write fails part-way. After any other failed first resolution the outcome depends on what the cache and service hold.
- FollowByModel.FollowLoop: the message stream is a finite sequence, and the loop also ends when it runs out. The real loop would keep polling after the stream ends and log `got message None` on every poll.
- The follow command writes `Found 0 twins from {host}` with Rust debug formatting of the host id; the model keeps the host id as a value.
- The `did-kg` host worker always queries the production DNS zone (`{did}.iotics.space`); the list-hosts worker chooses the zone by network.
- Two break rules differ. The delete-twins command breaks whenever its own count is a multiple of 64, zero included. The shared helper skips index 0. Both are modelled as written.
- The completion check is modelled as written: it has no once-only guard and does not wait for the search stream to end. Completion is meant to happen once, after discovery has ended; the code ensures neither, see Findings.
- The resolver's cache is read and written without locking, and cache writes are not atomic: a concurrent reader can see a partly written file. The model takes one lookup at a time.

## Findings

| source | as written | input that shows it | evidently intended | confidence | as-written member | corrected member |
|---|---|---|---|---|---|---|
| src/commands/list_hosts/coordinator_actor.rs:180-182 | the coordinator stops whenever `hosts_found == hosts_handled` after a report, with no check that discovery has ended | discovery, report, discovery, report: the counters meet after the first report, the coordinator stops, and the second host's line is never written | stop once, after the search stream has ended and every discovered host has reported | not executed | ListCoordinator.EarlyStopDropsHost | FanOut.GuardedNoHostAfterStop |
| src/commands/did_kg/coordinator_actor.rs:178-182 | the graph is requested whenever `hosts_found == hosts_handled` after a report, with no check that discovery has ended | discovery, report, discovery, report: the counters meet after the first report and `GenerateKbMessage` is queued; the second host's report arrives behind it, so the summary and the graph cover the first host only and the second report is dropped once the coordinator stops | complete once, after the search stream has ended and every discovered host has reported | not executed | KgCoordinator.Coordinator.EarlyGeneration | FanOut.GuardedFiresOnce |
