# Verified models of the node agent

Dafny models of the parts of the node agent whose correctness is decided by their own code, and
proofs of what those parts promise.  `dafny verify dfyconfig.toml` checks everything.

| file | component |
|---|---|
| `LifecycleGate.dfy` | shared/exclusive lifecycle gate with writer preference, as a class and as a protocol of any number of threads |
| `Admission.dfy` | nested request slots around that gate, and the decoded request body |
| `NftScript.dfy`, `NftManager.dfy`, `PluginService.dfy` | nftables scripts with an interpreter, the fallible backend, and the plugin service transaction over it |
| `CloseFence.dfy` | closing the plugin service against running mutations, webhook producers, worker and deliveries |
| `Bytes.dfy`, `AsnDatabase.dfy` | the ASN database writer and its binary-search reader |
| `Netlink.dfy`, `SocketKill.dfy` | netlink messages (section 2.3.2 of RFC 3549) and the dump/destroy exchange over two transports |
| `JsonTree.dfy`, `JsonScanner.dfy`, `ObjectHash.dfy` | JSON trees and token streams, the structural body scan (object names as in section 4 of RFC 8259), and the streamed object hash |
| `NodeEnv.dfy` | the node.env rewriter against the dotenv parser |
| `UserHandler.dfy` | batches of user additions and removals |
| `ReportRing.dfy` | the overwrite-oldest report ring |

Mutex-protected sections are single steps of a state machine over an arbitrary list of threads;
stateful Go objects are classes whose methods are proved against specification functions.  What
the program cannot decide is nondeterministic: whether a script run, a netlink call or a core call
fails, whether a failed one took effect, when a request is cancelled, and what the kernel sends.
Constants that nothing can change (truthful, obedient, smooth, lasting, sturdy, reliable, sound, willing) single
out environments that behave; in them an operation is proved to fail only for the causes its contract names.
Address normalisation, case folding, trimming and number formatting are function parameters.

Two properties turned out not to hold as one might expect.  Cancelling the last exclusive waiter
while starts run does not notify, so a start that the gate would admit can stay asleep until the
running starts drain (`AdmissibleStartCanBeParked`, with the exact condition beside it).  And
rewriting node.env twice differs from rewriting it once when a line ends in more than one carriage
return (`RewriteTwiceDiffers`, with the exact condition in `RewriteTwice`).

## Model

| member | source | states |
|---|---|---|
| `LifecycleGate.XrayLifecycleGate.TryStart` | internal/httpserver/lifecycle_gate.go:31-45 | one round of a start acquire: admitted exactly when no exclusive waiter is counted and no exclusive lease is out, otherwise the gate is unchanged and the open channel is handed out |
| `LifecycleGate.XrayLifecycleGate.ReleaseStartLease` | internal/httpserver/lifecycle_gate.go:55-66 | with a start lease out it takes one back, and the last one returns the gate to idle and wakes everybody; without one it is the panic |
| `LifecycleGate.XrayLifecycleGate.EnterExclusive` | internal/httpserver/lifecycle_gate.go:73-88 | the first round of an exclusive acquire counts the waiter, and takes the lease at once only from an idle gate |
| `LifecycleGate.XrayLifecycleGate.RetryExclusive` | internal/httpserver/lifecycle_gate.go:76-92 | a later round takes the lease exactly from an idle gate and uncounts the waiter |
| `LifecycleGate.XrayLifecycleGate.CancelExclusiveWait` | internal/httpserver/lifecycle_gate.go:93-100 | a cancelled waiter is uncounted, and wakes the others only from an idle gate with no waiter left |
| `LifecycleGate.XrayLifecycleGate.ReleaseExclusiveLease` | internal/httpserver/lifecycle_gate.go:105-113 | an exclusive lease goes back to idle and wakes everybody; without one it is the panic |
| `LifecycleGate.RunsKeepInv` | internal/httpserver/lifecycle_gate.go:27-125 | the gate invariant (counters equal to the threads in each phase, mode in step with leases, nobody parked without a waker) holds in every state of every run of any number of threads |
| `LifecycleGate.MutualExclusion` | internal/httpserver/lifecycle_gate.go:27-113 | in every run an exclusive holder excludes every start holder and every other exclusive holder, and activeStarts and waitingExclusive count exactly their threads |
| `LifecycleGate.PairedReleaseNeverPanics` | internal/httpserver/lifecycle_gate.go:55-66 | in every run a thread that owes a release can make it: neither panic is reachable |
| `LifecycleGate.WriterPreference` | internal/httpserver/lifecycle_gate.go:34-43 | while an exclusive waiter is counted no step of any thread adds a start lease |
| `LifecycleGate.CancelledLeavesNoTrace` | internal/httpserver/lifecycle_gate.go:38-41 | in every state of every run, whatever was cancelled before, the mode and both counters are those of the phases of the threads still inside |
| `LifecycleGate.NeverStuck` | internal/httpserver/lifecycle_gate.go:44-51 | whenever a thread is inside, some thread inside can move without a cancellation, a look at a cancelled context or an arrival, so no parked thread waits for a notification nobody is left to send |
| `LifecycleGate.RunsAreBounded` | internal/httpserver/lifecycle_gate.go:27-125 | a run without arrivals is no longer than the potential of its first state |
| `LifecycleGate.EverybodyLeaves` | internal/httpserver/lifecycle_gate.go:27-125 | a run without arrivals that can go no further has let every thread out: nobody starves |
| `LifecycleGate.AdmissibleStartCanBeParked` | internal/httpserver/lifecycle_gate.go:93-100 | counterexample: a three-thread run leaves a start asleep that the gate would admit |
| `LifecycleGate.OnlySilentCancelParksAdmissible` | internal/httpserver/lifecycle_gate.go:93-100 | that stronger property is kept by a step if and only if the step is not the cancellation of the last exclusive waiter while starts run and one is parked |
| `Admission.RunsKeepInv` | internal/httpserver/server.go:145-153 | the admission invariant holds in every state of every run of any number of requests, on error and cancel paths too |
| `Admission.SlotsMatchHolders` | internal/httpserver/server.go:233-301 | every slot channel of every layer holds exactly one token per request inside that layer and never more than its capacity |
| `Admission.ReadersLeaveRoom` | internal/httpserver/server.go:233-260 | with more than one handler slot, read-only requests never occupy all of them |
| `Admission.DeadlockFree` | internal/httpserver/server.go:145-153 | in every state with a request in flight some request can step without a cancellation, a look at a cancelled context or a new arrival |
| `Admission.StuckIffQuiet` | internal/httpserver/server.go:233-301 | no step is left exactly when every request is answered, every slot is back and the lifecycle gate looks new |
| `Admission.EveryRequestCompletes` | internal/httpserver/server.go:145-153 | once arrivals stop, every run ends within a bound fixed at its start, with every request answered and every slot of every layer returned |
| `Admission.DecodedReadCloser.Read` | internal/bodylimit/middleware.go:99-127 | the decoded bytes reach the reader in order and never beyond the limit; at the limit one more decoded byte means too large, and otherwise the decoder's own error is passed on; below it the zstd size errors become too large; the end of the body is only reported after the last decoded byte; too large means a byte beyond the limit or a zstd size error |
| `Admission.DecodedReadCloser.Probe` | internal/bodylimit/middleware.go:103-117 | at the limit it asks for one byte as often as it takes: a byte means too large, otherwise the error of the decoder; the end is reported only if nothing was left |
| `Admission.ReadToEnd` | internal/bodylimit/middleware.go:99-127 | reading to the end gives the whole decoded body, never one beyond the limit; too large is reported only beyond the limit or for a zstd size error; for a sound body the length alone decides between the whole body and too large |
| `Admission.DecodedReadCloser.Close` | internal/bodylimit/middleware.go:129-144 | the decoder slot goes back exactly once however often the body is closed |
| `NftScript.StaticUpdateExact` | internal/plugin/nft_script.go:147-172 | a static update succeeds if and only if both tables carry the static sets; then those sets hold exactly the normalised configuration and everything else, the timed torrent sets included, is untouched |
| `NftScript.FullConfigCanonical` | internal/plugin/nft_script.go:16-108 | the full script succeeds from any kernel state, with or without old tables, and always ends in the same state |
| `NftScript.DeleteTablesExact` | internal/plugin/nft_script.go:125-132 | deleting the tables never fails and leaves no table and no set |
| `NftScript.PortsFrom` | internal/plugin/nft_script.go:279-292 | the ports in range, strictly increasing, each once |
| `NftScript.RenderBlock` | internal/plugin/nft_script.go:174-223 | rendered exactly when the batch is within the mutation limits, every address parses and the text is within the script limit; then it is the script that adds each address with its last timeout to the torrent set of its family |
| `NftScript.BlockExact` | internal/plugin/nft_script.go:174-223 | a block script succeeds if and only if the torrent sets it names exist, and then adds its addresses with their timeouts and changes nothing else |
| `NftScript.RenderUnblock` | internal/plugin/nft_script.go:228-270 | rendered exactly when the batch is within the mutation limits, every address parses and each command is within the script limit; the commands delete the distinct addresses of each family, in text order, from the torrent and the ingress set |
| `NftScript.UnblockNames` | internal/plugin/nft_script.go:228-270 | those commands delete every named address from both sets of its family and name nothing else |
| `NftScript.StaticUpdateIsShorter` | internal/plugin/nft_script.go:294-299 | a static update is never longer than the full script of the same configuration, so a configuration that was installed can always be restored |
| `NftScript.EmptyUpdateFits` | internal/plugin/nft_script.go:294-299 | the update to the empty configuration is within the script limit |
| `NftManager.Manager.RunScript` | internal/plugin/nft_linux.go:201-219 | a transaction that reports success was applied as a whole; one that fails may or may not have been; under a truthful nft a missing error means it could not run, under an obedient one it succeeds exactly when it can run |
| `NftManager.Manager.Initialize` | internal/plugin/nft_linux.go:41-64 | does nothing to a healthy backend; success leaves fresh empty tables, failure leaves it unhealthy; obedient, it succeeds exactly on a healthy backend or a capable one whose script fits |
| `NftManager.Manager.Reset` | internal/plugin/nft_linux.go:96-116 | success leaves exactly the fresh tables of the configuration; a failure that leaves the backend healthy changed nothing; obedient, it succeeds exactly when the backend is capable and the script fits |
| `NftManager.Manager.Apply` | internal/plugin/nft_linux.go:75-94 | success leaves the static sets enforcing the configuration; the torrent sets survive every outcome, and a failure that leaves the backend healthy changed nothing; obedient and with its sets in place, it succeeds exactly when owned, capable and the update fits |
| `NftManager.Manager.BlockIPs` | internal/plugin/nft_linux.go:118-141 | static sets are untouched and no set loses an element on any outcome; success leaves every address blocked with the last timeout given for it; the healthy flag is cleared only with an error; obedient, it succeeds exactly on a healthy backend for a batch that can be rendered and whose sets exist |
| `NftManager.Manager.UnblockIPs` | internal/plugin/nft_linux.go:143-181 | on every outcome only named addresses left a torrent or ingress set; under a truthful nft success means that no named address is in either of its sets; the healthy flag is cleared only with an error; obedient, it succeeds exactly on a healthy backend for a batch that can be rendered |
| `NftManager.Manager.DeleteAll` | internal/plugin/nft_linux.go:156-166 | goes on past missing elements, stops at any other failure, and only removes named addresses; under a truthful nft, if it stops nowhere everything it was to delete is gone |
| `NftManager.Manager.ProbeStructure` | internal/plugin/nft_linux.go:167-179 | lists both tables without changing anything: success means both are there, and under a truthful nft a missing error means one is not |
| `NftManager.Manager.Close` | internal/plugin/nft_linux.go:183-199 | success deletes the owned tables and gives up ownership; either way the backend is unhealthy; obedient, it always succeeds |
| `NftManager.SameListsEnforce` | internal/plugin/service.go:703-713 | configurations that compare equal are enforced by the same kernel state |
| `NftManager.UnblockKeepsEnforcing` | internal/plugin/nft_linux.go:143-181 | removing named addresses keeps the sets enforcing the configuration up to the addresses unblocked since the last static write |
| `PluginService.Service.InitializeContext` | internal/plugin/service.go:109-133 | keeps the published snapshot in agreement with the kernel; success means a healthy backend with fresh tables unless it was healthy already; undisturbed, it succeeds exactly when open and the backend was healthy or can be set up |
| `PluginService.Service.ApplySnapshot` | internal/plugin/service.go:265-357 | on every path (skip, apply, failed apply with rollback, cancellation after apply, reset, failed reconcile) the published snapshot agrees with the kernel; an error leaves the old snapshot or a degraded one; timed blocks survive unless a required reset was written, and with reconcile-first the log of calls made shows a successful reconcile before it; undisturbed (no cancellation, reconciles succeed, an obedient nft) it fails exactly when the backend cannot take the tables |
| `PluginService.Service.MutateFirewall` | internal/plugin/service.go:288-318 | the firewall half of a transaction, with exactly the backend calls it made: applied, skipped, or failed with the previous configuration restored or a degraded snapshot published |
| `PluginService.Service.Settle` | internal/plugin/service.go:319-356 | the half after the firewall: publishes the new snapshot, or takes the firewall back and keeps the old one, and never touches timed blocks |
| `PluginService.Service.RollBack` | internal/plugin/service.go:366-370 | restores the firewall of the previous snapshot or publishes it degraded over an unhealthy backend |
| `PluginService.Service.SyncContext` | internal/plugin/service.go:154-222 | keeps the agreement; what it published is what was asked; tables are reset only for a null or invalid request or an effective torrent disable, only after a reconcile that the log of calls shows to have succeeded, and timed blocks survive every other sync; undisturbed, it accepts exactly a request of the same source, a built plan the backend can take, or a removal of what is there |
| `PluginService.Service.SyncPlan` | internal/plugin/service.go:188-221 | the tail of a sync for a built plan: metadata-only changes publish without touching the kernel, others go through the transaction |
| `PluginService.Service.ResetPluginsContext` | internal/plugin/service.go:242-251 | success clears the snapshot and leaves fresh empty tables, which undisturbed it does exactly when admitted and the backend can take them |
| `PluginService.Service.RecreateTablesContext` | internal/plugin/service.go:513-533 | success leaves exactly the fresh tables of the snapshot and makes a degraded snapshot ready again, which undisturbed it does exactly when admitted and the backend can take them |
| `PluginService.Service.BlockIPsContext` | internal/plugin/service.go:454-481 | static sets and all earlier timed blocks stay; accepted means every address is blocked; a backend that broke on the way is published degraded; undisturbed, it accepts exactly what a healthy backend can block |
| `PluginService.Service.UnblockIPsContext` | internal/plugin/service.go:487-507 | only named addresses left their sets; under a truthful nft accepted means they are in neither set; a backend that broke on the way is published degraded; undisturbed, it accepts exactly a well-formed batch on a healthy backend |
| `PluginService.Service.ProcessXrayWebhook` | internal/plugin/torrent.go:165-227 | reports only under effective torrent blocking before close; a report marked blocked means the address is in the kernel; static sets and earlier timed blocks stay on every outcome |
| `PluginService.Service.CloseContext` | internal/plugin/service.go:552-583 | one-way; success removes the tables and the snapshot, failure keeps the snapshot and can be retried; undisturbed, it succeeds |
| `PluginService.Perform` | internal/plugin/service.go:154-583 | each operation, whatever fails inside it, leaves the published snapshot in agreement with the kernel; unless it is one that may reset, set up or delete tables and the log of calls shows that it did, no timed block is lost but the addresses an unblock names; a sync or rebuild resets tables only after a successful reconcile |
| `PluginService.AnyRun` | internal/plugin/service.go:154-583 | every run of operations in any order keeps that agreement each time the gate is free, close is never undone, every sync and rebuild in it reconciles before it resets, and a run in whose log no tables were reset, set up or deleted keeps every timed block that no unblock named |
| `CloseFence.Reachable` | internal/plugin/service.go:552-598 | the invariant of the close protocol holds in every state of every interleaving of mutations, producers, closers, worker and deliveries |
| `CloseFence.OnlyClosersCallAfterFence` | internal/plugin/service.go:552-598 | in every run, from the moment a closer first holds the gate the backend is called by closers only |
| `CloseFence.ClosingIsOneWay` | internal/plugin/torrent.go:122-163 | from any reachable state on: the fence stays, nothing is enqueued after the stop signal returned, a finished worker stays finished, a drained queue stays empty |
| `CloseFence.NothingAfterStop` | internal/plugin/torrent.go:59-163 | in every run nothing is enqueued after the stop signal and the final drain leaves the queue empty for good |
| `CloseFence.DeliveriesBounded` | internal/plugin/webhook.go:30-48 | never more than four deliveries at once, none when the worker is done, none started afterwards |
| `CloseFence.StopIsNotBlocked` | internal/plugin/torrent.go:122-136 | while a closer waits for the admission lock every producer holding it can leave at once, even one blocked on a full queue |
| `AsnDatabase.NormalizedExact` | internal/asn/writer.go:116-141 | the normalised list holds exactly the masked valid prefixes of the family, strictly increasing |
| `AsnDatabase.IncreasingUnique` | internal/asn/writer.go:116-141 | an increasing list is determined by its elements, so the normalised list is the only one |
| `AsnDatabase.NormalizePrefixes` | internal/asn/writer.go:116-141 | filter, mask, sort and drop repeats, in place of the specification |
| `AsnDatabase.SortPrefixes` | internal/asn/writer.go:128-133 | sorted, and a permutation |
| `AsnDatabase.DropRepeats` | internal/asn/writer.go:134-140 | adjacent repeats dropped: the elements stay, each once |
| `AsnDatabase.RegionsContiguous` | internal/asn/writer.go:28-95 | data regions follow each other without gap or overlap inside the file, and every offset fits a signed 64-bit integer |
| `AsnDatabase.DecodeRecordsInverts` | internal/asn/db.go:97-120 | decoding the written records gives the prefixes back |
| `AsnDatabase.SearchAnswers` | internal/asn/db.go:69-95 | the binary search over a file sorted by ASN finds the entry of a present ASN and nothing for an absent one |
| `AsnDatabase.PrefixesByASN` | internal/asn/db.go:69-95 | the search loop computes that answer, with every read in bounds |
| `AsnDatabase.DecodeBlob` | internal/asn/db.go:97-120 | the blob cursor decodes the IPv4 run and then the IPv6 run |
| `AsnDatabase.RoundTrip` | internal/asn/writer.go:28-95 | for every accepted entry list and every ASN, lookup in the written file gives exactly the masked, filtered, sorted, deduplicated prefixes of that entry, and nothing for other ASNs |
| `AsnDatabase.WriteAll` | internal/asn/writer.go:97-114 | over a destination that may write short, fail or report impossible counts: success exactly when no call was at fault, and then everything arrived in order; otherwise a first part of it did; a reliable destination never fails it |
| `AsnDatabase.PrepareSorted` | internal/asn/writer.go:32-48 | copies, sorts by ASN and normalises; refuses exactly the repeated ASNs and the counts that do not fit |
| `AsnDatabase.BuildIndex` | internal/asn/writer.go:59-70 | the index entries carry the running data offset |
| `AsnDatabase.WriteRecords` | internal/asn/writer.go:74-93 | the records of one family, in order, all of them exactly when the destination was never at fault |
| `AsnDatabase.Write` | internal/asn/writer.go:28-95 | refuses exactly the inputs that are not accepted and then writes nothing; otherwise it succeeds exactly when the destination was never at fault, with the whole file of the prepared entries behind what was there, and a first part of it on failure; to a reliable destination it succeeds exactly for accepted inputs |
| `Netlink.DecodesMarshalled` | internal/netadmin/kill_linux.go:370-379 | a marshalled message is decoded from the front of whatever it starts |
| `Netlink.MarshalsDecoded` | internal/netadmin/kill_linux.go:413-428 | whatever is decoded was there in marshalled form |
| `Netlink.WalkInvertsPacking` | internal/netadmin/kill_linux.go:381-411 | the walker accepts exactly the aligned concatenations of marshalled messages (last one padded or not) and visits exactly those messages in order |
| `Netlink.WalkMessages` | internal/netadmin/kill_linux.go:381-411 | the loop over a strictly growing offset visits what the walk says, on malformed datagrams too |
| `Netlink.DrawClosedForm` | internal/netadmin/kill_linux.go:489-495 | the k-th draw is one plus a residue modulo 2^32 - 1 |
| `Netlink.SequencesDistinct` | internal/netadmin/kill_linux.go:489-495 | sequence numbers are never zero and pairwise different within any 2^32 - 1 draws in a row |
| `SocketKill.DigestMeaning` | internal/netadmin/kill_linux.go:166-235 | a dump is accepted exactly while it is records and fillers with at most one zero-status completion followed by fillers, and the sockets are the matching records in order, once each |
| `SocketKill.AckMeaning` | internal/netadmin/kill_linux.go:237-286 | a reply datagram is accepted exactly when it holds fillers and at most one acknowledgement, which is then the answer |
| `SocketKill.Transport.Receive` | internal/netadmin/kill_linux.go:583-611 | copies the next datagram over the transport's own buffer; truncated and empty datagrams are errors |
| `SocketKill.WalkAck` | internal/netadmin/kill_linux.go:250-281 | reads an acknowledgement datagram where it lies in the buffer |
| `SocketKill.AwaitAll` | internal/netadmin/kill_linux.go:244-285 | goes on past filler datagrams until one settles the request; an unanswered request is exactly a receive failure recorded by the transport; on a calm transport that means the kernel sends nothing more |
| `SocketKill.DestroySocket` | internal/netadmin/kill_linux.go:237-286 | succeeds if and only if the transport recorded no failed send or receive and the replies acknowledge the request with success or no-such-socket; on a calm transport (no failing system call, no unusable datagram) it fails only when the kernel refuses or falls silent |
| `SocketKill.Step` | internal/netadmin/kill_linux.go:182-231 | reads one message at the offset in the buffer, runs the nested destroy exchange for a match and leaves the bytes still to be read as they were received |
| `SocketKill.WalkDump` | internal/netadmin/kill_linux.go:182-233 | one dump datagram: succeeds if and only if no destroy exchange failed or was refused, the datagram is well formed and its messages extend an acceptable dump; only matching records are ever asked to be destroyed |
| `SocketKill.ConsumeDump` | internal/netadmin/kill_linux.go:166-235 | succeeds if and only if neither transport recorded a failure, every destroy was acknowledged, every datagram was sound kernel unicast and the messages form a complete dump; then the requests sent are exactly the matching records in order, once each; on calm transports it fails only for a bad dump, a dump the kernel does not go on with, or a failed destroy |
| `SocketKill.KillByFamilies` | internal/netadmin/kill_linux.go:127-164 | one numbered dump per family; succeeds if and only if no transport recorded a failure, every destroy was acknowledged and every dump is complete; on every outcome the sockets asked to be destroyed are a prefix of the matching records, on success all of them; on calm transports only what the kernel sends or leaves out makes it fail |
| `SocketKill.KillSocketsByTargets` | internal/netadmin/kill_linux.go:127-164 | the same for the native wire format, IPv6 before IPv4 |
| `SocketKill.MappedTargetMatches` | internal/netadmin/kill_linux.go:288-317 | an IPv4 target matches a mapped IPv6 endpoint at either end |
| `SocketKill.DestroyRequestNamesSocket` | internal/netadmin/kill_linux.go:362-368 | a destroy request decodes to the matched socket identity |
| `JsonScanner.ScanTree` | internal/nodeapi/json.go:125-248 | over the tokens of a tree the scan succeeds exactly when the tree is acceptable and within the token budget, and consumes exactly those tokens |
| `JsonScanner.GoodIsShape` | internal/nodeapi/json.go:149-248 | acceptable means: containers at most 64 deep, member and item limits by schema, keys distinct, short and well spelt, at every level |
| `JsonScanner.ValueIsTree` | internal/nodeapi/json.go:125-248 | whatever token stream the scan accepts is the stream of a tree |
| `JsonScanner.AcceptsExactly` | internal/nodeapi/json.go:65-107 | a token stream is accepted if and only if it is that of one object or array with the shape and has at most 1,048,576 tokens |
| `JsonScanner.TokenScanner.Next` | internal/nodeapi/json.go:110-123 | counts tokens; at the limit the end of the input is still not an error |
| `JsonScanner.TokenScanner.ScanJSONToken` | internal/nodeapi/json.go:125-147 | agrees with the scan function on problem and position, and leaves the decoder in the enclosing context |
| `JsonScanner.TokenScanner.ScanJSONObject` | internal/nodeapi/json.go:149-214 | the member loop finds the first problem the scan function names, in the same order of checks |
| `JsonScanner.TokenScanner.ScanJSONArray` | internal/nodeapi/json.go:216-248 | the item loop likewise |
| `JsonScanner.ScanJSONDocument` | internal/nodeapi/json.go:65-107 | accepts exactly the acceptable documents, and the empty body when that is allowed |
| `ObjectHash.PassTree` | internal/plugin/objecthash.go:86-126 | over a tree the pass writes its text within the budgets on depth, tokens and output, and otherwise a prefix of it |
| `ObjectHash.HashesExactly` | internal/plugin/objecthash.go:43-64 | the stream of a value succeeds if and only if nesting is at most 64, tokens at most 65,536 and output at most 2 MiB; what is written is the recursive text or a prefix of it |
| `ObjectHash.OnlyValuesHash` | internal/plugin/objecthash.go:43-64 | nothing but the stream of one value succeeds |
| `ObjectHash.BoundedWriter.Write` | internal/plugin/objecthash.go:240-250 | writes all of the value or nothing, within the remaining output; a destination that fails or writes short makes it fail with a first part of the value written; a sturdy destination does neither |
| `ObjectHash.HashTraversal.NextToken` | internal/plugin/objecthash.go:71-84 | stops at a cancelled context, which a lasting one never is, counts every token that was read and fails beyond the budget |
| `ObjectHash.HashTraversal.StringifyToken` | internal/plugin/objecthash.go:86-126 | agrees with the pass function on success, position and bytes written; interrupted, it fails with a first part of those bytes written; with a lasting context and a sturdy destination it is never interrupted |
| `ObjectHash.HashTraversal.StringifyObject` | internal/plugin/objecthash.go:167-206 | the member loop likewise |
| `ObjectHash.HashTraversal.StringifyArray` | internal/plugin/objecthash.go:208-233 | the item loop likewise |
| `ObjectHash.StringifyJSON` | internal/plugin/objecthash.go:43-64 | for every token stream: success only for one value, and for the stream of a value exactly when it is within the budgets and nothing interrupted it, which nothing does under a lasting context and a sturdy destination; what is written is the recursive text, or a prefix of it |
| `NodeEnv.ParseDotEnvData` | internal/config/config.go:236-275 | parses exactly the files within the limits on bytes, lines, assignments and line length whose every line is blank, a comment or an assignment; the last binding of a key wins |
| `NodeEnv.RawLinesOfJoin` | internal/rnlctl/configuration.go:415-416 | lines written with a newline each are scanned back as they were |
| `NodeEnv.ClassifyWritten` | internal/rnlctl/configuration.go:409-412 | an assignment written for a plain key and value reads back as that key and value |
| `NodeEnv.ParseEnvironmentAssignments` | internal/rnlctl/native_config.go:196-226 | passes exactly assignments and blanks without a repeated key |
| `NodeEnv.ValidateConfigurationUpdate` | internal/rnlctl/configuration.go:342-369 | accepts exactly non-empty requests of editable keys, each named once, with values that can stand in a line |
| `NodeEnv.RewriteEditableConfiguration` | internal/rnlctl/configuration.go:387-432 | the line loop and the append loop write exactly the specified file; refused exactly when the old file does not pass the check |
| `NodeEnv.RewriteCommutes` | internal/rnlctl/configuration.go:387-432 | parsing the rewritten file gives the original bindings without the removed keys and with the assigned keys bound to their unquoted values |
| `NodeEnv.KeepsUntouched` | internal/rnlctl/configuration.go:399-417 | lines the update does not name keep their text and order; every other line of the result is a written assignment |
| `NodeEnv.RewriteTwice` | internal/rnlctl/configuration.go:387-432 | rewriting twice equals rewriting once if and only if no untouched line still ends in a carriage return after the scanner dropped one |
| `NodeEnv.RewriteTwicePlain` | internal/rnlctl/configuration.go:387-432 | a file without carriage returns is settled by one rewrite |
| `NodeEnv.RewriteTwiceDiffers` | internal/rnlctl/configuration.go:387-432 | counterexample: a comment that ends in two carriage returns changes again in the second rewrite, for every update |
| `NodeEnv.RewriteKeepsGood` | internal/rnlctl/configuration.go:387-432 | a rewrite never makes a line the parser rejects |
| `NodeEnv.RewriteKeepsDistinct` | internal/rnlctl/configuration.go:387-432 | the rewritten file of a file without repeated keys has no repeated key |
| `NodeEnv.RewriteKeepsScannable` | internal/rnlctl/configuration.go:387-432 | the rewritten file has no line too long for the scanner if and only if no written assignment is too long |
| `NodeEnv.ApplyRequest` | internal/rnlctl/configuration.go:342-432 | gives the specified file exactly for a valid request on a file that passes the check; the new file passes the check again exactly when no written line is too long; its parse succeeds exactly within the parser's limits and then has the promised bindings |
| `UserHandler.FirstFailureIsFirst` | internal/nodehandler/handler.go:440-460 | success means no failure at all, and the message reported is that of the first one |
| `UserHandler.ResultAccumulator.Add` | internal/nodehandler/handler.go:440-445 | keeps the first failure |
| `UserHandler.ResultAccumulator.Response` | internal/nodehandler/handler.go:455-460 | the response of the results so far; an empty message leaves the error out |
| `UserHandler.BatchMutationTags` | internal/nodehandler/handler.go:521-546 | the provider's, affected and requested tags, each once, without the empty one |
| `UserHandler.LastEntryWins` | internal/nodehandler/handler.go:246-271 | replacing entry by entry leaves each user, on the tags of the batch, in exactly the inbounds of its last entry |
| `UserHandler.AddUsers` | internal/nodehandler/handler.go:227-273 | success leaves membership on the tags of the batch exactly as the last entries ask; an entry whose cleanup failed is never added; users not named keep their memberships; the error is the first failure; with a willing core and no cancellation it succeeds exactly when every user type is known |
| `UserHandler.RemoveUsers` | internal/nodehandler/handler.go:275-326 | success removes every named user from every tag and nobody else; connections are dropped at most once, last, and only for users removed from every tag; on failure too, nobody else loses a membership; with a willing core and no cancellation it succeeds |
| `ReportRing.State.AddReport` | internal/plugin/state.go:133-144 | appends to the log, overwriting the oldest report of a full ring and saying so |
| `ReportRing.State.FlushReports` | internal/plugin/state.go:117-131 | returns the newest 1024 reports since the last flush in arrival order and the number overwritten modulo 2^64, and starts over |
| `ReportRing.Play` | internal/plugin/state.go:111-144 | any history of adds and flushes is answered as an append-only log would |
| `ReportRing.NothingUnaccounted` | internal/plugin/state.go:111-144 | over any history, the reports returned by flushes, those the flushes counted as lost and those pending add up to the reports added: exactly while fewer than 2^64 were added, modulo 2^64 for ever |

## Left out

- Loops of waiting, polling and deadlines: a wait is a step that may be cancelled, and wall-clock time does not appear.
- The text of nft scripts: scripts are command lists with an interpreter, because the nft grammar is not part of this model; the size of block and unblock texts is a parameter.
- The nft kernel beyond sets: rules are carried as the table's options, element timeouts never run out, and a timeout given again to a present address replaces the old one.
- NftManager.Manager.UnblockIPs: that the addresses are gone is stated for a truthful nft, because the program itself takes missing-element errors for success.
- PluginService.Service.SyncContext: building a plan (parsing, ASN expansion, hashing) is an input; hashed tag lists are compared as multisets.
- PluginService: other programs changing the tables, and the Xray manager behind a reconcile, beyond succeeding or failing.
- Sending webhooks, pre-start and post-start socket work, and the reporting of failed deliveries.
- Address parsing, CIDR merging, SHA-256, JWT, TLS and the decompressors themselves.
- SocketKill: opening and closing sockets, and retries after EINTR and EAGAIN; a transport is a list of datagrams that the kernel will deliver.
- SocketKill.KillSocketsByTargets: starts from two open transports and normalised targets; a failing factory and an empty target set are not modelled.
- AsnDatabase.Write: hands its bytes to the destination directly; the standard library's buffer in between, which passes on the same bytes, is not modelled.
- Admission.DecodedReadCloser.Read: a decoder that hands out nothing for ever without an error, on which the probe would not end.
- Admission.DecodedReadCloser.Close: the errors of closing the decoder and the original body.
- JsonScanner: the path and wording of an issue; the kind of the first problem is kept. Unmarshalling and DTO validation after the scan.
- JsonTree: the lexer of Go's decoder; where the input stops being JSON the token stream has an invalid token.
- ObjectHash.StringifyJSON: the null and blank configurations, which are never hashed; number formatting cannot fail on a JSON lexeme.
- NodeEnv.ParseDotEnvData: files that are not valid UTF-8, since a file is a sequence of characters.
- The file transaction around a rewrite: snapshots, ownership, restart and recovery.
- UserHandler: the mutation gate and the recovery from panics; user credentials and the hashes passed along to the core; AddUser, which for a replaced user looks up its connections before the cleanup and drops them before the additions, and RemoveUser.
- Statistics, routing tables, the release tool, command-line parsing, help and doctor output: presentation, fixed tables or easy members.
