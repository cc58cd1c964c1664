# OxiProxy, modelled and verified

A Dafny model of the stateful core of OxiProxy: the Controller's session registry, request
correlation, traffic accounting, subscription quotas and proxy table, the Client that follows the
Controller's proxy list, and the routing, liveness, backoff and unit-file rules they share.
`dafny verify dfyconfig.toml` checks everything.

| file | models |
|---|---|
| SessionRegistry.dfy | live sessions per node or client and the persisted online column, with every interleaving of session tasks, syncs and pushes at their awaits, under a fair lock |
| PendingRequests.dfy | request ids, slow sends, responses, waiters and the timed sweeper, over all sessions |
| Traffic.dfy | the traffic buffers and their flushes into the proxy, daily, client, user and node tables |
| TrafficRows.dfy | what a flush leaves in each row of those tables, told from the entries and the row alone |
| FlushOverlap.dfy | flushes of several traffic managers that overlap on one proxy |
| FlushRuns.dfy | the same for any number of managers and proxies at once, from the reports on |
| AccountOverlap.dfy | flushes that overlap on a client, user or node row, with its reset and its separate flag write |
| ProxyList.dfy | the proxy list the Controller builds for a client |
| ConnectionManager.dfy | the Client's tasks and connection map, one reconciliation at a time, and the composition with the list |
| Notifications.dfy | pushing the list after each change of the tables, with notifications that overtake each other |
| Heartbeat.dfy | the heartbeat loop, one instant per millisecond |
| Domain.dfy, Text.dfy | normalisation of names and patterns, and the route lookup |
| ProxyTable.dfy | the proxy table behind its two triggers |
| SubscriptionQuota.dfy | subscriptions merged into and rolled back from the users' quotas |
| Backoff.dfy | the reconnect backoff |
| Systemd.dfy | command-line quoting, the unit file, and the log path read back from it |
| Wrappers.dfy | `Option` and `Result` |

What changes state in the source is a class here, and each of its methods is proved to reach the
state that a specification function describes. The theorems are about those functions: over every
run of a step machine, every drain order, every input. Where a hash map or a set is walked, the
walk picks elements in an arbitrary order.

Places where the code does not do what its callers may expect are kept as they are, with the exact
condition proved:

- a flush can leave a row that is over its quota unflagged, and a batch can lose a flag that single
  flushes set: exactly when, and an input for each, in `Traffic.FlagAfterFlush`,
  `Traffic.StaleFlagExample`, `Traffic.BatchFlagsExactly` and `Traffic.BatchLosesFlag`;
- every traffic report gets its own traffic manager, and flushes of two managers can overlap; a proxy's
  total then loses bytes that its daily row keeps, exactly if an entry writes between another's read
  and write (`FlushRuns.ProxyGrowsAlikeExactly`, with the input `FlushOverlap.OverlapExample`), and a
  client, user or node row loses bytes on the same condition (`AccountOverlap.CountersLoseExactly`);
- the Controller holds its registry lock while it pushes to a session; a peer that does not read stops
  every registration, and behind a waiting one every sync, until it reads or goes away; in the
  model nothing else stops them (`SessionRegistry.NoDeadlock`, `SessionRegistry.StalledPeerBlocks`, with the run
  `SessionRegistry.OnePeerStopsAnother`);
- a proxy list is built before the lock to send it is taken, so an older list can be sent last; the
  client then keeps a tunnel for a proxy that is disabled (`Notifications.LastListExactly`,
  `Notifications.DisabledProxyStays`);
- a certificate update is sent with an empty request id; it is the one command with that defect
  (`PendingRequests.EchoedId`), and it is never answered (`PendingRequests.CertificateIsNeverAnswered`);
- a software-update wait of 120 s never times out, because the sweeper drops its entry before that: it
  ends answered or disconnected (`PendingRequests.SoftwareUpdateNeverTimesOut`). The age of an entry
  counts from its registration, before the command is sent, so the sweeper can cut a wait exactly if
  the send and the timeout add up to more than 60 s (`PendingRequests.CutExactly`); a wait of 10 s is cut
  after a send of 55 s (`PendingRequests.HeldSendIsCut`);
- a tunnel runs towards the listed address, protocol and KCP settings exactly if it was reconnected or
  was made for them (`ConnectionManager.RunsTowardsListed`, with the input
  `ConnectionManager.MovedNodeIsNotFollowed`);
- a user is limited after a run exactly if they were before or were ever given a subscription that grants
  the quota, even one that has ended (`SubscriptionQuota.LimitedExactly`,
  `SubscriptionQuota.UnlimitedIsNotRestored`); and a subscription deleted or deactivated while an expiry
  is under way is rolled back twice (`SubscriptionQuota.RolledBackTwice`);
- a line break in a unit's fields can redirect the log path that is read back (`Systemd.RoundTripExactly`,
  `Systemd.DescriptionCanRedirect`).

## Model

| member | source | states |
|---|---|---|
| SessionRegistry.StreamManager.Register | controller/src/client_stream_manager.rs:44-59 | the session becomes the entry of its id; if the id has a row it is online; every other entry and row is unchanged |
| SessionRegistry.StreamManager.Unregister | controller/src/client_stream_manager.rs:62-78 | only the session that is the entry removes it and sets its row offline; any other session changes neither map nor column |
| SessionRegistry.StreamManager.SyncOnlineStatus | controller/src/client_stream_manager.rs:110-120 | undisturbed, the sync leaves a row online if and only if its id has an entry whose channel is not closed |
| SessionRegistry.StreamManager.ApplyOnlineStatus | controller/src/node_manager.rs:110-117 | in place, each row of an API response is online if and only if its id has an entry whose channel is not closed; its id and name stay |
| SessionRegistry.InvHolds | controller/src/node_manager.rs:54-130 | in every state of every interleaving of registrations, unregistrations, closings and syncs the lock, map, writer, column and sync invariants hold together |
| SessionRegistry.PersistedPresence | controller/src/node_manager.rs:54-130 | whenever no task holds the write lock, an id with an entry whose channel is not closed is persisted online, and an id whose latest session has unregistered is persisted offline |
| SessionRegistry.EntryIsLatest | controller/src/client_stream_manager.rs:44-78 | in every reachable state the entry of an id is the session registered last, and it is absent exactly when that session has removed it |
| SessionRegistry.ReplacedSessionIsInert | controller/src/node_manager.rs:71-88 | from the moment a session is replaced, none of its steps in the rest of the run changes the map or the column |
| SessionRegistry.AllSessionsEnded | controller/src/grpc_agent_client_service.rs:141-211 | once every session task has ended the map is empty and every id that was ever registered is persisted offline |
| SessionRegistry.WriterIsIsolated | controller/src/node_manager.rs:64-68 | while a task holds the write lock no step of another task changes map, column or lock |
| SessionRegistry.RegisterIsAtomic | controller/src/grpc_agent_server_service.rs:165-171 | whatever tasks run in between, a registration changes map and column as the one indivisible step that `Register` describes |
| SessionRegistry.UnregisterIsAtomic | controller/src/grpc_agent_server_service.rs:336-340 | the same for an unregistration and `Unregister` |
| SessionRegistry.NoDeadlock | controller/src/node_manager.rs:213-219 | as long as a task is unfinished, some task can take a step, if and only if not all holders of the lock are pushes that wait on a full open channel with everything else queued behind a writer |
| SessionRegistry.QueueInvHolds | controller/src/node_manager.rs:54-130 | in every state of every run each queued task wants the lock and is queued once |
| SessionRegistry.StalledPeerBlocks | controller/src/node_manager.rs:213-219 | while a push waits on a full open channel no session enters or leaves the map and nothing overtakes a queued registration, however the run goes on, until the peer reads or goes away |
| SessionRegistry.ReliefUnblocks | controller/src/node_manager.rs:213-219 | as soon as the peer reads or goes away the push can go on |
| SessionRegistry.OnePeerStopsAnother | controller/src/client_stream_manager.rs:137-147 | a run after which one peer that does not read keeps another id from registering and no task can go on |
| SessionRegistry.SyncTakesOffline | controller/src/client_stream_manager.rs:110-120 | a sync that finds no entry for a row, or one whose channel is closed, writes it offline, and the row stays offline until a later registration of that id, provided no other sync is about to write an older reading |
| SessionRegistry.SyncWritesWhatItRead | controller/src/client_stream_manager.rs:110-120 | whatever runs in between, a sync leaves the row online if and only if, when it read the map, the id had an entry whose channel was not closed; no other row changes |
| SessionRegistry.SyncCoversRows | controller/src/client_stream_manager.rs:110-120 | a sync leaves out no row it fetched: by its end it has read the map for each of them |
| SessionRegistry.ClosedSessionGoesOffline | controller/src/client_stream_manager.rs:105-118 | a run in which a peer is gone, its session has not unregistered yet, and a sync takes its row offline although the entry is still in the map |
| SessionRegistry.RowsStay | controller/src/client_stream_manager.rs:44-120 | over every run presence is written only to rows that exist |
| PendingRequests.PendingTable.Register | common/src/grpc/pending_requests.rs:53-62 | the new entry is added with its creation time and no other entry changes |
| PendingRequests.PendingTable.Complete | common/src/grpc/pending_requests.rs:66-72 | true exactly if the id was pending and its waiter still listens; the entry is gone either way, and no other request is touched |
| PendingRequests.PendingTable.Sweep | common/src/grpc/pending_requests.rs:38-44 | the retain loop keeps exactly the entries younger than 60 s and closes the channels of exactly those it drops |
| PendingRequests.InvHolds | common/src/grpc/pending_requests.rs:53-83 | over every run of session replacements, requests, responses, timeouts and sweeps the correlation invariants hold |
| PendingRequests.MatchesExactly | controller/src/node_manager.rs:133-138 | a response is matched exactly if its request was issued to the same home, is unanswered and still awaited; and then it belongs to the current session |
| PendingRequests.RespondIsIsolated | controller/src/node_manager.rs:133-138 | a response leaves every other request and every other entry unchanged, and a late or duplicate one changes no request at all |
| PendingRequests.ResolvedOnce | common/src/grpc/pending_requests.rs:66-83 | over every run a request is resolved by at most one response, and a waiter returns only a value matched under its own id at its own home |
| PendingRequests.EchoedId | controller/src/node_manager.rs:378-418 | an echoed id is the registered one for every command if and only if the command is not the certificate update |
| PendingRequests.OnlyTheIdChanges | controller/src/node_manager.rs:378-418 | filling in an id keeps the variant and the content of every payload; one that takes no id is returned as it was |
| PendingRequests.SentIsIssued | controller/src/node_manager.rs:150-165 | over every run, what went out under an id is the command issued under it, of the same variant and content, with that id, or with none for the certificate update |
| PendingRequests.SentWasIssued | controller/src/node_manager.rs:150-165 | and nothing goes out that was not issued |
| PendingRequests.CertificateEchoNeverMatches | controller/src/node_manager.rs:349-374 | in no reachable state does the echo of a certificate update match, because its id was never filled in |
| PendingRequests.CertificateIsNeverAnswered | controller/src/node_manager.rs:349-374 | over every run in which peers answer only with ids they were sent, no response carries the id of a certificate update and its waiter never gets a value |
| PendingRequests.CertificateGoesOut | controller/src/node_manager.rs:349-374 | a run that sends a certificate update and waits for it: what goes out carries no id |
| PendingRequests.SweepTiming | common/src/grpc/pending_requests.rs:21-45 | with sweeps on time an unanswered entry is removed at one fixed time, at an age of at least 60 s and less than 90 s |
| PendingRequests.SweepTimeIsFixed | common/src/grpc/pending_requests.rs:35-45 | that removal time does not move while the entry stays in its table |
| PendingRequests.WaitAgainstSweeper | common/src/grpc/pending_requests.rs:21-45 | a deadline within 60 s of the registration is not after the removal time, and one of 90 s or more is |
| PendingRequests.SweeperAgainstDeadline | common/src/grpc/pending_requests.rs:35-45 | an unanswered wait can run into its deadline only if that is not after the removal time, and can be cut before it only if the removal comes first |
| PendingRequests.LongWaitNeverTimesOut | common/src/grpc/pending_requests.rs:75-83 | over every on-time run a wait with a deadline 90 s or more after the registration never times out: it ends with the answer or disconnected |
| PendingRequests.SoftwareUpdateNeverTimesOut | controller/src/node_manager.rs:317 | in particular the 120 s wait of a software update |
| PendingRequests.ShortWaitIsNotCut | controller/src/node_manager.rs:165 | over every run in which the session lasts, no wait is disconnected in the first 60 s after its registration, which precedes the send |
| PendingRequests.CutNeedsDelay | controller/src/node_manager.rs:150-165 | over every on-time run in which the session lasts, a wait that is disconnected before its deadline had a send and a timeout of more than 60 s together |
| PendingRequests.DelayCanCut | controller/src/node_manager.rs:150-165 | for every send time and timeout that add up to more than 60 s there is such a run that cuts the wait early |
| PendingRequests.CutExactly | controller/src/node_manager.rs:150-165 | so a wait can be cut before its deadline if and only if send time and timeout add up to more than 60 s |
| PendingRequests.HeldSendIsCut | controller/src/node_manager.rs:150-165 | a send of 55 s and a wait of 10 s: the wait is disconnected 5 s before its deadline |
| PendingRequests.SweptAtSixty | common/src/grpc/pending_requests.rs:38-44 | for every timeout above 60 s there is an on-time run that cuts the wait at 60 s |
| PendingRequests.ExpiresBeforeNinety | common/src/grpc/pending_requests.rs:38-44 | for every timeout from 60 s to below 90 s there is an on-time run in which the wait runs to its deadline |
| Traffic.GbToBytes | controller/src/traffic_limiter.rs:9-11 | for a non-negative quota the whole bytes below it, saturating at the 64-bit limits |
| Traffic.ChargedComposes | controller/src/traffic_limiter.rs:35-53 | charging a row twice at one instant equals charging it once with the sum, because a reset at `now` excludes another at `now` |
| Traffic.ChargeAllIsCharged | controller/src/traffic.rs:140-183 | the row after any list of entries depends only on their sum and on whether there is more than one |
| Traffic.FlagAfterFlush | controller/src/traffic.rs:159-181 | the quota flag after a flush, exactly: up to date unless the row was flagged, reset in this flush and touched by one entry only |
| Traffic.StaleFlagExample | controller/src/traffic.rs:169-174 | a row that used up 1 GB yesterday and uses it up again with the first entry today stays unflagged |
| Traffic.TrafficManager.Receive | controller/src/traffic.rs:38-48 | an event is added to its key; a buffer of more than 1000 keys is flushed at once |
| Traffic.ReportWaits | controller/src/traffic.rs:38-48 | a report stays in the buffer and changes no row until the buffer holds more than 1000 keys |
| Traffic.BuffersStaySmall | controller/src/traffic.rs:38-48 | over every run no buffer ever holds more than 1000 keys |
| Traffic.TrafficManager.FlushBuffer | controller/src/traffic.rs:61-293 | for every drain order of both hash maps the five tables end as the order-free description `Flushed` says |
| Traffic.TrafficManager.DrainEntries | controller/src/traffic.rs:72-244 | the drain loop settles every proxy, daily, client and user row and returns exactly the per-node sums |
| Traffic.TrafficManager.ChargeNodes | controller/src/traffic.rs:246-292 | each node with a sum is charged exactly once, in any order |
| Traffic.TrafficManager.FlushEntry | controller/src/traffic.rs:73-243 | one entry reaches exactly its proxy, today's daily row, its client and its owner; an entry of zero bytes or of a deleted proxy reaches nothing |
| Traffic.DrainStep | controller/src/traffic.rs:72-244 | one more drained entry takes the order-free description of the drained part to that of the larger part |
| Traffic.FoldRemove | controller/src/traffic.rs:72 | the sum over a hash map does not depend on the entry taken first |
| Traffic.SettleComposes | controller/src/traffic.rs:140-243 | settling all tables twice at one instant equals settling them once with the sums |
| Traffic.FlagsAfterFlush | controller/src/traffic.rs:165-182 | after a flush every client, user and node flag is current, except for rows flagged before, reset and touched once |
| Traffic.FlushEachSettles | controller/src/traffic.rs:61-293 | flushing each event alone settles every row with the sum of its events |
| Traffic.BufferedTally | controller/src/traffic.rs:39-42 | buffering merges the events of one key and changes no row's sum |
| Traffic.FlagGap | controller/src/traffic.rs:165-181 | for one account and two sums that differ only in the number of entries, when the flags differ |
| Traffic.FoldCounts | controller/src/traffic.rs:72 | a row counts as touched several times exactly if several keys of the buffer reach it with bytes |
| Traffic.BatchFlagsExactly | controller/src/traffic.rs:36-293 | per client, user and node row, the flags after one batch and after a flush per event differ if and only if the row was flagged, is due for a reset, is over its quota by the events alone, and several events reach it through one key (through any, for a node) |
| Traffic.BatchLosesFlag | controller/src/traffic.rs:165-181 | two reports of half a GB on one key for a client with 1 GB used up yesterday: flagged when flushed alone, not flagged in one batch |
| Traffic.BatchAgreesWithSingles | controller/src/traffic.rs:36-293 | one flush of the buffer and one flush per event leave equal proxy and daily rows, and client, user and node rows equal in all but the quota flag, which `BatchFlagsExactly` settles |
| Traffic.FlushConserves | controller/src/traffic.rs:72-98 | the proxy totals grow by exactly the flushed bytes whose proxy row exists |
| Traffic.BytesAreConserved | controller/src/grpc_agent_server_service.rs:300-323 | over every run of any number of traffic managers whose flushes do not overlap, bytes reported are in some buffer, in a proxy total, skipped for a deleted proxy, or removed with their proxy |
| Traffic.ReportedExactly | controller/src/grpc_agent_server_service.rs:300-323 | and the bytes reported are the sum over the reports of the run |
| Traffic.TotalsMatchDailyRows | controller/src/traffic.rs:91-136 | over every such run a live proxy's total and the sum of its daily rows over all dates grow by the same amount |
| FlushOverlap.RowsHold | controller/src/traffic.rs:78-136 | in every state of every interleaving of flush entries of one proxy, the total holds exactly the bytes of the entries it shows and the daily row those of every entry counted |
| FlushOverlap.LossExactly | controller/src/traffic.rs:91-126 | whenever no entry is under way, the daily row has grown by the bytes of all entries that are through, and the total lacks exactly those of the entries it does not show |
| FlushOverlap.OverlapKeepsApart | controller/src/traffic.rs:93-96 | after an entry has written while another held an older total, no total ever shows both again |
| FlushOverlap.AllShownExactly | controller/src/traffic.rs:78-96 | whenever no entry is under way, the total shows every entry that is through if and only if none wrote between another's read and write |
| FlushOverlap.GrowAlikeExactly | controller/src/traffic.rs:91-126 | with positive byte counts the total and the daily row have grown alike, whenever no entry is under way, if and only if no flushes overlapped on the proxy |
| FlushOverlap.TwoFlushesLoseFirst | controller/src/grpc_agent_server_service.rs:300-323 | two overlapping flushes: the total ends without the bytes of the one that wrote first, the daily row has both |
| FlushOverlap.OverlapExample | controller/src/traffic.rs:93-136 | 3 and 5 bytes on rows of 10: the total ends at 15 and the daily row at 18 |
| FlushRuns.BytesAreTraced | controller/src/grpc_agent_server_service.rs:300-323 | over every run of any number of managers whose flushes interleave at every await, the bytes reported are those in the buffers and those of the drained entries |
| FlushRuns.RunView | controller/src/traffic.rs:72-136 | seen from one proxy that is not deleted, every such run is a run of its row alone |
| FlushRuns.ProxyRowsHold | controller/src/traffic.rs:78-136 | a live proxy's daily rows have grown by exactly the bytes of its entries that are through, its total by those of the entries it shows |
| FlushRuns.ProxyGrowsAlikeExactly | controller/src/grpc_agent_server_service.rs:300-323 | whenever none of a live proxy's entries is under way, its total and its daily rows have grown alike if and only if no two of its entries overlapped |
| FlushRuns.AloneGrowsBoth | controller/src/traffic.rs:78-136 | an entry that nothing overlaps adds its bytes to the total and to the daily rows of its proxy and to no other |
| FlushRuns.MissingIsDropped | controller/src/traffic.rs:78-136 | an entry whose proxy row is missing is dropped and brings no row back |
| FlushRuns.TwoManagersOverlap | controller/src/grpc_agent_server_service.rs:300-323 | a run from the reports of two managers, 3 and 5 bytes, after which the proxy has a total of 5 and daily rows of 8 |
| TrafficRows.ResetExactly | controller/src/traffic_limiter.rs:35-53 | a row starts over if and only if it never has, or is monthly and `12 * year + month` has grown since, or is daily and the date is later |
| TrafficRows.OverExactly | controller/src/traffic.rs:167-169 | a quota is reached if and only if sent and received bytes together reach the quota cut to whole bytes and 63 bits |
| TrafficRows.ChargeExactly | controller/src/traffic.rs:140-181 | what one entry leaves in an account: counters from zero or added, reset time, flag, every other column as before |
| TrafficRows.JanuaryStartsOver | controller/src/traffic_limiter.rs:48-49 | a monthly row last reset in December starts over in January |
| TrafficRows.FlushExactly | controller/src/traffic.rs:61-293 | every row of the five tables after a flush, from the buffer and the row alone: which entries a proxy, client, owner and node gets (the direct owner of a proxy, else the owner of its client), their sum in each counter, the daily row, the reset and the flag; all else is unchanged |
| AccountOverlap.AloneIsCharge | controller/src/traffic.rs:138-183 | an entry that nothing overlaps charges the row as a flush of its own does |
| AccountOverlap.RunView | controller/src/traffic.rs:138-183 | counter by counter, resets included, every interleaving on an account row is a run of a proxy row |
| AccountOverlap.CountersLoseExactly | controller/src/traffic.rs:138-183 | once all entries are through, each counter is its base plus the bytes of the entries the row shows; it shows all if and only if no two overlapped |
| AccountOverlap.FlagExactly | controller/src/traffic.rs:159-181 | on a row not due for a reset, whatever the interleaving: flagged if and only if it was, or some entry whose flag step is past wrote a total that reaches the quota |
| ProxyList.BuildProxyListUpdate | controller/src/client_stream_manager.rs:314-409 | succeeds exactly for an existing client and returns the groups `GroupsOf` describes |
| ProxyList.GroupByNode | controller/src/client_stream_manager.rs:330-350 | the map lists, in row order, the proxies of every node that has any, and no empty list |
| ProxyList.CollectGroups | controller/src/client_stream_manager.rs:363-402 | removing lists from the map node by node yields one group per node row with proxies, in row order |
| ProxyList.SelectedMembers | controller/src/client_stream_manager.rs:323-328 | the selected rows are exactly the enabled rows of the client |
| ProxyList.SelectedInOrder | controller/src/client_stream_manager.rs:323-328 | and they are selected in their order |
| ProxyList.CountOnNode | controller/src/client_stream_manager.rs:330-350 | a proxy is in its node's list once and in no other list |
| ProxyList.OnNodeInOrder | controller/src/client_stream_manager.rs:330-350 | the entries of a node stand in the order of their rows |
| ProxyList.GroupsInOrder | controller/src/client_stream_manager.rs:363-402 | the groups stand in the order of the node rows |
| ProxyList.GroupsPlaceOnce | controller/src/client_stream_manager.rs:363-402 | a selected proxy occurs once over all groups if its node has a row, and not at all otherwise |
| ProxyList.GroupsAreDistinct | controller/src/client_stream_manager.rs:363-402 | no two groups share a node id, and every group is that of a node row |
| ProxyList.ListIsComplete | controller/src/client_stream_manager.rs:314-409 | each enabled proxy of the client whose node row exists is in exactly one group, once, under its own node; nothing else is in any group; each entry equals its row in id, name, kind, local address, both ports and enabled flag, and each group its node row in id, address, port, protocol, KCP settings and fingerprint |
| ProxyList.OneClientEach | controller/src/client_stream_manager.rs:324-328 | the column holds the decimal client id, and two ids never share one text, so no proxy is listed for two clients |
| ConnectionManager.StepKeepsInv | client/src/client/connection_manager.rs:46-126 | every step of a reconciliation and every task ending keeps: recorded tasks are uncancelled, uncancelled tasks are recorded, and a recorded task pins the fingerprints of its connection |
| ConnectionManager.InvHolds | client/src/client/connection_manager.rs:46-126 | that invariant in every state of every run |
| ConnectionManager.OneTaskPerNode | client/src/client/connection_manager.rs:46-126 | in every state, inside a reconciliation too and with repeated node ids: at most one uncancelled task per node, and a task is cancelled exactly if it is not the recorded one |
| ConnectionManager.Manager.Reconcile | client/src/client/connection_manager.rs:46-126 | for every removal order the map and the tasks end as `Reconciled` says, and the invariant holds |
| ConnectionManager.Manager.DisconnectAll | client/src/client/connection_manager.rs:49-61 | every connection to an unlisted node is dropped and its task cancelled, in any order; no other changes |
| ConnectionManager.Manager.HandleGroup | client/src/client/connection_manager.rs:64-125 | one group is reconnected or refreshed as `ApplyGroup` says |
| ConnectionManager.Manager.ConnectTo | client/src/client/connection_manager.rs:129-243 | spawns one recorded task, or changes nothing if the address does not parse |
| ConnectionManager.Manager.DisconnectNode | client/src/client/connection_manager.rs:246-257 | the entry is gone and its task, no other, is cancelled |
| ConnectionManager.ReconcileIsRun | client/src/client/connection_manager.rs:46-126 | what `Reconcile` does at once, the step machine does in a run of enabled steps, so `OneTaskPerNode` holds at every point inside a reconciliation |
| ConnectionManager.ApplyAll | client/src/client/connection_manager.rs:64-125 | each group ends connected exactly if its connection was kept or its address parses, whatever tasks end in between; nodes not listed are untouched |
| ConnectionManager.AfterReconcile | client/src/client/connection_manager.rs:46-126 | after a list with distinct nodes no other node has a connection; listed ones carry the listed proxies and fingerprints; kept ones keep their task and the rest have a new one |
| ConnectionManager.RunsTowardsListed | client/src/client/connection_manager.rs:68-105 | a listed node is connected exactly if it was kept or its address parses; a kept connection has its old task; and a connection runs towards the listed address, port, protocol, KCP settings and fingerprints if and only if it was not kept or was made for them |
| ConnectionManager.UnchangedFingerprintsKeepTarget | client/src/client/connection_manager.rs:68-105 | with no task ending on the way, a connection is kept exactly if it exists, its task runs and its fingerprints equal the listed ones: a test on the list and the map |
| ConnectionManager.MovedNodeIsNotFollowed | client/src/client/connection_manager.rs:68-105 | a node whose address changes and whose fingerprint does not: after the list the client still runs towards the old address |
| ConnectionManager.ReconcileAgain | client/src/client/connection_manager.rs:46-126 | reconciling the same list again with no connected task ended changes no entry, spawns nothing and cancels nothing |
| ConnectionManager.FollowedTwice | client/src/client/connection_manager.rs:46-126 | a list followed twice with no task ending on the way: after the first time every connected task runs, whatever had ended before, and the second time changes nothing |
| ConnectionManager.PushedGroups | client/src/client/grpc_client.rs:270-317 | the groups as the client reads them have distinct nodes, one for each node row with wanted proxies and none else |
| ConnectionManager.EndToEnd | client/src/client/connection_manager.rs:46-126 | after the client followed a list the controller built: each connection is to a node with a row, carries exactly the client's enabled proxies there, pins that node's fingerprint, and is the old one or runs towards the address, the low 16 bits of the port, the protocol (neither KCP nor TCP read as QUIC) and the KCP settings of the row; each such node with a usable address is connected |
| Notifications.LastListExactly | controller/src/client_stream_manager.rs:123-148 | once a list built after the last change has been sent: the last one sent is the current one if and only if it was not overtaken by an older one or the older tables give the same list; an overtaking one is the list of those tables |
| Notifications.FollowKeepsInv | client/src/client/mod.rs:60-63 | a client that follows any lists in turn keeps the invariant of its connections |
| Notifications.ClientAgrees | controller/src/client_stream_manager.rs:123-148 | unless the last list was overtaken, the client that has followed all lists has a connection for every node with wanted proxies and a usable address, and each of its connections serves a node row as `EndToEnd` says |
| Notifications.DisabledProxyStays | controller/src/client_stream_manager.rs:129-142 | a proxy is disabled between the build and the send of another notification, and the client ends with a list that has it |
| Heartbeat.LoopInvariant | common/src/grpc/connection.rs:54-71 | a running loop holds the last response and has seen no silence of 45 s; a stopped one stopped at the first such silence |
| Heartbeat.TimesOutExactly | common/src/grpc/connection.rs:55-63 | for every response schedule and every filling of the outbound queue the loop gives up exactly 45 s after the first response that no other follows in that time |
| Heartbeat.BlockingIsIrrelevant | common/src/grpc/connection.rs:64-69 | how full the outbound queue is never moves the timeout |
| Heartbeat.AtMostTwo | common/src/grpc/connection.rs:64-70 | at one instant at most a held-up heartbeat and one more go out |
| Heartbeat.BeatsEveryInterval | common/src/grpc/connection.rs:50-52 | on a queue with room one heartbeat goes out at each positive multiple of 15 s, and none at any other instant |
| Heartbeat.NextWhenDue | common/src/grpc/connection.rs:50-70 | with nothing held up, the next heartbeat goes out when it is due and room, and none before; responses in between do not move it |
| Heartbeat.FirstAfterBlockage | common/src/grpc/connection.rs:50-70 | a heartbeat that finds the queue full goes out at the first instant with room, together with the next one if that is due and there is room for both; the one after is due a period after its predecessor was, or after the end of the blockage if that one was more than 5 ms late |
| Heartbeat.NoBeatAfterTimeout | common/src/grpc/connection.rs:55-63 | at the instant of the timeout nothing is sent any more |
| Heartbeat.AnsweringPeerIsNeverDropped | common/src/grpc/connection.rs:45-72 | a peer that answers each heartbeat within 30 s over a queue with room is never dropped |
| Heartbeat.SlowerPeerIsDropped | common/src/grpc/connection.rs:61-63 | with a first answer just over 30 s after its heartbeat the peer is dropped |
| Heartbeat.HeartbeatLoop | common/src/grpc/connection.rs:45-72 | the loop reports a timeout exactly if there is a silence before the horizon, at the first one, and sends exactly as many heartbeats at each instant as the machine does |
| Domain.NormalizeDomainExactly | common/src/domain.rs:2-24 | accepts `value` as `n` exactly if `n` is a valid name (sections 2.3.4 of RFC 1035 and 2.1 of RFC 1123) and `value` spells it up to ASCII case, outer white space and one trailing dot |
| Domain.SameSpellingSameName | common/src/domain.rs:2-24 | if one input gives a name, another gives the same exactly if it spells it |
| Domain.NormalizeDomainIdempotent | common/src/domain.rs:2-24 | a normalised name normalises to itself |
| Domain.NormalizePatternExactly | common/src/domain.rs:27-40 | the same characterisation for patterns with one leading `*.`, with the 253 limit and no space after the wildcard |
| Domain.AddressExactly | common/src/domain.rs:10 | the names refused as addresses are exactly those that four decimal numbers up to 255 spell |
| Text.LowerByAlphabet | common/src/domain.rs:7 | lower case is the letter at the same place of the other alphabet, and no other character changes |
| Text.WhitespaceListed | common/src/domain.rs:3-6 | trimming takes the 25 characters of the Unicode property White_Space |
| Domain.NormalizePatternIdempotent | common/src/domain.rs:27-40 | a normalised pattern normalises to itself |
| Domain.ValidateRouteExactly | common/src/domain.rs:59-66 | which kind and domain pairs are accepted, and as what |
| Domain.WildcardIsDotSuffix | common/src/domain.rs:51-52 | replacing the text before a dot by `*` gives exactly the wildcards over the host's proper label suffixes |
| Domain.FindRouteIsBest | common/src/domain.rs:44-57 | the exact entry if there is one, else the wildcard with the longest suffix at a label boundary; nothing exactly if no key covers the host |
| Domain.BestIsUnique | common/src/domain.rs:42-57 | two best keys are equal, so the result does not depend on the insertion order |
| Domain.ApexIsNotCovered | common/src/domain.rs:42-57 | a wildcard never covers its own apex |
| ProxyTable.GuardIsRelation | controller/src/migration/m20260910_000001_add_domain_routing.rs:22-26 | the trigger condition is the relation of `routes_conflict` on enabled rows of one node and port, and that relation is symmetric |
| ProxyTable.Table.Refused | controller/src/migration/m20260910_000001_add_domain_routing.rs:22-26 | the EXISTS query is true exactly if some stored row satisfies the guard |
| ProxyTable.Table.InsertRow | controller/src/migration/m20260910_000001_add_domain_routing.rs:13-28 | an insert is applied or leaves the table as it was, as the trigger decides |
| ProxyTable.Table.UpdateEach | controller/src/migration/m20260910_000001_add_domain_routing.rs:13-28 | an update of several rows is gated row by row; one refusal undoes the whole statement |
| ProxyTable.Table.DeleteRows | controller/src/migration/m20260910_000001_add_domain_routing.rs:13-28 | a delete is not gated and removes exactly its rows |
| ProxyTable.InsertRowByRow | controller/src/migration/m20260910_000001_add_domain_routing.rs:13-28 | an insert is refused exactly for a taken id or a conflicting enabled row; otherwise the row is stored as given and every other row stays |
| ProxyTable.UpdateRowByRow | controller/src/migration/m20260910_000001_add_domain_routing.rs:13-28 | an accepted update leaves each row as its last change says and the others as they were, and adds none |
| ProxyTable.UpdateRefusedExactly | controller/src/migration/m20260910_000001_add_domain_routing.rs:13-28 | an update is refused exactly if one of its changes, after those before it, meets an existing row and would conflict with another |
| ProxyTable.DeleteRowByRow | controller/src/migration/m20260910_000001_add_domain_routing.rs:13-28 | a delete takes out its rows and no others |
| ProxyTable.RunOneMore | controller/src/migration/m20260910_000001_add_domain_routing.rs:12-28 | over a run each statement works on the table left by those before it, and a refused one leaves it as it was |
| ProxyTable.PutKeepsConflictFree | controller/src/migration/m20260910_000001_add_domain_routing.rs:20-27 | a row that passes the trigger keeps a conflict-free table conflict-free |
| ProxyTable.RunKeepsConflictFree | controller/src/migration/m20260910_000001_add_domain_routing.rs:12-28 | every run of inserts, updates and deletes keeps a conflict-free table conflict-free |
| ProxyTable.RefusedOnlyOnConflict | controller/src/migration/m20260910_000001_add_domain_routing.rs:20-27 | a single-row statement is refused exactly if the table would conflict |
| ProxyTable.ConflictFreePorts | common/src/domain.rs:68-70 | a table is conflict-free exactly if each port carries at most one row, or rows of one HTTP protocol with distinct domains |
| ProxyTable.ChosenProxyIsUnique | common/src/domain.rs:44-57 | behind the triggers the route table of a port and the proxy found for a host are determined by the rows alone |
| SubscriptionQuota.QuotaBook.Merge | controller/src/subscription_quota.rs:75-116 | adds a subscription to the user's quotas, or fails and changes nothing for a missing user |
| SubscriptionQuota.QuotaBook.Rollback | controller/src/subscription_quota.rs:121-162 | takes it back with a floor at 0, or fails and changes nothing |
| SubscriptionQuota.QuotaBook.CreateSubscription | controller/src/api/handlers/user_subscription.rs:315-356 | inserts an active merged row and merges it |
| SubscriptionQuota.QuotaBook.UpdateActive | controller/src/api/handlers/user_subscription.rs:399-430 | deactivation rolls a merged row back, reactivation merges it again |
| SubscriptionQuota.QuotaBook.DeleteSubscription | controller/src/api/handlers/user_subscription.rs:468-505 | an active merged row is rolled back before it is deleted |
| SubscriptionQuota.QuotaBook.ExpireSubscriptions | controller/src/subscription_quota.rs:165-210 | the state is that of `Expire` (see `ExpiryRowByRow`), and the list returned holds the id and user of exactly the rows that were active before and are not after, in order |
| SubscriptionQuota.QuotaBook.EndAll | controller/src/subscription_quota.rs:176-207 | the loop over the rows it was given ends and reports exactly those that can be rolled back |
| SubscriptionQuota.QuotaBook.EndSubscription | controller/src/subscription_quota.rs:176-207 | a row whose rollback fails stays active |
| SubscriptionQuota.QuotaReads | controller/src/subscription_quota.rs:90-110 | on each of the four meters, unlimited read as 0, a merge adds the amount and a rollback subtracts it down to 0 |
| SubscriptionQuota.FloorNeverBites | controller/src/subscription_quota.rs:136-156 | with balanced books a user has at least what any active merged subscription holds, so the rollback subtracts exactly that |
| SubscriptionQuota.QuotaIsConserved | controller/src/subscription_quota.rs:75-210 | over every run of creations, activations, deactivations, deletions and expiries each quota is the base plus the amounts of the active merged subscriptions |
| SubscriptionQuota.ExpiredRows | controller/src/subscription_quota.rs:176-207 | an expiry ends each listed row once, unless its user is missing, and changes no other row |
| SubscriptionQuota.ExpiryRowByRow | controller/src/subscription_quota.rs:165-210 | an active row is ended if and only if its end date is before now and it is not a merged row of a missing user; every other column of every row stays |
| SubscriptionQuota.CreateRowByRow | controller/src/api/handlers/user_subscription.rs:315-356 | the new row has its own user, date and amounts and is active and merged; no other row and no other user changes |
| SubscriptionQuota.SwitchRowByRow | controller/src/api/handlers/user_subscription.rs:399-430 | switching a subscription sets its active flag, marks it merged when it comes on, and changes no other column, row or user |
| SubscriptionQuota.DeleteRowByRow | controller/src/api/handlers/user_subscription.rs:468-505 | the row is gone, the others stand in order, and no other user changes |
| SubscriptionQuota.ExpiryTakesEachOnce | controller/src/subscription_quota.rs:165-210 | an expiry lowers each quota by exactly the amounts of the user's active merged subscriptions whose end date has passed; only merged rows of missing users stay active past their date |
| SubscriptionQuota.ExpiredOnce | controller/src/subscription_quota.rs:165-210 | a second expiry at any time up to the first changes nothing |
| SubscriptionQuota.RolledBackTwice | controller/src/subscription_quota.rs:168-189 | if a row the expiry has read is deleted or deactivated before its turn, it is rolled back twice, and the books stay balanced exactly if there was nothing to take |
| SubscriptionQuota.UnlimitedIsLost | controller/src/subscription_quota.rs:90-110 | a user who was unlimited on a meter that a subscription grants is limited for the rest of every run |
| SubscriptionQuota.LimitedExactly | controller/src/subscription_quota.rs:88-110 | over every run a user ends limited on a meter if and only if the user was limited before or was given a subscription that grants it, whether or not that subscription has ended |
| SubscriptionQuota.UnlimitedIsNotRestored | controller/src/subscription_quota.rs:118-138 | an unlimited user with one subscription that ends is left with a quota of 0 |
| Backoff.ReconnectBackoff.NextDelay | common/src/utils.rs:40-52 | the wait is the jittered base that the calls since the last reset have reached |
| Backoff.ReconnectBackoff.Reset | common/src/utils.rs:55-57 | the next wait starts from the initial base |
| Backoff.ClosedForm | common/src/utils.rs:40-57 | the base after k waits is min(initial * 2^k, max), if and only if k > 0 or initial is at most max |
| Backoff.DelayBounds | common/src/utils.rs:43-46 | a wait is whole milliseconds, within 20% of its base up to the truncation |
| Backoff.WaitsAreBounded | common/src/utils.rs:40-52 | the same for every wait of every run in terms of the closed form; no wait exceeds 1.2 * max |
| Backoff.DefaultsReachLimit | common/src/utils.rs:35-37 | with 1 s and 60 s the base is at the limit exactly from the sixth failure on |
| Systemd.BuildExecStart | common/src/systemd.rs:305-312 | the command line splits back into exactly the binary and its arguments |
| Systemd.ThreePassesEscape | common/src/systemd.rs:326-329 | the three replacements in this order put one backslash before each special character and nothing else |
| Systemd.UnquoteEscaped | common/src/systemd.rs:314-331 | reading an escaped argument up to its closing quote gives it back and stops there |
| Systemd.SplitsBack | common/src/systemd.rs:305-331 | splitting and unquoting gives back every argument list, with empty strings, spaces, quotes, backslashes and `$` |
| Systemd.QuotingIsInjective | common/src/systemd.rs:305-331 | different argument lists have different command lines |
| Systemd.QuotedOnlyIfNeeded | common/src/systemd.rs:314-331 | an argument stands as it is if and only if it is not empty and holds only ASCII letters, digits and `-_./:=@+,` |
| Systemd.ParseConcat | common/src/systemd.rs:177-183 | text that ends a line is searched before the text behind it |
| Systemd.ParsedPath | common/src/systemd.rs:269-303 | for every configuration the path read back is the first one that a multi-line field smuggles in, else the first line of the log path |
| Systemd.RoundTripExactly | common/src/systemd.rs:177-183 | the log path comes back exactly if no field smuggles in another and, unless one smuggles in the same, it is a single line |
| Systemd.RoundTrip | common/src/systemd.rs:269-303 | it comes back whenever no field holds a newline |
| Systemd.UnitReadsBack | common/src/systemd.rs:269-303 | from the unit file of one-line fields the description, the working directory and the user come back, and the command line splits into the binary and its arguments |
| Systemd.LogPathExactly | common/src/systemd.rs:165-172 | the log file is `log/<service>.log` under the working directory, with one slash between, unless the service name is absolute |
| Systemd.DescriptionCanRedirect | common/src/systemd.rs:280-292 | a description with a second line naming another path makes that path the one read back |

## Left out

- Transports, TLS, authentication, HTTP handlers other than the three on subscriptions, the dashboard, daemons and the command line: I/O and library calls.
- Failing database writes, except the missing user of a quota rollback: every other write of an existing row succeeds.
- Traffic: byte counts are non-negative and unbounded; 64-bit overflow, `f64` rounding of quotas, the `updated_at` columns and the `client_id` column of a daily row (which depends on the drain order) are not modelled. A flush happens at one instant, so one that spans midnight, and edits of accounts during a flush, are excluded. `bytes_to_gb` only feeds log messages.
- Traffic.BytesAreConserved: the flushes of different managers come one after the other, because with overlapping flushes it is false; `FlushRuns` and `AccountOverlap` say what holds then, and exactly when.
- Traffic.TotalsMatchDailyRows: the same; `FlushRuns.ProxyGrowsAlikeExactly` has the exact condition.
- Traffic.BatchAgreesWithSingles: leaves the quota flag out of the equality, because it does differ; `Traffic.BatchFlagsExactly` says exactly when.
- TrafficRows: dates have months 1 to 12 and days 1 to 31, as every stored date does.
- FlushOverlap: one direction of the traffic of one proxy on one date; the proxy row exists throughout.
- FlushRuns: one direction, with the daily rows of a proxy taken together; finding or creating a daily row is one step, so two flushes that both create it are excluded, and a deleted proxy id is not used again.
- AccountOverlap: all entries that reach the row are charged at one instant and the row exists throughout. The flag of a row that is due for a reset is not characterised, because there it depends on which entries reset the row; `FlagExactly` is about the others.
- Notifications: one client in one session, and a list build reads the tables at one moment; several queries at different moments are not modelled. Sends do not fail.
- SessionRegistry: no action of the machine inserts or deletes a row, although `Fetch` may list rows that do not exist; the readers of the lock that only lock a mutex for a moment (completing or issuing a request) are left out, since they never wait while they hold it; `last_online_at` and `updated_at` are not modelled, and a channel stays closed once closed. The monitors run one sync at a time per table; `SyncTakesOffline` allows more, as long as none is about to write an older reading.
- PendingRequests: the other fields of a message are one opaque content; request ids are fresh (UUIDs), and lock waits take no time. The outbound send is one step that may come at any time after the registration; a send that fails is not modelled. The machine does not force a waiter to act at its deadline.
- ConnectionManager: reconciliations come one after another, as the client's only caller issues them; spawning a task and recording it are one step; whether an address parses is a parameter. What a task does between its start and its end is not modelled.
- ConnectionManager.AfterReconcile: is about lists with distinct node ids, which is what the Controller builds; with repeated ids only the invariant is claimed.
- ProxyList: the fingerprint lookup is a table, its errors count as absent; the KCP settings are what their column parses to. The query for node rows is a filter in row order.
- Heartbeat: instants are whole milliseconds and the room in the queue is fixed during one, a tick up to 5 ms late counts as on time, and the ends of the channels or of the receive loop, which end the loop too, are not modelled.
- Domain: IPv6 addresses need no case of their own, since a colon is never accepted in a label; lengths are in characters, which agrees with bytes on every accepted name.
- ProxyTable: an update keeps the ids of its rows; each statement runs alone, as SQLite runs them.
- SubscriptionQuota: each operation runs alone; `RolledBackTwice` shows two of the overlaps that break the balance. Merge and rollback are each a read and a later write, so two of them that overlap on one user can lose one of the two updates; that is not modelled. Base and snapshots are non-negative, amounts are reals and unbounded integers, and the rollback of a write that fails half way is not modelled. The end date is given, not computed from the duration of the plan. Edits of a user's quota by an administrator would change the base.
- Backoff: the jitter is any real in the range; durations are unbounded, while the source panics if doubling overflows.
- Systemd: the grammar is the one in the code's comment, not that of any systemd version; paths are strings, so the lossy display of a path that is not UTF-8 and the component-wise comparison of paths are not modelled. Installing, starting and querying a service are system calls.
- The display of accumulated subscription quotas, the remaining-quota calculations, the quota allocation check and the limit checks before a connection: they would add only easy members.
- The node-side HTTP Host and TLS SNI listeners: their source is not part of this model.
