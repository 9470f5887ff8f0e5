# Near-Compute-Log: the replicated log, proved

Near-Compute-Log keeps a file in the memory of a few replication peers. One client copies each
write into a local buffer, bumps a sequence word kept in the last eight bytes of the buffer, and
posts both to every peer over RDMA; a write returns once a majority of the peers has it, or once
half of them or more are gone, and the caller cannot tell which. A watcher driven by ZooKeeper
replaces peers that disappear and suspends writes while too few are left. After a crash a new
client reads the file back from one of the peers. This project models that protocol, the code at
both ends of it, and the tables around it, and proves what holds in every reachable state and where
the guarantees stop.

## How it is put together

| file | part of the system |
|---|---|
| `Bytes.dfy` | regions, overwrites, the little-endian word, the used size of a region |
| `Replication.dfy` | the protocol as a state machine: fifteen events, `Enabled` and `Next` |
| `Invariant.dfy` | what one peer's region and channel look like at any time, and why each event keeps it |
| `Safety.dfy` | the invariant of the whole system, event by event |
| `Guarantees.dfy` | durability, replica prefixes, token queues, convergence, membership |
| `Recovery.dfy` | `TryRecover` as a function, and what it restores |
| `Runs.dfy` | building runs: writes that reach chosen peers, peers that leave, join or restart |
| `Limits.dfy` | for each guarantee the exact condition under which it holds, and a run for every configuration outside it |
| `OneByte.dfy` | why a file with room for one byte cannot be mixed |
| `Watch.dfy` | when the child watch is armed, and when suspended writes can still resume |
| `Client.dfy` | the client class: write path and watcher, each method a run of the machine |
| `Progress.dfy` | how many polling rounds a write takes, and when it can return at all |
| `Recoverer.dfy` | `TryRecover` as a class with its loops |
| `LocalLog.dfy` | the local file calls and the POSIX file they refine |
| `MrPool.dfy`, `Server.dfy` | the memory region pool and the peer |
| `PeerList.dfy` | the membership record's printer and parser, and watched paths |
| `Routing.dfy` | the path and descriptor tables and the client pool |

The machine is finer than one step per call. A write is begun (copy, file size, sequence word) and
posted in two steps; a watcher event that brings a peer in is three (connected, snapshot posted,
snapshot complete); the network delivers one message at a time; polling pops one queue entry at a
time. Anything may happen in between, so a write can be posted to a peer that is connected but not
yet recovered. A server that leaves the membership without restarting keeps its region: what was
posted to it may still arrive, it hands the region back when it is connected again, and it answers
a recovering client that finds it in the membership record. `Client.dfy` shows that the code is a
run of these steps: every method ends in a state the machine reaches from where the method began, so
what `Guarantees.dfy` says of reachable states it says of the class.

## Assumptions

- `writeTwoPlace` belongs to the RDMA library, which is not part of this model. It is taken to post
  snapshots of the data and then of the sequence word, delivered in order per peer, a token being
  complete only once neither of its writes is in flight. A data write is delivered whole.
- There is one application thread. Watcher events are handled one after the other, and a watch
  fires when its event is handled. A deletion event names a current peer: the watch behind it is
  set by `AddPeer` and fires once. `zoo_wexists` succeeds.
- A write stays below the sequence slot, and a file is shorter than 4 GiB: both are the caller's
  duty (line 141 of the original's README.md, src/posix_client.cpp:62, src/rdma/client.cc:512).
- `recover_lock`, as the watcher uses it, is a flag: setting it twice or clearing it when clear has
  no effect.
- A server newly connected for a file it holds hands back the region it has, one that does not hold
  the file gives it a zero region; `Server.dfy` proves both. A server that left the membership may
  or may not have restarted; one that is still a member when the client crashes has not.
- The peers are scanned in the same order whenever the same membership record is read: the table
  of connections is filled from it in one order.
- Client and servers ask for regions of one size, as `getClient` does with `MR_SIZE`, and store the
  sequence word with its least significant byte first.

## Where the guarantees stop

The code is modelled as it is; each of these is a theorem.

- Recovery reads from the peer with the smallest non-zero number. `Limits.NoLossIff`: acknowledged
  writes survive every recovery outside a join if and only if every replica has to acknowledge
  (`WriteSync`, or one or two replicas), no server outside the membership answers, and some server
  answers. Each of the three conditions has its own failing run, in every configuration it concerns:
  a slow peer with the smallest number (`SlowPeerWins`, three or more replicas), a server that left
  with its memory intact and is still in the record (`StaleAnswerLoses`), and a single acknowledged
  write, which carries number 0 (`LoneAckLost`).
  What the answered number itself promises, in every configuration: `Limits.NumberKeepsIff`, the
  writes up to it survive and nothing is certain about the next; `Recovery.AnswerDecides`, those two
  or more beyond it are not in what is rebuilt.
- A crash while `TryRecover` brings the peers up to date does no harm, however often it happens:
  `Recovery.CrashesDoNotMatter`. This rests on the first of equal numbers being taken in an order
  that does not change. With ties broken another way the next recovery is sure to rebuild the same
  file if and only if all peers with the smallest number hold the same bytes
  (`Recovery.TiesAgreeIff`); otherwise it can rebuild a mixture (`Recovery.TieMixes`).
- A peer that joins through a child event is not written to the membership record, so a later
  recovery may not find it: `Limits.StaleRecordLoses`. `Recovery.RecoverableIff` gives the exact
  condition when no server outside the membership answers, and `Recovery.RecordNamesPeer` what it
  comes to once a write other than the first has been acknowledged.
- While a replacement is connected but not recovered, an acknowledged write may be on no current
  peer. `Limits.AlwaysHeldIff`: with more than half of the peers left, one of them holds every
  acknowledged write in every watcher phase if and only if the replication factor is even (with
  `WriteSync`, at least two). Between watcher events one always does (`Guarantees.OnePeerHoldsAll`).
- That connected peer can be chosen as the recovery source although it holds only the newest write.
  `Limits.UnmixedIff`: recovery always rebuilds the file after some number of writes if and only if
  the watcher is not bringing a peer in, or the file has room for no more than one byte.
- A write also returns when half of the peers or more are gone (src/rdma/client.cc:287), and
  `Append` and `WritePos` answer the size either way: `Limits.ShortReturns` is a write that returned
  and is on no server at all. `Limits.HeldAtReturnIff`: outside a join a returned write is sure
  to be on a current peer if and only if more than half of the peers were left.
- A write whose peers are all replaced while it is polled for never returns, with all replicas
  present: `Progress.StuckWrite`. `Progress.ReturnPossibleIff` says exactly when it still can.
- A child event that finds no server uses up the watch. `Watch.ArmedIff` says exactly when the watch
  is armed, and `Watch.NeverRejoins` that a client without it gains no peer until it loses one.
  `Watch.ResumeIff`: suspended writes can resume, from any state, if and only if a peer is left to
  lose, the watch is armed, or a watcher event is under way; `Watch.SuspendedForGood` is a client of
  the other kind, for every configuration.
- The header promises read(2), write(2), lseek(2) and truncate(2). A read past the end copies the
  full count, an empty write past the end extends the file, a shrinking truncate with the cursor
  inside the file leaves old bytes behind, and seeks clamp or ignore the offset. The code is
  followed; `LocalLog.ReadIff`, `EmptyWriteIff`, `TruncateIff` and `SeekIff` say exactly when the two
  agree.
- The membership record comes back from its printed form if and only if no address has a colon, the
  set is not the empty address alone, and, without an epoch, no address has a slash:
  `PeerList.RoundTripIff`.
- A descriptor left open on an unlinked path goes on to reach the next file opened:
  `Routing.UnlinkedDescriptor`; `Routing.Tables.Unlink` states the condition.

## Model

| member | source | states |
|---|---|---|
| Safety.NextInv | src/rdma/client.cc:233-293 | every event of writer, network and watcher keeps the system invariant: client buffer, membership flags, each peer's region, channel and token queue, and the bound on peers owing an acknowledged write |
| Safety.ReachableInv | src/rdma/client.cc:95-108 | the invariant holds in every state reachable from a newly constructed client |
| Invariant.PeerOkDeliver | src/rdma/client.cc:252 | delivering the first message in a channel, whatever the peer's recovery stage, keeps its region a replay of the history consistent with what is still in flight |
| Invariant.PeerOkPost | src/rdma/client.cc:242-253 | posting a write keeps it too, before, during and after the peer's recovery |
| Invariant.PeerOkSnapshot | src/rdma/client.cc:506-514 | posting the snapshot behind messages already in flight makes the peer's channel end in a complete replica |
| Invariant.HeadFits | src/rdma/client.cc:242-253 | no posted message ever reaches outside a region |
| Guarantees.Durability | src/rdma/client.cc:278-292 | of the current peers whose recovery is not under way at most rep - (rep/2 + 1) lack an acknowledged write, through slow peers, deletions, failed replacements and joins; none when all must acknowledge |
| Guarantees.OnePeerHoldsAll | src/rdma/client.cc:287-290 | with more than half of the peers left one of them holds every acknowledged write: for every replication factor outside a join, and in every watcher phase when the majorities overlap |
| Guarantees.UnsuspendedHoldsAll | src/rdma/client.cc:701-704 | hence between watcher events whenever writes are not suspended: the two thresholds fit together |
| Guarantees.SuspendedPostsNothing | src/rdma/client.cc:235 | while writes are suspended no event posts anything to a peer but the snapshot of its recovery |
| Guarantees.MayReturnIff | src/rdma/client.cc:278-293 | a polling call may return if and only if half or fewer of the peers are left or more than half of the replicas have marked the write, in exactly one of two ways |
| Guarantees.ReplicaPrefix | src/rdma/client.cc:233-253 | an original or recovered peer's region replays a prefix of the writes, at most one ahead of its sequence word |
| Guarantees.WordIdentifies | src/rdma/client.cc:321 | before the counter wraps the word leaves two candidates for that prefix |
| Guarantees.TokenQueue | src/rdma/client.cc:255-267 | posted tokens are in write order, the marked ones come first and op_queue is the rest; a marked token implies this and every earlier write posted there is delivered and held |
| Guarantees.Convergence | src/rdma/client.cc:494-517 | with everything delivered, a peer that has had its snapshot posted has the client's bytes and word, joins in the middle of writes included |
| Guarantees.DeliveryNeverStuck | src/rdma/client.cc:252 | whatever heads a channel can be delivered in every reachable state |
| Guarantees.Membership | src/rdma/client.cc:694-744 | peers are the keys of remote_props and at most rep_factor; the child watch is armed only below that; after each event writes are suspended exactly when rep_factor/2 or fewer are left |
| Recovery.DepartedReplica | src/rdma/server.cc:151-163 | a server that left the membership and did not restart holds a single prefix of the writes, one ahead of its word at most |
| Recovery.ReconnectKeeps | src/rdma/server.cc:151-163 | connecting a server again changes nothing in what a recovering client would find: it hands back the region it kept |
| Recovery.DropKeeps | src/rdma/client.cc:468-469 | nor does dropping one that keeps its region; one that does not is found empty |
| Recovery.NeverMixes | src/rdma/client.cc:569-603 | for any replication factor, unless the source still waits for the snapshot of its own recovery, the rebuilt buffer is the source's whole region, a single prefix, the size is short of it by zero bytes only, and the number answered names the prefix up to one write |
| Recovery.NoAckLost | src/rdma/client.cc:569-603 | when every replica must acknowledge and the source is a current peer, the rebuilt buffer replays a prefix containing every acknowledged write |
| Recovery.RecoverableIff | src/rdma/client.cc:585 | when every replica must acknowledge and no server outside the membership answers, all acknowledged writes come back from some source if and only if a recorded current peer answers a usable number |
| Recovery.NumberedAck | src/rdma/client.cc:321 | an acknowledged write with a number of at least 1 gives every recorded peer a usable number |
| Recovery.RecordNamesPeer | src/rdma/client.cc:656-669 | once such a write is acknowledged, everything comes back if and only if the membership record names a current peer |
| Recovery.TwoAcksRecoverable | src/rdma/client.cc:656-669 | the same after two acknowledged writes |
| Recovery.AnswerDecides | src/rdma/client.cc:585 | for any replication factor and either way of acknowledging, the writes up to the answered number come back, and what is rebuilt is the file before those two or more beyond it |
| Recovery.PeersAgree | src/rdma/client.cc:605-613 | after TryRecover every connected peer agrees with the client on the bytes of the file |
| Recovery.RecoverTwice | src/rdma/client.cc:585-602 | crashing again with no write in between picks the same source and restores the same buffer, size and regions |
| Recovery.ResumeFromSource | src/rdma/client.cc:605-613 | after a crash with any part of the synchronisation delivered the old source is still a source, and recovering from it gives the buffer, size and regions of the interrupted recovery |
| Recovery.CrashesDoNotMatter | src/rdma/client.cc:569-613 | after any number of recoveries that crashed at any point of their synchronisation the scan finds the same source and recovery ends as if uninterrupted |
| Recovery.TiesAgreeIff | src/rdma/client.cc:585 | with ties broken in any way the recovery after such a crash rebuilds the same buffer if and only if the peers tied for the smallest number hold the same bytes |
| Recovery.TieMixes | src/rdma/client.cc:585 | two tied peers with different bytes from which the second recovery rebuilds the contents of neither |
| Recovery.ScanIsSource | src/rdma/client.cc:571-592 | the scan in the order of the table finds a smallest non-zero number, or nothing when there is none |
| Recovery.ScanStable | src/rdma/client.cc:585 | numbers that drop to 0, the found one excepted, leave the result of the scan as it was |
| Recovery.BufferIsSource | src/rdma/client.cc:596-603 | reading only the used size into a zero buffer restores the whole region |
| Limits.NoLossIff | src/rdma/client.cc:585 | acknowledged writes survive every recovery outside a join if and only if every replica must acknowledge, no server outside the membership answers and some server does |
| Limits.NumberKeepsIff | src/rdma/client.cc:585 | for each configuration acknowledged writes up to the answered number plus a gap survive every recovery outside a join if and only if the gap is 0 |
| Limits.SlowPeerWins | src/rdma/client.cc:585 | for each replication factor from three up there is a run in which a slow peer becomes the source and an acknowledged write is lost |
| Limits.StaleAnswerLoses | src/rdma/server.cc:151-163 | for each configuration a run in which a server that left with its region is the source and a write every replica acknowledged is lost |
| Limits.LoneAckLost | src/rdma/client.cc:585 | for each configuration a single acknowledged write carries number 0 and is not recovered |
| Limits.StaleRecordLoses | src/rdma/client.cc:731-743 | joins leave the membership record as it was; for each configuration acknowledged writes are lost that every current peer holds |
| Limits.JoinWindow | src/rdma/client.cc:498-506 | for each configuration without overlap an acknowledged write is on no current peer between AddPeer and recoverPeer, although writes go on |
| Limits.AlwaysHeldIff | src/rdma/client.cc:287-290 | with more than half of the peers left one of them always holds every acknowledged write if and only if the replication factor is even (when everyone acknowledges: at least two) |
| Limits.MidJoinMixes | src/rdma/client.cc:736-737 | for each configuration a peer whose snapshot has not arrived can be the source, and what is rebuilt is no prefix at all, not even the empty one |
| Limits.UnmixedIff | src/rdma/client.cc:569-603 | every recovery in a watcher phase rebuilds a prefix if and only if the phase is not the joining of a peer or the file has room for at most one byte |
| OneByte.AlwaysPrefixes | src/rdma/client.cc:242-253 | with room for one byte every peer's region, one being brought in included, is the file after some number of writes |
| Limits.HeldAtReturnIff | src/rdma/client.cc:278-293 | for each replication factor a polling write that may return outside a join is on a current peer if and only if returns with half or fewer of the peers left are not admitted |
| Limits.ShortReturns | src/rdma/client.cc:287 | for each replication factor a write returns with half of the peers gone although no server has it |
| Watch.ArmedIff | src/rdma/client.cc:694-744 | after every watcher event the child watch is armed if and only if the client is below full strength and the last child event or failed replacement was not a child event that found no server |
| Watch.NeverRejoins | src/rdma/client.cc:734-735 | with the watch gone, members and suspension stay as they are until a peer is deleted, for good when there is none |
| Watch.ResumeIff | src/rdma/client.cc:698-744 | in every reachable state, whatever the watcher is doing, some run leads to possible writes if and only if the client is not suspended between events with no peer left and the watch gone |
| Watch.SuspendedForGood | src/rdma/client.cc:734-735 | for each configuration a client without peers that stays suspended in every run |
| Progress.Bound | src/rdma/client.cc:255-292 | if each poll finds the front operation complete on more than rep/2 peers, the loop may stop within as many rounds as the longest of their queues |
| Progress.ReturnsWithin | src/rdma/client.cc:255-275 | hence WriteQuorum returns within that bound |
| Progress.LoopStops | src/rdma/client.cc:287-290 | the polling loop has stopped at the latest by the first round that leaves half or fewer of the peers, or more than half of the replicas marked |
| Progress.LoopResult | src/rdma/client.cc:255-292 | the round it stopped at is such a round |
| Progress.ReturnedIs | src/rdma/client.cc:278-292 | the return acknowledges the write if and only if more than half of the peers are left, and changes nothing else |
| Progress.OneMoreRound | src/rdma/client.cc:255-275 | a round is what others do and then one polling pass |
| Progress.ReturnPossibleIff | src/rdma/client.cc:268-275 | a polling write can still be acknowledged without a change of membership if and only if the peers that marked it and the connections holding its token are more than half |
| Progress.StuckWrite | src/rdma/client.cc:268-275 | for each replication factor a write that polls for ever with all replicas present |
| Client.CSLClient.constructor | src/rdma/client.cc:21-34 | a new client is connected to exactly the hosts given, records them, counts them as its replication factor, and is an initial state of the machine |
| Client.CSLClient.PostAll | src/rdma/client.cc:242-253 | the posting loop, in any order of the peers, is one posting step |
| Client.CSLClient.PollPass | src/rdma/client.cc:259-267 | one pass pops and marks exactly the complete fronts, as a run of polling steps |
| Client.PassIs | src/rdma/client.cc:259-267 | a front goes in a pass if and only if neither of its writes is in flight, alone, and its peer has marked the pending write if it was that one |
| Client.InterferencesRun | src/rdma/client.cc:672-746 | what others do during a call is the run of their events |
| Client.CSLClient.QuorumCompleted | src/rdma/client.cc:278-293 | true if and only if half or fewer of rep_factor are left or more than half of it are marked |
| Client.CSLClient.WriteQuorum | src/rdma/client.cc:233-276 | under any interference, stops at the first round that completes a quorum or finds too few peers, acknowledging only in the first case, and is a run of the machine |
| Client.CSLClient.Return | src/rdma/client.cc:275-290 | the write is recorded as acknowledged only when enough peers are left |
| Client.CSLClient.Replicate | src/rdma/client.cc:235-276 | nothing is posted while writes are suspended |
| Client.CSLClient.LocalWrite | src/rdma/client.cc:317-321 | copy, cursor, file size and word make one begin-write step |
| Client.CSLClient.LocalWritePos | src/rdma/client.cc:331-334 | the same at a position, the cursor unmoved |
| Client.CSLClient.Append | src/rdma/client.cc:316-328 | the whole call, from local copy through suspension to the last polling round, is a run of the machine, and moves the cursor past what was written |
| Client.CSLClient.WritePos | src/rdma/client.cc:330-341 | the same for a positioned write |
| Client.CSLClient.ReplacePeer | src/rdma/client.cc:453-504 | refuses an unconnected peer; otherwise drops it and connects the first listed server that is not a peer, if there is one |
| Client.CSLClient.AddPeer | src/rdma/client.cc:420-449 | the host becomes a peer with nothing posted, its region the one it kept or a zero one |
| Client.CSLClient.RecoverPeer | src/rdma/client.cc:506-517 | on return the peer has the client's bytes and word |
| Client.CSLClient.PostSnapshot | src/rdma/client.cc:510-514 | the snapshot carries every write begun so far |
| Client.CSLClient.OnPeerDeleted | src/rdma/client.cc:694-731 | a run of the machine with its whole end state: a replacement ends up equal to the client and in the membership record, the watch as it was; without one the child watch is armed; suspended exactly at half or less; the server that left keeps what it held, if it did not restart |
| Client.CSLClient.Replacement | src/rdma/client.cc:715-723 | the end state once a replacement is connected: nothing but membership, record and the new connection changes |
| Client.CSLClient.NoReplacement | src/rdma/client.cc:699-710 | suspends at half or less, and arms the child watch |
| Client.CSLClient.TakeLock | src/rdma/client.cc:280-287 | a write that is still polling when the watcher wants the lock finds too few peers and returns unacknowledged |
| Client.CSLClient.Integrate | src/rdma/client.cc:715-719 | recovery and closing of the event for either kind of event |
| Client.CSLClient.OnChildEvent | src/rdma/client.cc:731-744 | a run of the machine with its whole end state; the joined peer equals the client, suspension is lifted above half, the watch re-armed below full strength, and the record left alone |
| Client.FirstOtherIs | src/rdma/client.cc:483-488 | the search finds the first server that is not a peer, or none when all are |
| Recoverer.RecoveringClient.GetRecoverSrcPeer | src/rdma/client.cc:569-594 | the scan in table order ends at the first peer with the smallest non-zero number, or at none exactly when no peer is usable |
| Recoverer.RecoveringClient.RecoverFromSrc | src/rdma/client.cc:596-603 | the buffer gets the source's first bytes and the file their number |
| Recoverer.RecoveringClient.SyncPeerAfterRecover | src/rdma/client.cc:605-613 | every peer but the skipped one gets the file and the client's word |
| Recoverer.RecoveringClient.Run | src/rdma/client.cc:656-669 | the program does what the recovery function says, from the source the scan finds |
| LocalLog.RunRefines | src/rdma/client.h:125-176 | any sequence of proper calls answers and acts as on a POSIX file, with zeros kept beyond the end |
| LocalLog.StepRefines | src/rdma/client.h:125-176 | the same for one call |
| LocalLog.WriteIs | src/rdma/client.cc:330-334 | a write at any position, clamped ones included: which bytes change, the number over the last eight, the size |
| LocalLog.AppendIs | src/rdma/client.cc:316-321 | an append is that write at the cursor and moves the cursor past what was written |
| LocalLog.TruncateIs | src/rdma/client.cc:379-387 | for any length: size, cursor, and exactly which bytes become zero |
| LocalLog.TruncateShrinks | src/rdma/client.cc:379-387 | shrinking gives the truncated file wherever the cursor is |
| LocalLog.SeekIs | src/rdma/client.cc:362-377 | a position outside the region becomes its last byte; from the end the offset is ignored; another whence moves nothing |
| LocalLog.ReadIff | src/rdma/client.cc:343-360 | a read returns read(2)'s count if and only if it starts inside the file or asks for nothing; past the end the full count is copied |
| LocalLog.EmptyWriteIff | src/rdma/client.cc:330-333 | an empty write leaves the file alone if and only if it does not start past the end |
| LocalLog.TruncateIff | src/rdma/client.cc:379-387 | a truncate to any length leaves the file below the slot with zeros beyond its end, whatever the contents, if and only if the unsigned length is below the slot and it does not shrink the file or the cursor is at or past the old end |
| LocalLog.SeekIff | src/rdma/client.cc:362-377 | lseek(2)'s position is reached if and only if it lies in the region, or the offset from the end is zero |
| LocalLog.CSLClientLog.Append | src/rdma/client.cc:316-321 | clamped copy at the cursor, size, cursor and slot as specified |
| LocalLog.CSLClientLog.WritePos | src/rdma/client.cc:330-334 | clamped copy at a position, size and slot as specified, any position when nothing is copied |
| LocalLog.CSLClientLog.Read | src/rdma/client.cc:343-351 | the bytes at the cursor, their number computed without a sign, and the cursor past them |
| LocalLog.CSLClientLog.ReadPos | src/rdma/client.cc:353-360 | the same at a position |
| LocalLog.CSLClientLog.Seek | src/rdma/client.cc:362-377 | the clamped position, also for negative offsets |
| LocalLog.CSLClientLog.Truncate | src/rdma/client.cc:379-387 | for every length, size set without a sign; only a cursor beyond it is pulled back and the bytes between zeroed |
| MrPool.NCLMrPool.constructor | src/rdma/mr_pool.cc:14-20 | preallocated regions are zero, free and of one size |
| MrPool.NCLMrPool.GetMRofSize | src/rdma/mr_pool.cc:22-35 | a zero region that fits, the smallest free one that does (at the lowest address among equals) or a new one; no longer free, held by no one else |
| MrPool.NCLMrPool.RecycleMR | src/rdma/mr_pool.cc:37-41 | a held region is zeroed and becomes free, in its place in the order |
| MrPool.NCLMrPool.UniformServes | src/csl.cc:95 | with one request size every request can be served |
| MrPool.FirstFitIsBest | src/rdma/mr_pool.cc:29-30 | in the pool's order the first region that fits is the smallest that fits |
| MrPool.InsertedIs | src/rdma/mr_pool.cc:7-12 | insertion keeps the order strict and adds exactly one region |
| Server.CSLServer.HandleIncomingConnection | src/rdma/server.cc:127-164 | a known file keeps its region under the new socket, an unknown one gets a zero region at least as large as asked for, no other file is touched |
| Server.CSLServer.OpenFile | src/rdma/server.cc:188-205 | the region of an open file, a zero region at least as large as asked for for a new one, nothing for an unknown connection; the entry names the request's socket; no other file is touched |
| Server.CSLServer.UniformRegions | src/csl.cc:95 | when all regions have one size every request of that size is served and every open file's region has it |
| Server.CSLServer.CloseFile | src/rdma/server.cc:206-214 | the file's region is zeroed and free, no other file is touched |
| Server.CSLServer.ExitProc | src/rdma/server.cc:215-228 | only the connection goes; files and regions stay |
| Server.CSLServer.RemoteWrite | src/rdma/client.cc:252 | a client's write reaches its own file's region and no other |
| Server.CSLServer.FindSize | src/rdma/server.cc:291-302 | one past the last non-zero byte below the slot |
| Server.CSLServer.ReadSeqNum | src/rdma/server.cc:282-285 | the word in the last eight bytes |
| Server.CSLServer.GetInfo | src/rdma/server.cc:229-237 | both numbers of a file held here |
| Server.DeliverRefines | src/rdma/server.cc:282-301 | on the bytes of a region, a posted write does what the machine's delivery does to file part and word |
| Server.SlotAgreement | src/rdma/client.cc:104-106 | the server reads back every word the client stores if and only if both regions have the same size |
| Server.ZeroRegion | src/rdma/server.cc:282-301 | a zero region reports size 0 and number 0 and is never a recovery source |
| Bytes.Word64 | src/rdma/client.cc:321 | a 64-bit word stored in eight bytes is read back unchanged |
| PeerList.RoundTripIff | src/util.h:55-92 | printing and parsing any epoch and set of addresses gives back the epoch, the set and its size if and only if no address has a colon, the set is not the empty address alone, and without an epoch no address has a slash |
| PeerList.RoundTrip | src/util.h:55-92 | plain addresses always come back |
| PeerList.GenerateIpString | src/util.h:55-66 | the loop prints the joined addresses, behind the epoch when it is not 0 |
| PeerList.ParseIpString | src/util.h:72-92 | the do-while parses as specified, the malformed epoch included |
| PeerList.ParsePeers | src/util.h:85-90 | counts and collects the pieces between colons |
| PeerList.ParseIs | src/util.h:72-92 | no text before the first slash is epoch 0, text that is no number a failure, no text after it no address |
| PeerList.StoulIs | src/util.h:80 | blanks and a sign before the digits and text after them are accepted, a number of more than 64 bits is not |
| PeerList.DigitsBack | src/util.h:58 | the printed digits of an epoch denote it |
| PeerList.PathRoundTrip | src/util.h:94-102 | the path AddPeer watches leads back to the peer if and only if its name has no slash, otherwise to the part before the first one |
| PeerList.ShortPath | src/util.h:94-102 | a path with fewer than three fields gives its last one |
| Routing.Tables.PoolGetClient | src/client_pool.cc:60-84 | the least idle client, or a new one under the next id, becomes busy under the path |
| Routing.Tables.RecycleClient | src/client_pool.cc:21-34 | a busy client becomes idle without a path; any other id changes nothing |
| Routing.Tables.ClientOf | src/csl.cc:91-99 | an open path keeps its client, a new one gets a client from the pool |
| Routing.Tables.GetClient | src/csl.cc:86-104 | the table invariants and the routing of every descriptor survive an open |
| Routing.Tables.Close | src/csl.cc:247-264 | only the descriptor goes |
| Routing.Tables.Unlink | src/csl.cc:306-318 | the path's client becomes idle; descriptors stay routed if and only if none was open on the path |
| Routing.Tables.Counts | src/client_pool.cc:65-81 | idle and busy clients add up to the ids given out |
| Routing.UnlinkedDescriptor | src/csl.cc:306-318 | a descriptor of an unlinked path comes to reach another file's client |

## Left out

- Replication.Next: states no contract of its own; the guarantees and the client class are about it.
- LocalLog.CSLClientLog.Read: requires what keeps the copy inside the region; a longer copy past the end of the file is undefined behaviour in C++.
- LocalLog.CSLClientLog.WritePos: requires what keeps the copy inside the region, like Read.
- Client.CSLClient.constructor: at least one host, all of them connected; a client constructed with none has no replica, and every write of its returns at once as one with too few peers.
- Client.CSLClient.OnPeerDeleted: requires that the event names a current peer; the watch behind it is set when a peer is connected and fires once, so no other server is named; ReplacePeer's refusal is covered.
- Client.CSLClient.WriteQuorum: other threads act between polling passes, not inside one; the machine's steps allow both.
- Routing.Tables.PoolGetClient: the 32-bit id counter does not wrap, and clients are referred to by id instead of by pointer.
- MrPool.NCLMrPool.GetMRofSize: a pool whose free regions are all too small makes the code dereference its end iterator; this is a precondition.
- Server.CSLServer.GetInfo: the request for a file the server does not hold dereferences an end iterator; this is a precondition.
- Server.CSLServer.OpenFile: asks for room for the word and for a request the pool can serve, like GetMRofSize; so does HandleIncomingConnection for a file not held.
- Client.CSLClient.OnChildEvent: the client is in use; a client that is not (src/rdma/client.cc:736) takes the new peer without bringing it up to date, which is not modelled.
- WriteSync's loop as a method: the machine has its steps (Await, ReturnSync), but the code compiles the quorum path.
- Truncate inside the replication machine: it changes the local buffer only and posts nothing.
- Writers in several threads, CQPollingFunc and ASYNC_QUORUM_POLL, which is disabled.
- A client after its first recovery: its peers may hold bytes beyond the file, and what later writes make of them is not modelled.
- Freshness of a recycled client: Reset keeps the file size and the sequence counter, and ReplaceBuffer keeps the old slot.
- SYNC_PEER and SYNC_PEER_DONE, whose use in the client is commented out.
- The deprecated GetClient overload, TryLocalRecover, ReadSync and GetLine.
- RDMA verbs, completion queues, sockets, ZooKeeper calls, symbol interposition, statistics, properties and the example programs.
