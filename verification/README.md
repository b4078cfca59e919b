# MiDSM, modelled and proved

MiDSM is a page-based distributed shared memory. Hosts share pages; a host that acquires a lock learns,
from the host that held it last, which pages were written since its own last critical section, and brings
its copies up to date on demand, by fetching whole pages or additive byte diffs. This project models the
lock manager (`src/syn.c`), the intervals, write notices and pages (`src/mem.c`), the barrier and the
message-building layer (`src/net.c`), and proves what they guarantee over all runs.

## How the files fit together

| files | what they hold |
|---|---|
| `Options`, `Limits`, `Vectors`, `Diffs` | vectors and their order; bytes with wrap-around, pages, diffs and their sums |
| `Locks`, `Syn`, `SynNodes` | one lock record and one host's lock procedures: specification functions, and classes that do the same in place (the waiting list is a fixed array that is shifted) |
| `OneLock`, `LockSystem`, `WokenSources` | the lock protocol as a state machine: one lock, then all hosts, all locks and FIFO channels; every run of the whole, seen through one lock, is a run of the one-lock protocol; what the calls return, and whom a woken host fetches from |
| `HostMem`, `Incorporation`, `PageStates`, `IntervalLists`, `DiffFetching` | one host's memory state and procedures on values, what every sequence of local steps keeps, and what a host sends from one barrier to the next |
| `MemCells`, `MemNodes` | the linked lists of `mem.c`: cells at addresses, spliced in place by the methods of class `MemNode`, which are proved to do what `HostMem` says |
| `CriticalLog`, `World`, `QuietSteps`, `Receiving`, `Writing`, `FetchSources` | the memories of all hosts with the history of critical sections; the invariant (what each host knows) and, apart from it, how far each copy is from the current page; what each step does to both |
| `System`, `Coherence`, `CoherentSteps` | the whole one-lock system: lock protocol, memories, requests and replies; its invariant, kept by every step of every run |
| `VectorChain`, `Guarantees`, `WaitsEnd`, `OwnLists` | what every run guarantees: notices, vectors, diffs, progress, the order of a host's own intervals |
| `CopySteps`, `Discipline`, `FreshRuns` | the bytes: which steps keep the copies consistent, which runs do, and a discipline that makes every store safe |
| `StaleRun`, `StaleSystem` | a run with an unsafe store that ends with a stale read: its memories, and the run itself |
| `Packing`, `Barrier`, `BarrierNodes` | barrier entry and exit messages and their round trips; the barrier as a state machine; host 0's tables in place |
| `BarrierSpread`, `BarrierAfterLocks` | a whole barrier exchange after a one-lock run: who knows what, with which vector, and what can then be read |
| `Allocation`, `MessageQueue` | `mi_alloc` against the fault handler's arithmetic; the message ring and the appending of data |

Channels deliver every message once; the lock and barrier machines keep the FIFO order of each host pair, and the
memory messages of `System` may arrive in any order. Each message handler is one step, and so are `graspLock` with
`waitFlag = 1` in `mi_lock`, host 0's barrier check with its wait, and `checkBarrierFlags`. A host is in its critical
section from the return of `mi_lock` to the call of `mi_unlock`. Vectors have one component per host. Addresses are
positions in a sequence of cells, so allocation appends a cell and null is -1.

The memory theorems are about one-lock runs, with shared pages used only in critical sections, and about one barrier
at the end of such a run. `Guarantees`, `WaitsEnd` and `OwnLists` hold in every such run. The bytes do not stay
consistent in every run: `grantPage` leaves the page writable on the granter, whose next stores then leave no notice.
A store is safe if it changes nothing or no other host has fetched the page as a whole since the writer's open notice
was made (`Writing.SafeStore`). A run keeps every copy consistent at every moment if and only if all its stores are
safe (`FreshRuns.ConservedIffSafe`), and then nobody reads stale bytes (`FreshRuns.Freshness`). Runs in which every
critical section that obtains a page as a whole also writes it are safe (`FreshRuns.DisciplinedIsSafe`);
`StaleSystem` gives a run that breaks this once and ends with a stale read.

Where the source's comments and code differ, the code is followed: `handleGrantWNIMsg` takes the granter's vector
instead of a maximum, `isAfterInterval` is a strict order, `handleAcquireMsg` accepts the lock number `LOCK_NUM`
(which `graspLock` then refuses), and `mi_lock` makes no interval when the manager's own host was woken by a release
and has nobody to fetch from (`OneLock.GrantNamesLastReleaser` shows that this never happens).

## Model

| member | source | states |
|---|---|---|
| `Vectors.IsAfterInterval` | src/mem.c:856-874 | the comparison loop returns 1 exactly when the first vector is nowhere below the second and differs from it, -1 exactly for a null argument |
| `Vectors.StrictPartialOrder` | src/mem.c:856-874 | the relation is irreflexive, asymmetric and transitive, and composes with the pointwise order |
| `Diffs.ApplyDiff` | src/mem.c:489-498 | every byte of the page becomes the sum of its old value and the diff's, modulo 256, in place; a null argument changes nothing |
| `Diffs.CreateLocalDiff` | src/mem.c:510-522 | a new block of the bytes that, added to the twin's modulo 256, give the page's; null exactly when an argument is |
| `Diffs.DiffRoundTrip` | src/mem.c:489-522 | adding a diff to the old version gives the new one if and only if it is the difference of the two |
| `Diffs.ApplyAllIsSum` | src/mem.c:489-498 | after any number of diffs, each byte is the base's plus the unbounded sum of the diffs' bytes, modulo 256 |
| `Diffs.ChainAnyOrder` | src/mem.c:489-522 | the diffs of any chain of versions, applied to the first in any order, give the last |
| `Diffs.MergeAnyOrder` | src/mem.c:489-522 | the diffs of any number of writers to disjoint bytes of one base give their merge, in any order |
| `Locks.MiLock.Grasp` | src/syn.c:300-319 | in place, the record and result of `GraspRec`: a free lock is taken and the last holder returned, a busy one queues the host at the end |
| `Locks.MiLock.Release` | src/syn.c:364-397 | in place, with the array shift, the record and result of `ReleaseRec`: the first waiter becomes owner and the list moves up |
| `SynNodes.SynNode.GraspLock` | src/syn.c:300-319 | parameter and manager checks, then the record's step; nothing else changes |
| `SynNodes.SynNode.FreeLock` | src/syn.c:364-397 | parameter and manager checks, then the record's step; nothing else changes |
| `Syn.GraspCodes` | src/syn.c:287-319 | which result `graspLock` gives when: each failure has its own code, success names the last holder, a failure changes no record |
| `Syn.FreeCodes` | src/syn.c:352-397 | which result `freeLock` gives when: each outcome has its own code, at least 0 is the host that waited longest |
| `SynNodes.SynNode.GrantLock` | src/syn.c:328-349 | the GRANT message names the record's last holder; none is sent to the manager itself |
| `SynNodes.SynNode.HandleAcquireMsg` | src/syn.c:197-209 | the request is taken into the record and granted at once if the lock was free |
| `SynNodes.SynNode.HandleReleaseMsg` | src/syn.c:217-232 | the lock is handed to the first waiter: by waking the manager itself or by GRANT |
| `SynNodes.SynNode.HandleGrantMsg` | src/syn.c:271-284 | the host is woken, owns the lock and knows the last holder |
| `SynNodes.SynNode.MiLockBegin` | src/syn.c:53-95 | refusal, waiting or immediate success, with the message to the manager when there is one |
| `SynNodes.SynNode.MiLockWoken` | src/syn.c:69-72 | after the wait: whose intervals are fetched, which the host then forgets |
| `SynNodes.SynNode.MiUnlockRelease` | src/syn.c:120-157 | the manager frees in place and grants to the next waiter, or ends in its error branch; another host sends RLS |
| `OneLock.StepInv` | src/syn.c:53-157 | every step of every host keeps the protocol's invariant |
| `OneLock.MutualExclusion` | src/syn.c:53-157 | in every run, for any number of hosts, at most one host holds the lock |
| `OneLock.TokenConservation` | src/syn.c:197-232 | in every run the ownership token is in exactly one place: free at the manager, in a GRANT, with its owner, or in an RLS |
| `OneLock.NoLostWaiter` | src/syn.c:83-95 | a host is blocked if and only if exactly one of these holds: its ACQ is in flight, it is in the waiting list, a GRANT to it is in flight |
| `OneLock.WaitingListFits` | src/syn.c:312-317 | the waiting list has no duplicates, never the owner, at most one entry less than there are hosts, and room whenever another host asks |
| `OneLock.OwnersInRequestOrder` | src/syn.c:364-397 | the owners so far followed by the waiting list are the requests in the order in which the manager processed them |
| `OneLock.BoundedWaiting` | src/syn.c:384-394 | from any reachable state on, the waiter at position i is the (i+1)-st owner chosen, and before that has moved up by one per hand-over |
| `OneLock.GrantNamesLastReleaser` | src/syn.c:328-349 | every GRANT in flight and every woken host names the host that released last, or -1 if none did; a manager woken by a release has another host to fetch from |
| `LockSystem.StepShows` | src/syn.c:197-232 | a step of the many-lock system is, for every lock, a step of the one-lock protocol or none |
| `LockSystem.MutualExclusion` | src/syn.c:53-157 | for any number of hosts and all locks, no two hosts are in the same lock's critical section |
| `LockSystem.QueueNeverOverflows` | src/syn.c:312-317 | no waiting list is ever full when a host is added, for up to 20 hosts |
| `LockSystem.NoLostWaiter` | src/syn.c:53-108 | a host spinning in `mi_lock` has exactly one of ACQ in flight, a place in the list, GRANT in flight |
| `LockSystem.EveryLockIsOneLock` | src/syn.c:53-157 | every run, seen through any lock, is a run of the one-lock protocol that ends in what the lock then looks like |
| `LockSystem.TokenConservation` | src/syn.c:197-232 | for every lock in every run, one token: free at the manager, in a GRANT, with its owner, or in an RLS |
| `LockSystem.OwnersInRequestOrder` | src/syn.c:364-397 | for every lock, the owners so far followed by the manager's waiting list are the requests in the order taken |
| `LockSystem.BoundedWaiting` | src/syn.c:384-394 | in every lock's waiting list the host at position i is the (i+1)-st new owner, and before that has moved up by one per new owner |
| `LockSystem.GrantNamesLastReleaser` | src/syn.c:328-349 | for every lock, a GRANT in flight and a host just given the lock name the last host that released it, or -1 |
| `LockSystem.LockOutcome` | src/syn.c:53-82 | in every run `mi_lock` refuses exactly bad lock numbers (-1) and locks in whose critical section the host is (-2); a free lock is given at once on its manager |
| `LockSystem.UnlockOutcome` | src/syn.c:130-141 | in every run the manager's `freeLock` in `mi_unlock` answers -5 if and only if nobody waits, else another host, the one that waited longest: the error branch is never taken |
| `LockSystem.DeliveredOutcome` | src/syn.c:197-232 | in every run an arriving request is queued (-3) if and only if the lock is taken, and an arriving release comes from the owner |
| `WokenSources.WokenFetches` | src/syn.c:94-104 | in every run a woken `mi_lock` fetches from the host that released the lock last, or makes an own interval if nobody else did; never neither, never twice |
| `WokenSources.SameInMemory` | src/syn.c:65-73 | and that is the host the memory system fetches from |
| `WokenSources.GivenInMemory` | src/syn.c:74-82 | the same for a free lock that the manager's own host takes |
| `WokenSources.FetchedOnce` | src/syn.c:69-72 | in every run, from the start, a host that was not just woken has nobody's name left to fetch from |
| `Incorporation.Split` | src/mem.c:533-626 | a packet cut in two has the effect of the whole |
| `Incorporation.SplitAnywhere` | src/mem.c:533-626 | an interval's pages in any number of consecutive chunks give the same lists and page states as one unbounded packet |
| `Incorporation.Idempotent` | src/mem.c:533-626 | incorporating a packet a second time changes nothing |
| `Incorporation.PacketizedInterval` | src/mem.c:913-941 | the packets made for an interval, incorporated in order, act like the whole interval |
| `Incorporation.GrantedExactly` | src/mem.c:349-371 | for any lists and vectors, concurrent ones included: a notice is sent if and only if the granter has it and its interval's vector is in no component below the requester's and in some component above |
| `Incorporation.GrantedInOrder` | src/mem.c:349-371 | the packets of a reply go host by host, and each host's from its oldest interval to its newest |
| `Incorporation.NewPacketEffect` | src/mem.c:533-626 | an unseen interval becomes the head of its host's list, and exactly its pages get a notice and are invalidated |
| `PageStates.EveryRun` | src/mem.c:637-665 | after any sequence of a host's own steps a page is WRITE iff it has a twin iff its newest own notice has no diff, and older own notices have one |
| `PageStates.DiffsHaveTwins` | src/mem.c:456-464 | in every such run, wherever a diff is built there is a twin: serving a diff and receiving a notice for a WRITE page |
| `IntervalLists.NowIsHead` | src/mem.c:951-954 | in every such run `intervalNow` is the head of the own list and the search for the last barrier interval ends |
| `IntervalLists.StartIsBarrier` | src/mem.c:126-130 | after `initmem` the own list is one barrier interval with the zero vector |
| `IntervalLists.ExitOpens` | src/mem.c:1147-1171 | the exit messages put one barrier interval with the new vector in front of the own list, and what is sent next starts with it |
| `IntervalLists.NextEntry` | src/mem.c:947-1008 | after leaving a barrier and any further steps, a notice is sent at the next barrier if and only if it is in an interval opened since, or in that of the exit; older intervals are not touched |
| `MemCells.TwoIndexesAgree` | src/mem.c:541-625 | for each host, the notices hanging on its intervals are exactly those in the pages' lists for it |
| `MemCells.OnceInIntervals` | src/mem.c:607-622 | a notice is in one place of one interval's list, that of its back pointer |
| `MemCells.OnceOnPages` | src/mem.c:607-610 | a notice is in one place of one page's list, that of its page number and its interval's host |
| `MemCells.PrevInvertsNext` | src/mem.c:573-577 | `prev` is the exact inverse of `next`, the head of a host's list is the one interval without `prev`, and `next` leads to older cells only |
| `MemCells.PushKeeps` | src/mem.c:889-896 | splicing in an interval keeps the whole structure and adds exactly that interval |
| `MemCells.NoticeKeeps` | src/mem.c:645-663 | linking a notice into both its lists keeps the whole structure and adds exactly that notice |
| `MemNodes.MemNode.constructor` | src/mem.c:98-138 | one barrier interval of the host itself, no notices, the given pages |
| `MemNodes.MemNode.AddNewInterval` | src/mem.c:880-899 | a new own interval, which becomes `intervalNow`: the head's vector with exactly 1 added to the own component |
| `MemNodes.MemNode.CreateTwinPage` | src/mem.c:211-224 | a copy of the page is kept unless the page is absent or already has a twin |
| `MemNodes.MemNode.FreeTwinPage` | src/mem.c:235-248 | the twin goes; the result tells whether there was one |
| `MemNodes.MemNode.CreateWriteNotice` | src/mem.c:637-665 | a read-only page gets a notice: last in the current interval, first in the page's own list |
| `MemNodes.MemNode.WriteFault` | src/mem.c:32-38 | twin, notice and WRITE state in one fault |
| `MemNodes.MemNode.IncorporateWnPacket` | src/mem.c:533-626 | the effect of `IncorporatePacket` on all lists and page states, through the loops over cells |
| `MemNodes.MemNode.GrantDiff` | src/mem.c:426-477 | the reply and the state after it: a missing diff is built and ends the WRITE state |
| `MemNodes.MemNode.HandleGrantDiffMsg` | src/mem.c:725-775 | the diff is added to the page, and stored with its notice if that has none; one that is there stays |
| `MemNodes.MemNode.GrantPage` | src/mem.c:388-411 | the bytes as they are, of every page that is there, with no change to its state |
| `MemNodes.MemNode.HandleGrantPageMsg` | src/mem.c:783-798 | the bytes arrive and the page's start is the current interval |
| `MemNodes.MemNode.HandleGrantWNIMsg` | src/mem.c:806-843 | a new own interval with the granter's vector and exactly 1 added to the own component, then all packets |
| `MemNodes.MemNode.ChooseHost` | src/mem.c:156-189 | the host asked for a missing page: the one whose newest notice is latest, else the home host |
| `MemNodes.MemNode.AddWNIIntoPacket` | src/mem.c:913-941 | at most 1024 page numbers from the given notice on, and the notice to go on with |
| `MemNodes.MemNode.GrantWNI` | src/mem.c:330-376 | the current vector and, host by host and oldest first, the packets of all intervals with notices strictly after the requester's vector |
| `MemNodes.MemNode.SendEnterBarrierInfo` | src/mem.c:947-1008 | the messages for all intervals with notices from the last barrier interval on, by walking to it and back |
| `MemNodes.MemNode.HandleEnterBarrierInfo` | src/mem.c:1134-1138 | as many packets as the slot counts are incorporated |
| `MemNodes.MemNode.HandleExitBarrierInfo` | src/mem.c:1147-1171 | a message with a vector puts a barrier interval in front of the own list, and one without changes nothing there; the packets are incorporated |
| `MemNodes.MemNode.ReturnTo` | src/mem.c:1041-1099 | the messages for one host, in order, and the host each is sent to, which is that host or host 0: a later message goes to host 0 exactly if the packet that filled the one before it was not its interval's first |
| `MemNodes.MemNode.ReturnAllBarrierInfo` | src/mem.c:1014-1105 | host 0 puts a barrier interval in front of its own list and replies to every other host with the intervals strictly after the vector it entered with |
| `DiffFetching.FetchDiff` | src/mem.c:259-290 | the nested loops, with the answers as a parameter, compute `Fetched` |
| `DiffFetching.ExactlyOnce` | src/mem.c:259-290 | each notice is asked for at most once, the bytes become the old bytes plus the diffs that came back, each stored with its notice; the page ends up to date if and only if no unsettled notice was hidden behind one that had its diff |
| `DiffFetching.AskedExactly` | src/mem.c:272-287 | for any vectors: a notice is asked for if and only if it has no diff and its interval's vector is in no component below that of the copy's start and in some component above |
| `World.HolderReadsCurrent` | src/mem.c:24-57 | under the invariant, the holder of the lock reads the current bytes from every readable page whose copy plus pending diffs is the current page |
| `QuietSteps.ServeKeeps` | src/mem.c:426-477 | serving a diff, building it first if need be, keeps the invariant of the memories |
| `QuietSteps.ServeConserves` | src/mem.c:426-477 | and leaves every copy of every page, on every host, as far from the current page as its pending diffs |
| `QuietSteps.LeaveKeeps` | src/syn.c:120-128 | closing a critical section keeps the invariant, whatever it read, fetched or wrote |
| `Receiving.FetchReady` | src/mem.c:330-376 | what the last releaser sends is exactly what the acquirer lacks: afterwards it knows the whole history, no more and no less |
| `Receiving.GrantSkipsRequester` | src/mem.c:349-371 | the last releaser never sends a host its own intervals back |
| `Receiving.EnterKeeps` | src/mem.c:806-843 | entering with that memory keeps the invariant, with the new critical section in the history |
| `Writing.FaultKeeps` | src/mem.c:32-38 | the write fault keeps the invariant, with the page now written by the open critical section |
| `Writing.FaultConserves` | src/mem.c:32-38 | and changes no copy's pending sum: the new notice's diff is still zero |
| `Writing.StoreKeeps` | src/mem.c:32-38 | any store by the holder to a WRITE page keeps the invariant, with the stored bytes as the new current page |
| `Writing.StoreSafeIff` | src/mem.c:388-411 | if all copies are consistent, they all still are after a store if and only if it changes nothing or no other host has fetched the page as a whole since the writer's open notice |
| `Writing.GotDiffKeeps` | src/mem.c:725-775 | adding a diff that was asked for keeps the invariant |
| `Writing.GotDiffConserves` | src/mem.c:725-775 | and moves exactly that diff from the pending sum into the copy |
| `Writing.ResumeMissConserves` | src/mem.c:39-44 | making a page readable that arrived whole keeps the copies consistent if and only if it arrived current |
| `FetchSources.FetchTargetCurrent` | src/mem.c:149-189 | the host that a missing-page fault asks is another host and has the page; while copies are consistent, its copy is the current page |
| `FetchSources.ChosenIsLatest` | src/mem.c:149-189 | for any lists and vectors: no other host's newest notice is after that of the host asked for the page, and without notices the home host is asked |
| `FetchSources.WriterAnswers` | src/mem.c:446-474 | the writer of a notice always has or can build its diff, and stores what it sends |
| `CoherentSteps.StepKeeps` | src/mem.c:24-57 | every step of the one-lock system keeps its invariant |
| `CopySteps.StepConsistentIff` | src/mem.c:388-411 | while all copies, and the pages on their way, are consistent, a step keeps them so if and only if it is no unsafe store |
| `FreshRuns.ConservedIffSafe` | src/mem.c:388-411 | a run keeps copy plus pending diffs equal to the current page, for every page on every host at every moment, if and only if all its stores are safe |
| `FreshRuns.NextStoreIff` | src/mem.c:388-411 | after any safe run, the next store keeps all copies consistent if and only if it is safe |
| `FreshRuns.Freshness` | src/mem.c:24-57 | in every safe run, a host in its critical section reads from every page it can read the bytes of the last store to that page by anyone |
| `FreshRuns.Conservation` | src/mem.c:725-775 | in every safe run, on every host that has a copy, copy plus pending diffs is the page as last written |
| `FreshRuns.BytesAddUp` | src/mem.c:489-498 | and in each byte: the copy's byte and the sum of the pending diffs' bytes give the byte last written, modulo 256 |
| `FreshRuns.DisciplinedIsSafe` | src/mem.c:388-411 | a run is safe if every critical section that obtains a page as a whole also writes it |
| `FreshRuns.DisciplinedFreshness` | src/mem.c:24-57 | so in every such run copies are always consistent and reads are fresh |
| `Guarantees.EveryMessageHandled` | src/mem.c:673-710 | at most one memory message is in flight; its handler can run, and a request is answered to its sender |
| `Guarantees.HolderNeverStuck` | src/syn.c:69-79 | a host waiting inside `mi_lock` or a fault can go on, or a message for it can be handled |
| `WaitsEnd.WaitBounded` | src/mem.c:149-200 | however a run goes on, a host that waits sees no more handlers and turns of its loops than it has work left: two per message pair, three per notice and host still to look at |
| `WaitsEnd.WaitEnds` | src/mem.c:24-57 | from any state of any run, that many handlers and turns are enough to end its wait: it is then in its critical section, or its page is readable |
| `Guarantees.NoticeCoverage` | src/mem.c:359-370 | a host has another's interval, with a notice in every page's list, if and only if its vector is at least the interval's timestamp: the strictly-after filter omits only what is already there |
| `Guarantees.VectorsFormChain` | src/mem.c:826-834 | any two hosts' vectors are comparable, and no host is ahead of another in the other's own component |
| `Guarantees.HolderDominates` | src/syn.c:69-79 | the host inside or leaving, or else the last releaser, has a vector strictly above all others |
| `Guarantees.OverwriteIsMax` | src/mem.c:826-829 | taking the granter's vector and incrementing equals taking the maximum and incrementing |
| `Guarantees.NewIntervalsAbove` | src/mem.c:880-899 | vectors never shrink, and every interval a host opens is strictly above every vector any host had before |
| `Guarantees.VectorsCountSections` | src/mem.c:880-899 | in every run component j of a host's vector is twice the number of host j's critical sections up to the host's own last one, less one for the section it is in |
| `Guarantees.FaultFindsEverything` | src/mem.c:272-287 | in every run each remote notice list is an undiffed prefix followed by settled notices whenever no fault on the host is under way, so stopping at the first diff misses nothing |
| `Guarantees.DiffArrivesOnce` | src/mem.c:758-773 | an arriving diff was not there before, is added to the bytes, and is stored |
| `OwnLists.OwnIntervalsOrdered` | src/mem.c:880-899 | in every run a host's own interval list is strictly ordered, newest first, has distinct timestamps, and its only barrier interval is the oldest |
| `OwnLists.ComponentCountsIntervals` | src/mem.c:880-899 | in every run a host's own component is the number of intervals it has opened |
| `OwnLists.StartsInitial` | src/mem.c:98-138 | `initmem` and `mi_alloc` make the memory with which runs start |
| `StaleSystem.UnsafeRunIsStale` | src/mem.c:388-411 | a run of two hosts and one page, from the initial state, after which the host in its critical section reads bytes that are not the last written |
| `StaleSystem.StoreIsUnsafe` | src/mem.c:388-411 | the store of the third critical section of that run is not safe |
| `StaleSystem.StaleIsUnsafe` | src/mem.c:388-411 | no run with a stale read is safe or disciplined |
| `Packing.MessagesFit` | src/mem.c:969-1007 | every message stays within 40860 bytes of data, has at most nine packets and counts them; only the first has a vector |
| `Packing.MessageBuilt` | src/mem.c:958-977 | built in a cleared slot of the ring from the bytes of the count and the packets, a message has that size and fits, and unless it is the first it has no vector |
| `Packing.AppendPacket` | src/mem.c:971-984 | each append fits; a message with no room for one more packet is counted, sent and replaced |
| `Packing.FinishMessages` | src/mem.c:1004-1007 | the last message is sent unless it is empty and not the first; the messages sent are those of `EntryMessages` |
| `Packing.NothingLost` | src/mem.c:947-1008 | the messages carry the packets in order, none lost, none repeated |
| `Packing.FirstOccurrencesSpec` | src/mem.c:582-594 | skipping pages already there leaves the same pages, each once, in order of first occurrence |
| `Packing.EntryRoundTrip` | src/mem.c:1122-1139 | the manager that handles the messages in order knows exactly the sender's intervals with notices since the last barrier, with their pages in first-occurrence order and a notice in each page's list |
| `Packing.SinceBarrierSpec` | src/mem.c:951-954 | what is sent goes back to the newest barrier interval, which is included, and no further |
| `Packing.ExitRoundTrip` | src/mem.c:1147-1171 | the exit messages, handled in order, open one barrier interval and incorporate all the packets sent |
| `Packing.SmallReaches` | src/mem.c:1089 | with at most 1024 notices per interval every exit message is sent to the host it is for |
| `Packing.LargeIsMisaddressed` | src/mem.c:1089 | a reply with one interval of 9217 notices is not: its second message goes to host 0 |
| `OwnLists.EntryAfterLocks` | src/mem.c:947-1008 | after any one-lock run, a manager that has none of a host's intervals gets from its entry messages exactly the host's critical sections with notices, newest first, with their pages |
| `Barrier.StepInv` | src/syn.c:163-189 | every barrier step keeps the invariant |
| `Barrier.BarrierSafety` | src/syn.c:163-189 | in every run nobody has left more barriers than everybody has entered, and counts of any two hosts differ by at most one |
| `Barrier.FlagsResetOncePerRound` | src/syn.c:407-433 | flags are cleared only when a round completes, then all of them and all rows, with every host arrived; otherwise a set flag stays |
| `Barrier.RowsFilled` | src/mem.c:1127-1133 | when all flags are set, every row is the vector its host entered this round with |
| `Barrier.RoundsRecordEntries` | src/syn.c:163-184 | the vectors recorded for a round are those the hosts had when they entered it |
| `Barrier.LeavesWithRoundVector` | src/mem.c:1014-1037 | every host leaving its k-th barrier has the same vector, whose component i is host i's own at entry plus one |
| `Barrier.ExitDominates` | src/mem.c:1018-1020 | that vector is strictly above a host's vector at entry if and only if the host was ahead of no other by more than one in the other's own component |
| `BarrierNodes.BarrierTables.TakeVector` | src/mem.c:1127-1133 | a row is filled once a round, by the first message that has a vector |
| `BarrierNodes.BarrierTables.NewVector` | src/mem.c:1015-1020 | the loop computes the broadcast vector from the rows' diagonal |
| `BarrierNodes.BarrierTables.CheckBarrierFlags` | src/syn.c:407-433 | completes exactly when all flags are set, with the new vector, and then clears flags and rows; else changes nothing |
| `BarrierAfterLocks.BarrierVectorDominates` | src/mem.c:1014-1037 | after any one-lock run the barrier vector is strictly above every host's vector |
| `BarrierAfterLocks.LateEntriesDominated` | src/mem.c:1014-1037 | whenever each host entered, if it then waited, the barrier vector is strictly above the vectors with which the hosts entered |
| `BarrierAfterLocks.LeavesAboveAll` | src/syn.c:163-189 | a host that leaves the barrier of the state machine, in a round with the vectors of a one-lock run, has a vector above them all |
| `BarrierSpread.HostGathered` | src/mem.c:1122-1139 | all packets of a host bring the manager up to date on it, whatever it knew of it before, and change nothing else |
| `BarrierSpread.ExitDelivers` | src/mem.c:1147-1171 | what a manager that knows the whole history returns to a host is exactly what the host lacks: it then knows the whole history and has the barrier vector |
| `BarrierAfterLocks.BarrierTellsAll` | src/mem.c:1041-1105 | after a one-lock run and the exchange, in any order of entry messages, every host has every interval with notices of every host, each notice in its page's list, the new vector above all, and its own list starting afresh with a barrier interval |
| `BarrierAfterLocks.SmallAddressed` | src/mem.c:1089 | no exit message is misaddressed if no critical section wrote more than 1024 pages |
| `BarrierAfterLocks.BarrierFreshness` | src/mem.c:24-57 | after a safe run and a barrier every host reads the bytes last written from every page it can read |
| `Allocation.Allocator.MiAlloc` | src/mem.c:68-92 | null exactly for a request that is not positive or does not fit into what is left, else a block of whole pages; the page table stays that of the space given out |
| `Allocation.SameOnAllHosts` | src/mem.c:68-92 | hosts that make the same calls get the same addresses |
| `Allocation.BlocksContiguous` | src/mem.c:72-91 | blocks are disjoint, contiguous, as large as requested rounded up to pages, and within the shared range |
| `Allocation.FaultsHitTheirPage` | src/mem.c:25-27 | an address is in the space given out if and only if the handler computes the index of an allocated page, and then that entry holds the page's first address |
| `Allocation.OneHome` | src/mem.c:79-85 | each page starts read-only on exactly one host and missing on all others |
| `MessageQueue.Ring.NextFreeMsg` | src/net.c:267-305 | the slot behind the last message has no sender, receiver, command, sequence number, vector, size or data left; none of the queued messages changes; null exactly when full |
| `MessageQueue.Ring.MsgEnqueue` | src/net.c:231-255 | the prepared slot becomes the last message, unless the ring is full |
| `MessageQueue.Ring.QueueTop` | src/net.c:316-336 | the oldest message, null exactly when empty |
| `MessageQueue.Ring.MsgDequeue` | src/net.c:347-371 | the oldest message goes, the others keep their order |
| `MessageQueue.Ring.ApendMsgData` | src/net.c:548-558 | the data is appended behind what is there, the queued messages do not change |
| `MessageQueue.BuiltFromCleared` | src/net.c:267-305 | data appended piece by piece to a cleared slot is the message's data, nothing before and nothing behind it, and the message has no vector |

## Left out

- The network behind `DiffFetching.FetchDiff`: the diff each writer answers is a parameter there; in `System` the same loops run turn by turn, each request being answered by its writer.
- Sockets, signals, `mmap`, `mprotect` and the retry and sequence-number logic of `sendMsg`: channels are assumed; page protection is part of the page state.
- Several locks at once in the memory theorems: intervals concurrent with the requester's vector are not sent, so the code gives no such guarantee.
- Locks used after a barrier, and lock use or page faults on host 0 while it handles entry messages: in `BarrierSpread` the exchange begins when all hosts have entered, and the entry messages of one host are handled together.
- Payload overflow in `grantWNI`: the reply is an unbounded sequence of packets.
- Exit messages that go to the wrong host: `BarrierAfterLocks.BarrierTellsAll` is about exchanges in which none does.
- The effect of a barrier on locks: clearing `lasthostid` on host 0.
- Results of `mi_lock` and `mi_unlock` on the manager's own path, where an inner variable shadows the returned one.
- `src/init.c`, `src/util.c`, printing, `showDataStructures`: input and output.
- Deallocation of nodes, diffs and twins, and running out of memory: an address is never reused.
- Reading `startInterval` of a home page, which is null: its timestamp is taken to be null too, as the loop that reads it expects.
- Writing a page through a second mapping or outside a critical section.
- MessageQueue.Ring.ApendMsgData: which bytes of the next slot are overwritten by data that runs past the payload is not said; `Packing.AppendPacket` proves that barrier messages never get there.
- MemNodes.MemNode.IncorporateWnPacket: a WRITE page without an own notice is left as it is, where the C code dereferences null; `PageStates.EveryRun` shows that there is no such page.
- Packing.EntryRoundTrip: requires that the sender's intervals since the barrier have distinct timestamps, which `OwnLists.OwnIntervalsOrdered` shows for every one-lock run, and that the manager has none of them; `BarrierSpread.HostGathered` is about managers that have some.
