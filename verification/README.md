# Goperation: verified models of its protocols, allocators and caches

Goperation runs game services on many hosts: a central server, Redis and MySQL for shared
state, and an agent on every host.  This project models the parts of it that hold protocols,
allocators and caches, and proves what they are relied on for.  Each `.dfy` file is one module;
the comment at its head names the source file it is about.

* `MetadataCache`, `OnlineMetadata`, `OnlineKey`: the cache of agent metadata that every process
  keeps, the flushes that rewrite the metadata in Redis in several commands, and who owns an
  agent's online key.
* `LockKeys`: lock keys taken with SET NX, whose failed deletions go to a background reaper.
* `PortAllocator`, `EntityLocks`, `EndpointRuns`, `EndpointLimits`: the ports of an agent, the locks of its
  entities, and what their gate and limits are worth when several endpoints share them.
* `Gathering`, `Responses`: waiting for the answers to an asynchronous request, and its records.
* `FernetKeys`, `FernetTokens`: the rotated key repository and the text of tokens.
* `FileScan`, `Downloads`: reconciling the file cache with disk and database, and downloading
  every file once.
* `Includes`, `AgentChoice`: reading the include strings of a filter, and filtering and sorting agents by
  what they report.
* `ConnectionPool`: the bounded pool of Redis connections and its heartbeat.
* `Flows`, `UpgradeFlow`: the nested task flows of an upgrade, over all their interleavings.
* `Wrappers`, `NatSets`: what the other modules share.

Code that changes objects step by step is a class whose methods are proved against functions
of the old state.  Protocols between green threads, processes and hosts are state machines: a
step is what a thread does between two places where it may sleep, or one Redis command or
MULTI/EXEC block, and the theorems hold for every interleaving of any number of threads.
Error returns and exceptions are results.  Redis, the database, disk, clock, key generation,
hashing, random choices and the order of Python sets and dicts are parameters or free choices.

## What the code does that its design does not promise

These are results about the code as it is; each has a lemma.

* The semaphores of `RpcAgentEndpointBase` are a class attribute that all endpoints share, but the
  `frozen` gate and the limit belong to one endpoint.  With one endpoint in use there is no deadlock and the
  limit holds (`NoDeadlock`, `OneEndpointWithinLimit`).  With several, it matters whether a green thread can
  be interrupted while it acquires a semaphore that is free.  If it cannot, or only while others wait for it,
  deadlock is possible exactly if two different endpoints with limits of at least 3 are in use, and so is
  exceeding the limit.  If it always can, a limit of 2 does for one of the two endpoints that deadlock,
  and limits of 2 can be exceeded (`GateGuardsOneEndpoint`, `LimitGuardsOneEndpoint`, `CommonLimit`).
* A request that mixes named and unnamed ports succeeds for every choice of the unnamed ones exactly
  if it is feasible and names come first (`MixedRequest`).  A failing allocation for a new entity leaves
  the entity behind without ports (`EnterFrozenPorts`).  Dropping an entity that still holds ports loses
  them (`DropConserves`, `LostPort`, `ExitFrozenPorts`), and so does making it anew (`OverwriteConserves`).
* Two flushes of an agent within one second get the same score, and the second one is then not seen
  until the cached value expires (`FlushThenRead`, `SecondReadStale`).
* A plain SET of an online key can overwrite another host's key if the key lapsed after the flush looked
  at it (`StealingStep`, `LapsedKeyStolen`).
* A failed DELETE that did take effect breaks mutual exclusion (`ExclusionNeedsCleanDeletes`); the mark
  protects only the locks of other processes from the reaper (`ReaperTakesOwnMark`).
* A lock key is forgotten, and then never free again, exactly if a deletion fails that a call tries after its
  process has stopped, or the fifth one of a reaper after the stop (`ForgettingSteps`, `LocksAreRemembered`,
  `ForgottenForever`).
* `bluk_insert` always removes the first agent of the batch from the set, so two answers that race it end
  in a KeyError (`RowEnding`, provided that the session goes on after an insertion that failed), and in Redis it writes all records under the first agent's key
  (`KeyEnding`, `OvertimeWritten`).
* With `max_active_keys` of 1 no key survives a rotation (`SingleActiveKey`).
* A second scan of the file cache repeats the first one exactly if no file is recorded under the name of
  another one (`SecondScan`, `SecondScanRepeats`, `SwappedNames`).
* Exactly two steps make the two indexes of the file manager inconsistent: indexing a download under a path
  that another md5 has, and deleting a file that by now is indexed otherwise than it was found
  (`BreakingSteps`, `ConsistentRuns`).  Neither happens if the files of an md5 always have the same name, made
  of it (`AlwaysConsistent`), and otherwise there are runs to both (`MisnamedBreaks`, `StaleDeleteBreaks`).
* If the info lookup raises, or the downloader is unknown, the entry of the download stays for ever: in every
  run that follows, no scan goes through and no call that waits for the entry, or comes to wait for it,
  returns (`RaisedLeavesOrphan`, `OrphanForever`, `NewCallersHang`).
* The regular expression of an include string has `0-1` where one expects `0-9`, so a key that ends in one of
  the digits 2 to 9 is refused (`ReadsBack`, `CharacterClasses`).
* A filter without any clause removes every agent; `rpc_chioces` does not call it then (`ExcludeFilter`).
* The database update file is fetched only if the application drawn at random has a database to update,
  not if any has (`WholePresent`, `UpdateWithoutFile`).

## Model

| member | source | states |
|---|---|---|
| MetadataCache.GlobalData.Validate | goperation/manager/gdata.py:358-390 | unknown agents raise and change nothing; otherwise exactly the requested agents stay cached, and exactly those with no value, a changed score or an expired one are to be fetched |
| MetadataCache.GlobalData.CollectMissed | goperation/manager/gdata.py:383-390 | the list holds exactly the agents whose cached value may not be used |
| MetadataCache.GlobalData.DropOthers | goperation/manager/gdata.py:374-382 | both dicts lose exactly the agents that were not asked for |
| MetadataCache.GlobalData.Refill | goperation/manager/gdata.py:392-407 | fetched values are stored with the score of the ZRANGE, missing ones are dropped, all others stay; both dicts keep equal keys |
| OnlineMetadata.NextKeeps | goperation/manager/gdata.py:325-451 | every step of flushes, other writers, expiry, and of a reader whose fetch may raise, keeps: versions ordered, scores stamped with what was committed, the cached value of an agent at least as new as its score, if that agent gets no score twice |
| OnlineMetadata.ReachableKeeps | goperation/manager/gdata.py:325-451 | so every state that a run with distinct scores of that agent reaches has that invariant |
| OnlineMetadata.EqualKeys | goperation/manager/gdata.py:358-409 | metadatas and metatimes have equal keys after every run, whatever the scores |
| OnlineMetadata.ReplyFloor | goperation/manager/gdata.py:386-409 | the value returned for the agent is at least what was committed when its score was given |
| OnlineMetadata.ReadIsCommitted | goperation/manager/gdata.py:358-409 | over any steps between ZRANGE and MGET, the result lies within the requested agents, and the value of the agent is not older than what was committed at the ZRANGE |
| OnlineMetadata.FlushCommits | goperation/manager/gdata.py:437-451 | after the ZADD of a flush, and for ever, at least its version is committed |
| OnlineMetadata.NoStaleRead | goperation/manager/gdata.py:358-451 | after any history, a call whose ZRANGE follows a flush's ZADD returns the value of that SET or a later one, if it returns one for the agent, given that this agent gets no score twice |
| OnlineMetadata.FlushThenRead | goperation/manager/gdata.py:358-451 | a read after a flush returns what that wrote if and only if the value cached before, if any, has another score or has expired |
| OnlineMetadata.SecondReadStale | goperation/manager/gdata.py:386-390 | of two flushes of any agent, from any quiet state, the read after the second returns what it wrote if and only if the scores differ or the first value has expired |
| OnlineMetadata.ReadMeaning | goperation/manager/gdata.py:358-372 | a call raises, and changes nothing, exactly if an agent has no score; if its MGET raises it ends with the cache as it was |
| OnlineMetadata.OtherStepsMeaning | goperation/manager/gdata.py:318-356 | other writers of scores, expiring keys and deleted agents touch nothing else |
| OnlineKey.StealingStep | goperation/manager/gdata.py:427-451 | a step takes a live key to another host exactly if it is the plain SET of a flush whose host is no longer in the key |
| OnlineKey.NextKeepsSeen | goperation/manager/gdata.py:411-451 | if no key lapses between a flush's EXEC and its SET, the host a flush saw stays in the key |
| OnlineKey.OwnerKept | goperation/manager/gdata.py:411-451 | in every such run an owner keeps its key as long as it does not lapse |
| OnlineKey.OwnerKeptAlways | goperation/manager/gdata.py:411-451 | the same after any such history from the start |
| OnlineKey.OneWinner | goperation/manager/gdata.py:446-451 | of all flushes that write a key without it lapsing, only one host gets it |
| OnlineKey.CheckMeaning | goperation/manager/gdata.py:416-441 | a flush is refused when it looks exactly if the key is live with another host, and is done exactly if the key holds just its metadata |
| OnlineKey.WriteMeaning | goperation/manager/gdata.py:437-451 | its SET raises exactly if it saw no key and now there is one; otherwise the key holds its metadata, and no other key changes |
| OnlineKey.LosersAreRefused | goperation/manager/gdata.py:416-451 | after any history in which keys stay, a call of a host that does not own the live key raises, both when it looks and when it SETs |
| OnlineKey.ReturningFlushOwns | goperation/manager/gdata.py:411-451 | a call that gets to its ZADD is of the host that owned the key at its SET, and at its look if the key was live; it then returns |
| OnlineKey.LapsedKeyStolen | goperation/manager/gdata.py:416-441 | without that assumption a run steals the key from its new owner |
| LockKeys.NextKeeps | goperation/manager/gdata.py:63-133 | every step keeps: one claimant a key, claimed keys carry the claimant's mark, watched keys are not written |
| LockKeys.LocksExclude | goperation/manager/gdata.py:120-133 | after every run at most one holder a key; a lock key in garbage_keys still carries that process's mark and has no holder |
| LockKeys.MembersExclude | goperation/manager/gdata.py:155-163 | a member lock is granted only when nobody is inside the whole-key lock or will still delete it |
| LockKeys.HolderStays | goperation/manager/gdata.py:234-248 | while a call is inside, no step takes the key away, and only its own leaving ends the lock |
| LockKeys.ReaperFinds | goperation/redis/client.py:97-150 | the reaper's GET always sees the mark and its EXEC always deletes the key |
| LockKeys.TryLockMeaning | goperation/manager/gdata.py:120-133 | an attempt gets inside exactly if the key is not there, and else changes nothing |
| LockKeys.MembersMeaning | goperation/manager/gdata.py:155-163 | members are added and removed exactly unless the key is locked as a whole; the key is there exactly while there are any |
| LockKeys.LateDelete | goperation/manager/gdata.py:63-75 | a deletion that failed is repeated; when its time is up, the key goes to the reaper, or the call tries once itself if its process has stopped |
| LockKeys.ReapMeaning | goperation/redis/client.py:97-105 | the EXEC deletes the key exactly if nobody wrote it since the WATCH; who raises, forgets, or looks again otherwise |
| LockKeys.LookMeaning | goperation/redis/client.py:97-105 | only its own mark makes safe_delete go on |
| LockKeys.WatchMeaning | goperation/redis/client.py:97-105 | WATCH remembers how often the key was written; a failing command changes the key only if it took effect after all |
| LockKeys.WritesAreSeen | goperation/redis/client.py:97-105 | every step that changes a key is noticed by all that watch it |
| LockKeys.ReaperRetries | goperation/redis/client.py:107-136 | a reaper that fails puts the key back while its process runs, and keeps it after the stop |
| LockKeys.FiveTries | goperation/redis/client.py:130-143 | after the stop it keeps the key for four failures and gives it up at the fifth |
| LockKeys.RunningMeaning | goperation/redis/client.py:156-175 | processes start and stop |
| LockKeys.ForgettingSteps | goperation/redis/client.py:107-150 | exactly the failing deletion of a call whose process has stopped, and the fifth failure of a reaper after the stop, leave a lock key that nobody will delete |
| LockKeys.LocksAreRemembered | goperation/manager/gdata.py:63-133 | so in every run without those, every lock key is inside a lock, being deleted, or in some garbage |
| LockKeys.ForgottenForever | goperation/manager/gdata.py:120-163 | a key that is left so stays locked in every run: each attempt spins and every member lock raises |
| LockKeys.ExclusionNeedsCleanDeletes | goperation/manager/gdata.py:63-75 | two calls can be inside one lock if and only if deletes that raised may have taken effect |
| LockKeys.RetryBreaksLock | goperation/manager/gdata.py:66-75 | the run in which a repeated delete removes another process's lock |
| LockKeys.ReaperTakesOwnMark | goperation/redis/client.py:97-105 | after such a delete the reaper removes a later lock if and only if it is of the same process |
| PortAllocator.RpcAgentManager.FillLeftPorts | goperation/manager/rpc/agent/base.py:447-460 | exactly the ports of the ranges are free, or a range below 1024 is refused |
| PortAllocator.RpcAgentManager.InRange | goperation/manager/rpc/agent/base.py:498-504 | a port is accepted exactly if it is in a range |
| PortAllocator.RpcAgentManager.FreezePorts | goperation/manager/rpc/agent/base.py:604-624 | all or nothing: on success exactly one complete pass of picks moves from free to the entity, on failure both are restored exactly; ports stay conserved |
| PortAllocator.RpcAgentManager.Rollback | goperation/manager/rpc/agent/base.py:616-621 | the undo loop restores the free set and the entity's set |
| PortAllocator.UnnamedRequest | goperation/manager/rpc/agent/base.py:610-623 | n unnamed ports are granted exactly if n are free |
| PortAllocator.NamedRequest | goperation/manager/rpc/agent/base.py:610-623 | named ports are granted exactly if they are distinct and all free |
| PortAllocator.MixedRequest | goperation/manager/rpc/agent/base.py:610-623 | a mixed request is granted for every choice exactly if it is feasible and names its ports first |
| PortAllocator.NamesFirstSucceeds | goperation/manager/rpc/agent/base.py:610-623 | with names first, success does not depend on which ports are popped |
| PortAllocator.RpcAgentManager.FreePorts | goperation/manager/rpc/agent/base.py:643-659 | exactly the held ports of the request move back, exactly the rest is returned, ports stay conserved |
| PortAllocator.FreeConserves | goperation/manager/rpc/agent/base.py:650-656 | freeing keeps free, held and lent ports disjoint and complete |
| PortAllocator.FreezeConserves | goperation/manager/rpc/agent/base.py:610-624 | so does allocating |
| PortAllocator.RpcAgentManager.EnterFrozenPorts | goperation/manager/rpc/agent/base.py:626-633 | the whole state after the entry of frozen_ports, with the empty entity that a failure leaves |
| PortAllocator.RpcAgentManager.ExitFrozenPorts | goperation/manager/rpc/agent/base.py:634-641 | the whole state after its exit, and exactly when ports stay conserved |
| PortAllocator.AbortedBodyRestores | goperation/manager/rpc/agent/base.py:626-641 | a failing body that left the maps alone restores everything, and drops an entity that was new |
| PortAllocator.DropConserves | goperation/manager/rpc/agent/base.py:639-640 | dropping an entity conserves the ports if and only if it holds none |
| PortAllocator.LostPort | goperation/manager/rpc/agent/base.py:639-640 | a port of a dropped entity is held by nobody |
| PortAllocator.OverwriteConserves | goperation/manager/rpc/agent/base.py:385-390 | making an entity anew conserves the ports if and only if it held none, which is what the check of _placeholder is for |
| PortAllocator.RpcAgentManager.AddEndpoint | goperation/manager/rpc/agent/base.py:531-534 | a new endpoint has no entities, a known one is left as it is |
| PortAllocator.RpcAgentManager.Placeholder | goperation/manager/rpc/agent/base.py:385-390 | a new entity without ports, or an error that changes nothing |
| PortAllocator.RpcAgentManager.LoadEntity | goperation/manager/rpc/agent/base.py:539-546 | a recorded entity gets exactly the ports of its record, or none with an error; ports stay conserved |
| PortAllocator.FreeSplits | goperation/manager/rpc/agent/base.py:604-624 | two requests one after the other are granted exactly if the request for all of their named ports is |
| PortAllocator.RpcAgentManager.LoadEntities | goperation/manager/rpc/agent/base.py:539-546 | it returns exactly if all ports recorded for the endpoint are named, free and distinct; then each entity has its own, and other endpoints are left alone |
| PortAllocator.RpcAgentManager.PostStart | goperation/manager/rpc/agent/base.py:529-546 | the loading returns exactly if entities are recorded on known endpoints only and all recorded ports are named, free and distinct; then every endpoint of either side is there, each entity has exactly its ports and all others are free; ports stay conserved, also after a failure |
| PortAllocator.RpcAgentManager.ReadLog | goperation/manager/rpc/agent/base.py:873-949 | a port is lent to a reader that started, and given back if it could not be started |
| PortAllocator.RpcAgentManager.ReaderExited | goperation/manager/rpc/agent/base.py:919-948 | the port of a reader that ended is free again |
| EntityLocks.NextKeeps | goperation/manager/rpc/agent/base.py:305-360 | every step of lock and locks, on any endpoints, keeps: semaphores owned by their holders, gates closed exactly by an acquiring thread |
| EntityLocks.ReachableKeeps | goperation/manager/rpc/agent/base.py:305-360 | the same after every run |
| EntityLocks.OneAcquirer | goperation/manager/rpc/agent/base.py:326-360 | at most one locks caller of an endpoint is acquiring |
| EntityLocks.HoldAndWait | goperation/manager/rpc/agent/base.py:326-360 | on one endpoint only that caller can hold a lock while it waits for another |
| EntityLocks.NoWaitCycle | goperation/manager/rpc/agent/base.py:305-360 | so there is no wait cycle of any length |
| EntityLocks.WaitChainEnds | goperation/manager/rpc/agent/base.py:305-360 | and the thread it waits for waits for nobody |
| EntityLocks.NoDeadlock | goperation/manager/rpc/agent/base.py:305-360 | no run on one endpoint with distinct entities reaches a wait cycle |
| EntityLocks.RaisedIsLeave | goperation/manager/rpc/agent/base.py:305-360 | a failing call releases exactly what it acquired |
| EntityLocks.FailureRestores | goperation/manager/rpc/agent/base.py:326-360 | and reopens its own gate, and no other |
| EntityLocks.RaisingSteps | goperation/manager/rpc/agent/base.py:305-360 | a call raises exactly if its time is up at the gate, there is no room, its time is up in the loop, or it times out at a semaphore |
| EntityLocks.TimeOutMeaning | goperation/manager/rpc/agent/base.py:319-324 | a call can time out exactly while it waits for a semaphore |
| EntityLocks.LockIsPatient | goperation/manager/rpc/agent/base.py:306-311 | at a gate that stays closed, lock tests once a second and raises at the first test with less than a second left |
| EntityLocks.LocksIsPatient | goperation/manager/rpc/agent/base.py:327-333 | so does locks, ten times a second |
| EndpointRuns.RunIsExec | goperation/manager/rpc/agent/base.py:305-360 | the runs in which a thread that acquires a free semaphore is not interrupted are among all runs, and are all runs if it always may be |
| EndpointRuns.AloneGoesOn | goperation/manager/rpc/agent/base.py:339-348 | a caller of locks that nobody shares a semaphore with takes all of its own without a break |
| EndpointRuns.RunKeeps | goperation/manager/rpc/agent/base.py:305-360 | so every such run keeps: a caller of locks found room for its entities, and one that still waits left room for one more semaphore unless every acquisition may switch or it was given an entity twice |
| EndpointLimits.GateGuardsOneEndpoint | goperation/manager/rpc/agent/base.py:274-360 | deadlock of any length is possible if and only if two different endpoints with max_lock at least 3 take locks; one of them does with 2 if every acquisition of a free semaphore may switch threads |
| EndpointLimits.LimitGuardsOneEndpoint | goperation/manager/rpc/agent/base.py:274-360 | live semaphores can exceed every max_lock in use if and only if two different endpoints with max_lock at least 3 take locks, or at least 2 if every such acquisition may switch |
| EndpointLimits.LiveWithinLimit | goperation/manager/rpc/agent/base.py:305-360 | if at most one endpoint in use has a max_lock of that size, no run has more live semaphores than the largest max_lock |
| EndpointLimits.OneEndpointWithinLimit | goperation/manager/rpc/agent/base.py:305-360 | with one endpoint in use they never exceed its max_lock |
| EndpointLimits.CommonLimit | goperation/manager/rpc/agent/base.py:274-360 | with one max_lock for all, two endpoints can deadlock from 3 on and exceed it from 3 on, or from 2 on if every such acquisition may switch, and not before |
| Gathering.Gather | goperation/manager/rpc/server/__init__.py:288-316 | the missing agents are those without a record at the last poll, no record stored up to the deadline is missed, it gives up only at the second late turn, and the number of turns is bounded by the seconds to the deadline plus a constant; it sleeps three seconds first if it has more to wait, an interval of a tenth of the time but three to ten seconds in every turn before the finish time, and one second between turns |
| Gathering.GraceOfTwo | goperation/manager/rpc/server/__init__.py:299-312 | a timely record can be lost if and only if the loop gave up at its first late turn |
| Gathering.LastPollIsLate | goperation/manager/rpc/server/__init__.py:308-312 | with a grace of two the last poll is after the deadline |
| Gathering.FewTurns | goperation/manager/rpc/server/__init__.py:300-312 | the bound on the number of turns |
| Gathering.MissingMeaning | goperation/manager/utils/responeutils.py:42-56 | an agent is missing exactly if it has no record yet |
| Gathering.LateMeaning | goperation/manager/rpc/server/__init__.py:308-311 | a turn is late once the whole second of the deadline is over |
| Responses.RecordChanges | goperation/manager/utils/responeutils.py:76-113 | exactly an answer to an overtime record changes a record |
| Responses.RecordsAreFinal | goperation/manager/utils/responeutils.py:59-144 | under any steps a record that is not overtime never changes |
| Responses.RecordsComeFrom | goperation/manager/utils/responeutils.py:59-144 | an agent has a record exactly if it had one, answered, or an overtime record was put under its key |
| Responses.Storage.AgentRespone | goperation/manager/utils/responeutils.py:76-113 | an answer is stored unless there is one that is not overtime, and it is reported accordingly |
| Responses.Storage.BlukInsertRows | goperation/manager/utils/responeutils.py:128-137 | what bluk_insert leaves of the agents and of the records, with answers between any two insertions; an agent without record and answer has its own record with the overtime code |
| Responses.Storage.BlukInsertKeys | goperation/manager/utils/responeutils.py:138-142 | the same for Redis, where all records go under one key; the first agent has its own record with the overtime code |
| Responses.RowEnding | goperation/manager/rpc/server/__init__.py:313-332 | with the database: success exactly if at most one agent was missing and it answered in time; a KeyError exactly if two answered in time |
| Responses.KeyEnding | goperation/manager/rpc/server/__init__.py:313-332 | with Redis: the same for success; a KeyError exactly if three were missing, or two of which the first answered in time |
| Responses.SuccessIsSound | goperation/manager/rpc/server/__init__.py:326-331 | the success code implies that every waited agent answered itself, for both storages |
| Responses.OvertimeWritten | goperation/manager/utils/responeutils.py:124-142 | who has a record after bluk_insert, exactly |
| Responses.RowsAreMarked | goperation/manager/rpc/server/__init__.py:313-325 | with the database, exactly the record of the agent with the overtime code, if it did not answer |
| Responses.KeyIsMarked | goperation/manager/rpc/server/__init__.py:313-325 | in Redis the same for the first agent |
| Responses.LateAnswerStored | goperation/manager/utils/responeutils.py:92-113 | the next answer of such an agent is accepted and stored, and is final |
| FernetKeys.KeyRepository.InitializeKeyRepository | goperation/manager/utils/fernet.py:93-131 | an existing repository is left alone, a new one gets a staged key and is rotated once |
| FernetKeys.KeyRepository.RotateKeys | goperation/manager/utils/fernet.py:134-180 | the staged key becomes the primary under the next number, a new one is staged, and the largest numbers within the limit are kept; nothing changes on an error |
| FernetKeys.KeyRepository.PurgeExcess | goperation/manager/utils/fernet.py:175-180 | the loop removes the smallest numbers |
| FernetKeys.KeyRepository.LoadKeys | goperation/manager/utils/fernet.py:183-217 | the contents by descending number |
| FernetKeys.LoadedIsEveryFile | goperation/manager/utils/fernet.py:183-217 | every key file is loaded, the primary first |
| FernetKeys.LargestIsUnique | goperation/manager/utils/fernet.py:175-180 | what is kept does not depend on how it is purged |
| FernetKeys.RotationsKeepWindow | goperation/manager/utils/fernet.py:134-180 | after any number of rotations the ids are 0 and a contiguous block that ends at the primary, holding the last generated keys in order |
| FernetKeys.ActiveKeyCount | goperation/manager/utils/fernet.py:134-180 | never more than max_active_keys files, and exactly that many after enough rotations |
| FernetKeys.WindowKeys | goperation/manager/utils/fernet.py:134-217 | the keys held are exactly the last generated ones |
| FernetKeys.CrossServerWindow | goperation/manager/utils/fernet.py:156-217 | a server at rotation n holds the primary of rotation m exactly if n - (max_active_keys - 2) <= m <= n + 1 |
| FernetKeys.RotationWindow | goperation/manager/utils/fernet.py:225-231 | with days + 2 active keys a primary is loaded for exactly that many more rotations |
| FernetKeys.SingleActiveKey | goperation/manager/utils/fernet.py:134-180 | a single active key leaves key 0 only |
| FernetTokens.PaddingRoundTrip | goperation/manager/utils/fernet.py:240-246 | stripping and restoring the padding gives back the base64url text of any byte string, of section 5 and section 3.2 of RFC 4648 |
| FernetTokens.DecodeEncode | goperation/manager/utils/fernet.py:248-255 | decoding inverts the encoding |
| FernetTokens.TestVectors | goperation/manager/utils/fernet.py:240-255 | the digits and groups are those of RFC 4648, with the url-safe alphabet |
| FernetTokens.PaddedVectors | goperation/manager/utils/fernet.py:240-255 | the same with padding |
| FernetTokens.DecodesWellFormed | goperation/manager/utils/fernet.py:248-255 | exactly text of whole groups of the alphabet with at most two padding characters at its end is decoded |
| FernetTokens.BigEndianToBytes | goperation/manager/utils/fernet.py:248-255 | reading a big-endian number back |
| FernetTokens.CreationTimeOfToken | goperation/manager/utils/fernet.py:248-255 | creation_time of the restored text is the big-endian number in bytes 1 to 8, or an error for a token that is too short |
| FernetTokens.DecryptSealed | goperation/manager/utils/fernet.py:271-298 | several keys decrypt exactly what one of them sealed |
| FernetTokens.UnpackMeaning | goperation/manager/utils/fernet.py:284-298 | any text is refused exactly if it is not well formed with its padding restored or no key opens it; else the first key that does gives the payload, and bytes 1 to 8 the time |
| FernetTokens.TokenAcrossServers | goperation/manager/utils/fernet.py:257-298 | a token minted after rotation m is unpacked after rotation n, payload and time, exactly within the window |
| FileScan.FileManager.Scanning | goperation/filemanager/__init__.py:73-149 | a strict scan returns exactly if names are valid and single, extensions agree and no md5 comes twice; it then leaves the reconciled state, and consistent indexes in any case; which errors it raises when |
| FileScan.FileManager.ListFiles | goperation/filemanager/__init__.py:83-102 | every file is noted under its name, or a bad or double name raises |
| FileScan.FileManager.MatchRecords | goperation/filemanager/__init__.py:104-128 | records, indexes, leftovers and files to remove after the loop over the records |
| FileScan.FileManager.AddRecords | goperation/filemanager/__init__.py:130-145 | leftovers are recorded and indexed under the digest of their contents, or the md5 is taken and the scan cannot succeed |
| FileScan.FileManager.RemoveFiles | goperation/filemanager/__init__.py:146-149 | exactly the files that do not match are removed, or one is not there |
| FileScan.FileManager.Reconcile | goperation/filemanager/__init__.py:104-149 | the three loops together |
| FileScan.SecondScan | goperation/filemanager/__init__.py:73-149 | the state that a scan leaves is one that a second scan returns on and leaves unchanged, if and only if no file was to be recorded under the name of another |
| FileScan.ScannedIsUnique | goperation/filemanager/__init__.py:73-149 | disk and records determine what a scan leaves: files, records and both maps |
| FileScan.SecondScanRepeats | goperation/filemanager/__init__.py:73-149 | if a second scan returns, it leaves the files, records and maps of the first if and only if no file was to be recorded under the name of another |
| FileScan.SwappedNames | goperation/filemanager/__init__.py:130-145 | two files named after each other's contents are the counterexample |
| Downloads.NextKeeps | goperation/filemanager/__init__.py:189-328 | every step keeps: one worker or lookup an entry, pending events are those of entries |
| Downloads.SingleFlight | goperation/filemanager/__init__.py:189-307 | after every run no event was sent twice, an md5 has at most one worker, and has one or a lookup exactly while it has an entry |
| Downloads.SentWhenRemoved | goperation/filemanager/__init__.py:229-304 | an event is sent in exactly the step that removes its entry |
| Downloads.SuccessIsVerified | goperation/filemanager/__init__.py:268-300 | success is sent only when md5 and size were found right and the md5 is indexed with that size |
| Downloads.FinishMeaning | goperation/filemanager/__init__.py:268-304 | what the end of a download does to directory, record and indexes, and whether it sends success, in each of its five cases |
| Downloads.GetMeaning | goperation/filemanager/__init__.py:189-205 | a call fails at once exactly if it may not download and the file is not indexed or not on disk, and goes on to delete it in the second case |
| Downloads.EnterMeaning | goperation/filemanager/__init__.py:206-228 | with the lock a path raises, an md5 waits for its entry, or makes one |
| Downloads.LookMeaning | goperation/filemanager/__init__.py:219-228 | the lookup releases the lock and starts a worker, or, for another md5, removes the entry and sends a failure; if it raises the entry is left |
| Downloads.WorkerMeaning | goperation/filemanager/__init__.py:230-267 | when a worker loads, finds its file there already, fails, or dies of an unknown downloader, and what each does |
| Downloads.ReturnMeaning | goperation/filemanager/__init__.py:213-214 | a waiting call returns exactly if its event was sent with success and the file is indexed and on disk; otherwise it raises |
| Downloads.ReturnsVerified | goperation/filemanager/__init__.py:189-307 | in every run such a return follows the verified end of the download of its own event and md5 |
| Downloads.RaisedLeavesOrphan | goperation/filemanager/__init__.py:219-227 | a lookup that raises leaves an entry that nobody works on |
| Downloads.OrphanStays | goperation/filemanager/__init__.py:189-328 | no step removes such an entry or sends its event, and whoever waits for it goes on waiting |
| Downloads.OrphanForever | goperation/filemanager/__init__.py:189-328 | so after every run from there it is still there, scans raise or wait for the lock, and no call that waits for it can return |
| Downloads.OrphanCatches | goperation/filemanager/__init__.py:206-217 | a call for that md5 that gets the lock waits for the same event |
| Downloads.NewCallersHang | goperation/filemanager/__init__.py:189-328 | so in every run a call that comes later never returns, either |
| Downloads.IndexingKeeps | goperation/filemanager/__init__.py:280-292 | indexing keeps the two indexes consistent exactly if the path is not indexed |
| Downloads.DeletingKeeps | goperation/filemanager/__init__.py:309-328 | deleting keeps them so exactly if the file is indexed as it was found, or not at all |
| Downloads.DeleteMeaning | goperation/filemanager/__init__.py:309-328 | delete finds its file first, and with the lock removes file, record and both index entries |
| Downloads.ScanMeaning | goperation/filemanager/__init__.py:73-82 | a scan raises exactly while something is being downloaded |
| Downloads.BreakingSteps | goperation/filemanager/__init__.py:189-328 | of all steps exactly these make consistent indexes inconsistent: a verified download of an md5 without record and index whose path is indexed, and the deletion of a file indexed otherwise than it was found |
| Downloads.ConsistentRuns | goperation/filemanager/__init__.py:189-328 | a run keeps them consistent throughout if and only if none of its steps is one of those two |
| Downloads.IndexesKept | goperation/filemanager/__init__.py:189-328 | if every md5 has one file name, every step keeps them consistent |
| Downloads.IndexesConsistent | goperation/filemanager/__init__.py:189-328 | the same over every run |
| Downloads.AlwaysConsistent | goperation/filemanager/__init__.py:189-328 | so they are after every such run that starts with nothing |
| Downloads.MisnamedBreaks | goperation/filemanager/__init__.py:130-145 | a misnamed file that is lost and then downloaded breaks them |
| Downloads.StaleDeleteBreaks | goperation/filemanager/__init__.py:309-328 | a second deletion of a misnamed file that was deleted and downloaded again breaks them, too |
| AgentChoice.IterValue | goperation/manager/rpc/server/__init__.py:56-65 | the loop follows the key into nested dicts: found, not found, or raised |
| AgentChoice.FindMeaning | goperation/manager/rpc/server/__init__.py:56-65 | it finds v exactly if following the parts through nested dicts leads to v, and raises exactly at a value on the way that is no dict |
| Includes.SplitJoins | goperation/manager/rpc/server/__init__.py:57 | splitting a key at its dots leaves no dot, and joining gives the key back |
| Includes.SplitOfJoin | goperation/manager/rpc/server/__init__.py:57 | parts without dots are what splitting their join gives |
| Includes.Include | goperation/manager/rpc/server/utils.py:19-35 | it raises for the first string that it cannot read, and otherwise groups the clauses by key, in their order |
| Includes.SameReading | goperation/manager/rpc/server/utils.py:16-31 | whichever groups the regular expression prefers, every match of a string is read in the same way |
| Includes.ReadingFails | goperation/manager/rpc/server/utils.py:23-31 | a match is a KeyError exactly without one of the nine operators, and else an AttributeError exactly without a value |
| Includes.ReadsBack | goperation/manager/rpc/server/utils.py:16-31 | key, operator and value are read back from their concatenation if and only if the key is missing or ends in a letter, 0 or 1; otherwise the string is refused |
| Includes.CharacterClasses | goperation/manager/rpc/server/utils.py:16 | the characters of the classes, and the eleven of a key that cannot be its last |
| Includes.NumbersAreRead | goperation/manager/rpc/server/utils.py:30-31 | a value of digits is the number it is the text of, any other value is text |
| AgentChoice.Included | goperation/manager/rpc/server/__init__.py:416-436 | for one agent the first clause that does not hold decides, and no clause rejects |
| AgentChoice.TriedMeaning | goperation/manager/rpc/server/__init__.py:416-436 | whatever the order of the keys, an agent passes exactly if all clauses hold |
| AgentChoice.ExcludeFilter | goperation/manager/rpc/server/__init__.py:410-439 | it raises exactly if a string cannot be read or a clause raises for some agent, and otherwise leaves the agents for which all clauses hold, in their order, whatever the order of the keys |
| AgentChoice.OneInclude | goperation/manager/rpc/server/__init__.py:410-439 | with one include, an agent is kept exactly if its key leads to a value that is in relation to the written one, in this order of operands, and raises exactly if the way breaks or the comparison raises |
| AgentChoice.OnePartInclude | goperation/manager/rpc/server/__init__.py:410-439 | with a key of one part, exactly if it reports that key and the value is in relation to the written one |
| AgentChoice.RemoveAll | goperation/manager/rpc/server/__init__.py:437-439 | removing the rejected agents in any order leaves the others in theirs |
| AgentChoice.SortBy | goperation/manager/rpc/server/__init__.py:408 | sorting is a permutation |
| AgentChoice.SortBySorted | goperation/manager/rpc/server/__init__.py:408 | and is sorted lexicographically |
| AgentChoice.SortByStable | goperation/manager/rpc/server/__init__.py:408 | and keeps the order of agents with equal keys |
| AgentChoice.BucketMonotone | goperation/manager/rpc/server/__init__.py:400-403 | floor division by a positive or negative weight never turns better into worse |
| AgentChoice.WeightMeaning | goperation/manager/rpc/server/__init__.py:392-406 | the sort key holds the bucket of every weighter |
| AgentChoice.WeightsAreBuckets | goperation/manager/rpc/server/__init__.py:392-406 | an agent has a sort key exactly if every key leads to a number, and it holds the quotients rounded down, or the numbers themselves |
| AgentChoice.BucketIsUnique | goperation/manager/rpc/server/__init__.py:400-403 | so that these are determined |
| AgentChoice.WeightErrors | goperation/manager/rpc/server/__init__.py:392-406 | the first weighter without a number decides which error there is |
| AgentChoice.WeightOf | goperation/manager/rpc/server/__init__.py:392-406 | the loop computes that key, or the first error |
| AgentChoice.SortByWeigher | goperation/manager/rpc/server/__init__.py:377-408 | it returns exactly if all agents weigh, and then sorts by the weights |
| AgentChoice.NeverAfterBeaten | goperation/manager/rpc/server/__init__.py:392-408 | an agent as good as another for every weighter comes after it only if their buckets are equal and it did before |
| AgentChoice.RecentOnes | goperation/manager/rpc/server/__init__.py:448-455 | the agents of the query that reported within thirty and a half minutes, in its order |
| AgentChoice.RpcChioces | goperation/manager/rpc/server/__init__.py:441-482 | when it returns, and that the result is the remaining agents sorted by weights, or by entity counts |
| AgentChoice.FewestFirst | goperation/manager/rpc/server/__init__.py:470-478 | without weighters agents with fewer entities come first, and of equal ones those that came first in the query |
| AgentChoice.RemainingMeaning | goperation/manager/rpc/server/__init__.py:448-467 | exactly the agents remain that reported a time within the last 1830 seconds and satisfy every clause, each once |
| ConnectionPool.NextKeeps | goperation/redis/connection.py:46-74 | every step keeps the counter exact, and under the lock the bound |
| ConnectionPool.CounterIsExact | goperation/redis/connection.py:46-74 | in every run the counter is available plus in use |
| ConnectionPool.LockBoundsPool | goperation/redis/connection.py:46-67 | the pool can exceed its bound if and only if connections are made without the lock |
| ConnectionPool.GetMeaning | goperation/redis/connection.py:54-67 | the longest idle connection, or a new one, or too many |
| ConnectionPool.MadeMeaning | goperation/redis/connection.py:46-52 | a new connection is in use, or the pool is as before |
| ConnectionPool.GivenBackMeaning | goperation/redis/connection.py:69-74 | exactly connections in use are given back or kicked out; then the last idle one, or gone |
| ConnectionPool.KickedOutStays | goperation/redis/connection.py:69-74 | a connection that was kicked out is not seen again in any run that does not make it anew |
| ConnectionPool.ConnectionPoolEx.BeginGet | goperation/redis/connection.py:54-67 | the connection idle longest, or too many, or one is to be made |
| ConnectionPool.ConnectionPoolEx.EndGet | goperation/redis/connection.py:46-52 | the counter grows only once a connection is made |
| ConnectionPool.ConnectionPoolEx.KickOut | goperation/redis/connection.py:69-74 | a connection in use leaves the pool |
| ConnectionPool.ConnectionPoolEx.HeartBeats | goperation/redis/client.py:64-95 | n heartbeats look at the n connections idle longest, and rotate the queue |
| ConnectionPool.RoundVisitsEach | goperation/redis/client.py:64-95 | a whole round looks at every idle connection once and leaves the queue as it was |
| Flows.RunTasks | goperation/manager/rpc/agent/application/taskflow/pipe.py:6-7 | every run does each task of a flow as often as it is in it |
| Flows.MustExact | goperation/manager/rpc/agent/application/taskflow/pipe.py:6-7 | one task precedes another in every run of a flow exactly if its structure demands it |
| Flows.PruneKeepsRuns | goperation/manager/rpc/agent/application/taskflow/pipe.py:77-80 | leaving out empty sub-flows does not change the set of runs |
| Flows.LinearOrder | goperation/manager/rpc/agent/application/taskflow/pipe.py:44-90 | a linear flow orders tasks by their parts |
| Flows.UnorderedOrder | goperation/manager/rpc/agent/application/taskflow/pipe.py:64-74 | an unordered flow orders only tasks of one part |
| UpgradeFlow.DatabaseFlow | goperation/manager/rpc/agent/application/taskflow/database.py:347-361 | create, backup and update of one database as far as there are any; a rollback without a backup raises |
| UpgradeFlow.MysqlFlowFactory | goperation/manager/rpc/agent/application/taskflow/database.py:337-371 | the unordered flow of all databases without the empty ones, or None |
| UpgradeFlow.EntityFactory | goperation/manager/rpc/agent/application/taskflow/pipe.py:30-93 | it raises exactly without a needed file or backup, and otherwise builds the intended flow without empty parts |
| UpgradeFlow.FlowFactory | goperation/manager/rpc/agent/application/taskflow/pipe.py:96-166 | it raises exactly without applications, for a file of the wrong type, with files in the store or for a bad application, and otherwise builds the intended flow without empty parts; the error is that of the first check, or of the first bad application |
| UpgradeFlow.AppOkMeaning | goperation/manager/rpc/agent/application/taskflow/pipe.py:46-71 | an application is refused exactly without a file to create or upgrade it, or for a rollback without a backup |
| UpgradeFlow.HasUpdateMeaning | goperation/manager/rpc/agent/application/taskflow/pipe.py:146-150 | the update file is for databases that have an update |
| UpgradeFlow.ReboundMeaning | goperation/manager/rpc/agent/application/taskflow/pipe.py:134-150 | the timeout is put into the store if it is missing, and nothing else changes |
| UpgradeFlow.UpgradeOrder | goperation/manager/rpc/agent/application/taskflow/pipe.py:30-166 | of two tasks of the built flow one precedes the other in every run exactly if: it is a prepare task and the other is not, it is of an earlier stage of the same entity, or of an earlier step of the same database |
| UpgradeFlow.UpgradeRuns | goperation/manager/rpc/agent/application/taskflow/pipe.py:30-166 | every run does exactly the intended tasks, each once |
| UpgradeFlow.WholePresent | goperation/manager/rpc/agent/application/taskflow/pipe.py:131-164 | which tasks those are, for any number of applications and databases |
| UpgradeFlow.UpdateWithoutFile | goperation/manager/rpc/agent/application/taskflow/pipe.py:131-164 | if the one drawn of two applications has no update, every run updates the database of the other without having fetched the file |

## Left out

- MetadataCache.GlobalData.Refill: a value in Redis that is not JSON, which would raise between the updates of the two dicts and leave their keys unequal, is not modelled; the flushes write JSON only.
- OnlineMetadata.EqualKeys: the same value is left out here.
- OnlineMetadata.NoStaleRead: one reader a process; a second call of agents_metadata in the same process between the ZRANGE and the MGET of the first is not modelled, nor that the returned dict is the cache itself.
- OnlineKey.OwnerKept: the lapse of a key is a step of the environment; the restored TTL after a refused flush is not modelled.
- LockKeys.LocksExclude: `flush_all_agents` also puts the score set, which has no mark, into `garbage_keys`, where the reaper forgets it; only lock keys are modelled.  The mutual exclusion of two member locks in `_lock_agents` and `_lock_entitys` is not claimed; SADD and SREM are steps of the environment, and the expiring keys of `_lock_autorelase` are not modelled.
- PortAllocator.RpcAgentManager.ReadLog: starting, watching and killing the reader process are reduced to whether it started and that it ended.
- PortAllocator.RpcAgentManager.LoadEntity: the server's record names an entity once, and removing endpoints on the server is not modelled.
- EntityLocks.NextKeeps: the semaphores of simpleutil are not part of this model; whether acquiring a free one may switch threads is a parameter of the results that depend on it.  A green thread that is killed inside `lock` or `locks` from outside is not modelled; a call of one thread is not nested in another of the same thread.
- Gathering.Gather: records persist while the loop runs; the expiry of Redis records is not modelled.
- Responses.RowEnding: what a failed insertion does to the enclosing database transaction is not modelled; an answer is atomic, also in Redis where it takes up to three commands.
- FernetKeys.KeyRepository.RotateKeys: file owners and permissions, directories, and file names that are negative, not canonical or not numbers are not modelled.
- FernetTokens.DecodesWellFormed: text with other characters is refused here, while the base64 library, which is not part of this model, may skip them.
- FernetTokens.TokenAcrossServers: encryption and authentication are an abstract cipher that opens exactly what the same key sealed, and the packing of the payload is abstract.
- FileScan.FileManager.Scanning: only `strict=True`; directories among the files are not modelled, and an md5 is a number.
- Downloads.NextKeeps: `stop` is not modelled, nor a partly written file during a download; failures to remove a file are ignored as the code does.
- AgentChoice.ExcludeFilter: what the operators do is a parameter; it may be anything.
- AgentChoice.WeightOf: a weight over a value that is not an integer is an error here, while Python 2 may compare or divide it.
- AgentChoice.RecentOnes: the time that an agent reported is an integer, as `rpc_changesource` writes it; a time that is not is dropped here.
- AgentChoice.RpcChioces: the query for entity counts is a list of rows; its `group_by` is discarded by the code, so what it returns is left open.
- ConnectionPool.ConnectionPoolEx.Release: `release` is inherited from redis-py, which is not part of this model; it moves a connection from in use to the end of the available ones.  Forks (`_checkpid`) and the PING itself are not modelled.
- UpgradeFlow.UpgradeOrder: retries, reverts and the flow engine are not modelled; an entity's task runs its own flow as a part of the whole, and only successful runs are considered.
- Agent deletion across the HTTP controller and the agent, the scheduler agent, HTTP client and controllers, configuration, command-line tools, websocket servers, upgrades by package and performance reports are plumbing and not modelled.
