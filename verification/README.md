# Verified model of the FreeCompute backend engines

FreeCompute's gateway, scheduler and host agent hold a number of small engines with real invariants. This project models
them in Dafny and proves what they are for.

- **Agent tunnel pool** (`AgentPool`, `AgentTunnelProtocol`, `AgentTunnelInvariant`, `AgentTunnelProperties`,
  `AgentTunnelTakes`): the maps behind the mutex as a class, and the interleaving of every critical section, channel
  operation, probe and context expiry as a step system over any number of calls.
- **Galaxy scheduler** (`HostManager`, `Ranker`, `GalaxyScheduler`, `GalaxyItems`): greedy allocation with real-valued
  scores, live allocations, expiry and per-host counters.
- **Session scheduler** (`SessionScheduler`) and the **indexed queue** (`PriorityQueue`), both over `ContainerHeap`, the
  standard binary heap of `container/heap` with items that know their place.
- **H.264 path** (`AnnexB`, `AnnexBStreams`, `Rtp`, `MediaStream`, `VideoPath`): splitting, packetising, batching,
  the gateway's deframing loop, and a receiver that follows RFC 6184.
- **WebSocket codec** (`WebSocket`, `WebSocketBridge`): frames, unmasking and reassembly of RFC 6455.
- **Caches, buffers and tables**: `ResponseCache`, `ResponseCacheRecency`, `ProxyCache`, `AudioBuffer`, `HostAllocator`,
  `RateLimit`, `RateLimitDecisions`, `Signaling`.

Objects that the program updates in place are classes whose methods are tied to functions on values; the properties are
lemmas about those functions and about runs of operations. `float64` is `real`, time is a parameter, generated IDs and
channels are fresh numbers, and integers are unbounded except where a width matters: sequence numbers and timestamps of
RTP, lengths on the wire, the gateway's 64-bit counters and the cache's size limit wrap as they do in the program.

Where the code and its surroundings disagree, the model follows the code:

- `parseNALUnits` is called once per read, but drops the carried unit's start code, so what it emits depends on how reads
  fall (`AnnexBStreams.ChunkingMattersExactly`, `AnnexBStreams.TwoReadsLoseAUnit`).
- The scheduler returns before `cleanupExpired` when no host is available, so full hosts keep expired allocations
  (`GalaxyScheduler.ExpiryNeedsAnAvailableHost`, `GalaxyScheduler.ExpiredAllocationLingers`).
- `lruCache.add` drops a key without its entry (`ProxyCaching.OrphansAppearExactly`, `ProxyCaching.OrphansAreReached`).
- The rate limiter's bound and the transparency of its sweep need burst <= 3600 rps
  (`RateLimit.ForgettingIsSafeExactly`); the server's wiring meets it.
- `ServeCached` reads an entry in one locked region and acts on it in another, so an expired entry can cost the key a
  fresh one that came in between (`ProxyCaching.SettledIsAccounted`, `ProxyCaching.NewEntryIsLost`).
- A take whose context expires can strand a connection that was already bound to it
  (`AgentTunnelProperties.LeaveStrandsExactlyWhenBound`, `AgentTunnelProperties.RaceStrands`).
- The indexed queue does not refuse an ID that is already queued; the older item then stays in the heap without being
  filed (`IndexedQueue.PriorityQueue.Enqueue`, `IndexedQueue.SameIdTwice`).

`dafny verify dfyconfig.toml` checks the whole project.

## Model

| member | source | states |
|---|---|---|
| `AgentTunnels.AgentPool.Add` | apps/gateway/internal/tunnel/agent_pool.go:50-67 | The locked part of add: with a waiter registered for the route, one waiter is taken out and nothing is parked; otherwise the connection goes to the back of the route's idle list. No other route changes. |
| `AgentTunnels.AgentPool.Take` | apps/gateway/internal/tunnel/agent_pool.go:81-105 | The locked part of take: the head of a non-empty idle list leaves it; otherwise a fresh waiter is registered. No other route changes. |
| `AgentTunnels.AgentPool.RemoveIdle` | apps/gateway/internal/tunnel/agent_pool.go:126-144 | The target leaves the idle list if it is still there, the others keep their order; the result tells which. |
| `AgentTunnels.AgentPool.RemoveWaiter` | apps/gateway/internal/tunnel/agent_pool.go:146-158 | The waiter is no longer registered, and nothing else changes. |
| `AgentTunnelInvariant.StepKeepsInv` | apps/gateway/internal/tunnel/agent_pool.go:43-158 | Every atomic step of add, take, the cancel goroutine, context expiry and the channel operations keeps the invariant that locates each connection and gives each waiter channel its phase. |
| `AgentTunnelProperties.ExactlyOnePlace` | apps/gateway/internal/tunnel/agent_pool.go:43-158 | Over every interleaving, each connection handed to add is in exactly one place: idle, bound to one waiter, in its slot, held by one take, taken, found dead, or reaped. |
| `AgentTunnelProperties.FinalForever` | apps/gateway/internal/tunnel/agent_pool.go:87-123 | Taken, found dead and reaped are never left. |
| `AgentTunnelProperties.TakenOnceAndKept` | apps/gateway/internal/tunnel/agent_pool.go:69-123 | A connection that a take returned is returned by no other take and is closed neither by the cancel goroutine nor as dead, before or after. |
| `AgentTunnelProperties.WakeupsAreSound` | apps/gateway/internal/tunnel/agent_pool.go:50-67 | A route never has both an idle connection and a registered waiter; every send finds its slot empty and open, so it never blocks; no channel is closed twice; a slot holds at most one connection, and its channel is closed exactly when the add that filled it has returned; no select waits on a channel that is closed and empty. |
| `AgentTunnelProperties.WaitingIsServed` | apps/gateway/internal/tunnel/agent_pool.go:97-120 | A take in its select is registered, or exactly one connection is on its way to it: no lost wakeup, no double delivery. |
| `AgentTunnelProperties.OnlyTheRaceStrands` | apps/gateway/internal/tunnel/agent_pool.go:119-121 | Only one thing strands a connection: the receiver's context expired after an add had already bound the connection to its channel. |
| `AgentTunnelProperties.LeaveStrandsExactlyWhenBound` | apps/gateway/internal/tunnel/agent_pool.go:119-158 | An expired take strands a connection if and only if its channel was no longer registered, and then exactly the one on its way. |
| `AgentTunnelProperties.StrandedForever` | apps/gateway/internal/tunnel/agent_pool.go:50-67 | A stranded connection stays stranded in every later state: no take ever returns it, and neither a probe nor its cancel goroutine ever closes it. |
| `AgentTunnelProperties.RaceStrands` | apps/gateway/internal/tunnel/agent_pool.go:50-67 | The race is reached: a take registers, an add binds its connection to that channel, the context expires and the take leaves, in five steps from the empty pool; the connection is then stranded. |
| `AgentTunnelProperties.OrderPersists` | apps/gateway/internal/tunnel/agent_pool.go:68-86 | Two connections that stay idle keep their order in the route's list. |
| `AgentTunnelProperties.PopsAreFifo` | apps/gateway/internal/tunnel/agent_pool.go:81-86 | Idle connections leave first in, first out: a popped connection leaves none that was ever ahead of it behind. |
| `AgentTunnelProperties.ArrivalsQueueUp` | apps/gateway/internal/tunnel/agent_pool.go:60-66 | A connection that comes in while another is idle on its route never gets ahead of it. |
| `AgentTunnelTakes.GivesUpOnlyExpired` | apps/gateway/internal/tunnel/agent_pool.go:97-123 | Over every run, a take that ends without a connection had its own context expire before; it never returns nil. |
| `AgentTunnelTakes.TakenOnOwnRoute` | apps/gateway/internal/tunnel/agent_pool.go:50-123 | A take returns only a connection that was added for the route it asked for. |
| `AgentTunnelTakes.TakeSkipsTheDead` | apps/gateway/internal/tunnel/agent_pool.go:81-95 | A take that nobody interrupts returns the first live connection of its route's list and closes exactly the dead ones before it; if none is live it closes them all and waits. |
| `AgentTunnelTakes.TakeRunsAlone` | apps/gateway/internal/tunnel/agent_pool.go:73-123 | From every state with a take at the top of its loop, and for any verdicts of the probes, that take alone gets to its end in such steps. |
| `AgentTunnelTakes.AddIsAStep` | apps/gateway/internal/tunnel/agent_pool.go:50-67 | The locked part of add is the step AddDeliver or the step AddPark of the interleaving. |
| `AgentTunnelTakes.TakeIsAStep` | apps/gateway/internal/tunnel/agent_pool.go:81-105 | The locked part of one round of take is the step Pop or the step Register of the interleaving. |
| `AgentTunnelTakes.RemoveIdleIsAStep` | apps/gateway/internal/tunnel/agent_pool.go:126-144 | RemoveIdle, as the cancel goroutine calls it, is that goroutine's first step, and its result decides the next. |
| `AgentTunnelTakes.RemoveWaiterIsAStep` | apps/gateway/internal/tunnel/agent_pool.go:146-158 | RemoveWaiter, as an expired take calls it, is the step by which that take leaves. |
| `HostManager.Host.Beat` | apps/scheduler/internal/host/manager.go:59-100 | A heartbeat sets online and the time, lets capacities only shrink and only to values in range, and leaves the allocation counters alone. |
| `HostManager.BeatenOnFields` | apps/scheduler/internal/host/manager.go:67-97 | A capacity is only lowered, only to what was reported, and is so whenever that is in range; uptime and latency are taken over when reported; nothing else changes. |
| `HostManager.Manager.Register` | apps/scheduler/internal/host/manager.go:49-57 | The host is filed under its ID, online, with the time of registration. |
| `HostManager.Manager.Heartbeat` | apps/scheduler/internal/host/manager.go:59-100 | Only the named host changes, as Beat has it; an unknown ID changes nothing. |
| `HostManager.Manager.MarkOffline` | apps/scheduler/internal/host/manager.go:165-173 | Only the online flag of the named host changes. |
| `HostManager.Manager.GetAvailable` | apps/scheduler/internal/host/manager.go:108-131 | Exactly the hosts that are online, were heard of in the last thirty seconds, and have both a core and a gigabyte left, each once. |
| `HostManager.Manager.Allocate` | apps/scheduler/internal/host/manager.go:133-151 | True exactly when the host is known and has room; then its counters grow by the demand, else nothing changes. |
| `HostManager.Manager.Release` | apps/scheduler/internal/host/manager.go:153-163 | The counters of a known host shrink by the demand, but not below zero; nothing else changes. |
| `Ranker.ScoreHost` | apps/scheduler/internal/scheduler/ranker.go:36-85 | A score is never negative, and positive only for a host with the cores, the memory and, if one is needed, the GPU memory that the demand asks for. |
| `Ranker.StaticScoreIs` | apps/scheduler/internal/scheduler/ranker.go:50-78 | The static part, in 360ths: 100 points, 0.15 for each millisecond below 100 less 30 beyond the budget, a 72nd for each hour up to 720, 15 for GPU memory. |
| `Ranker.ScoreIs` | apps/scheduler/internal/scheduler/ranker.go:36-85 | Conversely, a host that has them scores the static part less 20 times each of three shares, or zero if that is negative: of its free cores and of its free memory that the demand takes, and of its cores given away. |
| `Ranker.ScoreFallsWithLoad` | apps/scheduler/internal/scheduler/ranker.go:36-85 | More allocated CPU or RAM on a host never raises its score, although the score contains quotients of both. |
| `Ranker.SortByScore` | apps/scheduler/internal/scheduler/ranker.go:24-26 | The ranked hosts, rearranged so that scores do not increase. |
| `Ranker.RankHosts` | apps/scheduler/internal/scheduler/ranker.go:15-34 | Exactly the hosts with a positive score, each as often as it was given, in non-increasing order of score. |
| `GalaxyScheduler.WorkConservation` | apps/scheduler/internal/scheduler/scheduler.go:117-145 | When the allocation loop ends, an item still queued scores zero on every available host, with the loads as they are then. |
| `GalaxyScheduler.PlacedOnBest` | apps/scheduler/internal/scheduler/scheduler.go:117-145 | An item that the loop placed went to a host of maximal score at its turn. |
| `GalaxyItems.RoundOnFields` | apps/scheduler/internal/scheduler/scheduler.go:120-144 | A round that changes anything gives the item's own cores and memory on one available host, files them under its ID, user and expiry, marks the item, and leaves all else. |
| `GalaxyItems.PlacedWhereItFits` | apps/scheduler/internal/scheduler/scheduler.go:117-145 | An item that the loop placed went to a host with room for its demand at its turn, and with the GPU memory it asks for if it needs a GPU. |
| `GalaxyScheduler.HopelessStaysHopeless` | apps/scheduler/internal/scheduler/scheduler.go:117-145 | A demand that no host can meet at some round is met by none later in the loop. |
| `GalaxyScheduler.BestHostHasRoom` | apps/scheduler/internal/scheduler/scheduler.go:128-134 | A host that scores has room, so the ignored result of Allocate is always true. |
| `GalaxyScheduler.ReleaseIsExact` | apps/scheduler/internal/scheduler/scheduler.go:150-159 | A live allocation never exceeds its host's counters, so the clamp at zero in Release never fires. |
| `GalaxyScheduler.BooksBalance` | apps/scheduler/internal/scheduler/scheduler.go:103-159 | Over every history of enqueues, dequeues, cycles, heartbeats and first registrations with zero counters: a host's allocated CPU and RAM are the sums over its live allocations, and each live allocation belongs to an item still in the queue. |
| `GalaxyScheduler.CapacityHoldsExactly` | apps/scheduler/internal/scheduler/scheduler.go:103-159 | Over every history, allocated CPU and RAM stay within every host's capacity if and only if no heartbeat or registration itself breaks that; the queue and the cycles never do. |
| `GalaxyItems.AllocationsAreDemands` | apps/scheduler/internal/scheduler/scheduler.go:128-142 | Over every history, each live allocation has the cores, the memory and the user of its own queue item, and the host that item was assigned to. |
| `GalaxyItems.CountersAreDemands` | apps/scheduler/internal/scheduler/scheduler.go:117-159 | Over every history, what is given away of a host is exactly the sum of the demands of the queue items that hold it. |
| `GalaxyScheduler.NextKeepsInv` | apps/scheduler/internal/scheduler/scheduler.go:103-319 | Every event of the scheduler and the host table keeps those books. |
| `GalaxyScheduler.RegisterKeepsInvIff` | apps/scheduler/internal/host/manager.go:49-57 | Registering a host keeps the books exactly when its record already carries the load of that ID's live allocations. |
| `GalaxyScheduler.RegisterIsRegister` | apps/scheduler/internal/host/manager.go:49-57 | The manager's registration of a new host without allocations is the Register event of those histories. |
| `GalaxyScheduler.HeartbeatIsTouch` | apps/scheduler/internal/host/manager.go:59-100 | The manager's heartbeat is their Touch event. |
| `GalaxyScheduler.OfflineIsTouch` | apps/scheduler/internal/host/manager.go:165-173 | So is taking a host offline. |
| `GalaxyScheduler.ReleasedOnce` | apps/scheduler/internal/scheduler/scheduler.go:150-159 | Once an allocation is released, by expiry or dequeue, its ID never comes back, so it is never released again. |
| `GalaxyScheduler.ExpiryNeedsAnAvailableHost` | apps/scheduler/internal/scheduler/scheduler.go:112-115 | A cycle releases an expired allocation if and only if some host is available when the cycle starts. |
| `GalaxyItems.CycleOnFields` | apps/scheduler/internal/scheduler/scheduler.go:103-159 | What a cycle changes of items, hosts and allocations: items keep all but status and host; hosts keep all but their counters; while a host is considered exactly the expired allocations go, else none; new ones last as long as granted. |
| `GalaxyItems.ConsideredExactly` | apps/scheduler/internal/host/manager.go:108-131 | The hosts a cycle considers, on their fields. |
| `GalaxyScheduler.ExpiredAllocationLingers` | apps/scheduler/internal/scheduler/scheduler.go:103-159 | The case is reached: a one-core host, with an ID of at least eight characters, registers, an item that fills it is queued and placed, and a later cycle, whenever it runs, leaves the expired allocation live. |
| `GalaxyScheduler.RemoveKeepsInv` | apps/scheduler/internal/scheduler/scheduler.go:303-319 | Dequeuing an item, with its allocation if it has one, keeps the books. |
| `GalaxyScheduler.Scheduler.Enqueue` | apps/scheduler/internal/scheduler/scheduler.go:214-276 | A missing user or a full queue is refused; otherwise one item is appended with a fresh ID, its place in line counted from one, 2 cores and 4 GB for demands below one, and priority 2 if none was given. |
| `GalaxyScheduler.Scheduler.Dequeue` | apps/scheduler/internal/scheduler/scheduler.go:303-319 | The item leaves the queue, and its allocation, if any, is released; an unknown ID changes nothing. |
| `GalaxyScheduler.Scheduler.CleanupExpired` | apps/scheduler/internal/scheduler/scheduler.go:150-159 | Exactly the expired allocations are gone, and every host's counters are the sums over those left. |
| `GalaxyScheduler.Scheduler.AllocateItem` | apps/scheduler/internal/scheduler/scheduler.go:120-144 | One round: the item goes to a host of maximal positive score, or stays queued if none scores. |
| `GalaxyScheduler.Scheduler.AllocateQueued` | apps/scheduler/internal/scheduler/scheduler.go:117-145 | The loop is one round for every item, in queue order, over the same available hosts. |
| `GalaxyScheduler.Scheduler.ScheduleCycle` | apps/scheduler/internal/scheduler/scheduler.go:103-148 | A cycle does nothing with an empty queue or no available host; otherwise it runs the rounds and then the expiry. |
| `ResponseCache.LargerCacheHitsMore` | apps/gateway/internal/tunnel/cache.go:80-129 | No Belady anomaly: on the same timed trace of gets, sets, deletes and sweeps, every hit of a smaller cache is a hit of a larger one with the same entry, and their sizes differ by at most the difference of the capacities. |
| `ResponseCache.StepIncluded` | apps/gateway/internal/tunnel/cache.go:80-135 | Every operation keeps the smaller recency list a subsequence of the larger one, with equal entries. |
| `ResponseCache.HitsAreFresh` | apps/gateway/internal/tunnel/cache.go:80-99 | A hit returns the last accepted Set of the key, not deleted since and not expired. |
| `ResponseCacheRecency.RecentIsKept` | apps/gateway/internal/tunnel/cache.go:80-129 | Conversely, with n places a key answers with the entry last set as long as fewer than n other keys are used after it and nothing deletes it or finds it expired. |
| `ResponseCache.OrderIsByLastUse` | apps/gateway/internal/tunnel/cache.go:80-129 | Along any trace the list is in the order of last use, most recent first. |
| `ResponseCache.VictimIsLeastRecentlyUsed` | apps/gateway/internal/tunnel/cache.go:111-119 | A key that a Set throws out is, of the others, the one whose last use is the longest ago. |
| `ResponseCache.OnlyFullCachesEvict` | apps/gateway/internal/tunnel/cache.go:111-119 | A Set throws out another key only when keys other than its own fill the cache, and then no second one. |
| `ResponseCache.ApplyValid` | apps/gateway/internal/tunnel/cache.go:80-186 | Every operation keeps the list free of duplicates, equal to the keys of the map, and within the capacity. |
| `ResponseCache.ApplyOnFields` | apps/gateway/internal/tunnel/cache.go:80-186 | What each operation answers and does to the entries: exact expiry, the 1 MiB limit, the other entries untouched. |
| `ResponseCache.Cache.Get` | apps/gateway/internal/tunnel/cache.go:80-99 | A present, unexpired entry is returned and moves to the front; an expired one is removed; hits and misses are counted. |
| `ResponseCache.Cache.Set` | apps/gateway/internal/tunnel/cache.go:101-129 | A body over 1 MiB is ignored; else the key's old entry goes, room is made from the back, and the entry goes to the front. |
| `ResponseCache.Cache.Delete` | apps/gateway/internal/tunnel/cache.go:131-135 | The key goes from the map and the list; the others stay in order. |
| `ResponseCache.Cache.Sweep` | apps/gateway/internal/tunnel/cache.go:170-186 | Exactly the expired entries go; the others stay in order. |
| `ContainerHeap.RootIsLeast` | apps/scheduler/internal/scheduler/queue.go:19-24 | In a heap no item sorts before the root, for any strict weak order. |
| `ContainerHeap.Up` | apps/scheduler/internal/scheduler/queue.go:26-37 | Sifting up restores heap order, rearranging items together with their index fields. |
| `ContainerHeap.Down` | apps/scheduler/internal/scheduler/queue.go:26-47 | Sifting down restores heap order, or reports that nothing moved. |
| `ContainerHeap.Push` | apps/scheduler/internal/scheduler/queue.go:32-37 | heap.Push keeps heap order and index fields and adds the one item. |
| `ContainerHeap.Pop` | apps/scheduler/internal/scheduler/queue.go:39-47 | heap.Pop takes out an item that none sorts before, and only that one. |
| `ContainerHeap.Remove` | apps/scheduler/internal/scheduler/queue.go:99-110 | heap.Remove takes out exactly the item at the given index and keeps heap order. |
| `IndexedQueue.LessIsStrictWeak` | apps/scheduler/internal/scheduler/queue.go:19-24 | Higher priority first, earlier first among equals, is a strict weak order. |
| `IndexedQueue.PriorityQueue.Enqueue` | apps/scheduler/internal/scheduler/queue.go:64-74 | The item is added to the heap and filed under its ID, whether or not the ID is taken; every queued item stays filed exactly when they all were and the ID is new. |
| `IndexedQueue.PriorityQueue.Dequeue` | apps/scheduler/internal/scheduler/queue.go:76-87 | Takes out an item of highest priority that is earliest among equals, and only that one, and unfiles its ID; nothing from an empty queue. |
| `IndexedQueue.PriorityQueue.Peek` | apps/scheduler/internal/scheduler/queue.go:89-97 | Returns the item that Dequeue would take. |
| `IndexedQueue.PriorityQueue.Remove` | apps/scheduler/internal/scheduler/queue.go:99-110 | Takes out the item filed under the ID and only that one; an ID that is not filed changes nothing. |
| `IndexedQueue.PriorityQueue.ExactIsTheMap` | apps/scheduler/internal/scheduler/queue.go:49-74 | While no ID is queued twice the heap holds exactly what the map files, each item once. |
| `IndexedQueue.SameIdTwice` | apps/scheduler/internal/scheduler/queue.go:64-74 | The case of a taken ID: two items with one ID queued one after the other are both in the heap, and only the second is filed. |
| `IndexedQueue.PriorityQueue.PositionIsIndex` | apps/scheduler/internal/scheduler/queue.go:26-47 | Each queued item sits at the place its index field says. |
| `SessionQueue.DecayIsExact` | apps/gateway/internal/session/scheduler.go:158-172 | Priority plus failed attempts stays the class base, so the clamp at zero is dead. |
| `SessionQueue.BandsAreDisjoint` | apps/gateway/internal/session/scheduler.go:177-190 | The priority bands of the five classes do not meet, whatever the failures. |
| `SessionQueue.HigherClassesGoFirst` | apps/gateway/internal/session/scheduler.go:138-156 | A job is popped only when no job of a higher class is queued (gaming, remote support, desktop, host session, other), nor one of its class with fewer failures. |
| `SessionQueue.TenAttempts` | apps/gateway/internal/session/scheduler.go:153-172 | A job that never finds a host comes back nine times with one point less, starting from 100, 75, 50, 25 or 10, and is gone after the tenth. |
| `SessionQueue.ProcessDrains` | apps/gateway/internal/session/scheduler.go:138-175 | The attempts left over all queued jobs strictly decrease with each processed job, whatever the allocator answers. |
| `SessionQueue.DrainEmpties` | apps/gateway/internal/session/scheduler.go:138-175 | Without arrivals the queue is empty after at most as many calls as attempts were left. |
| `SessionQueue.SessionScheduler.Enqueue` | apps/gateway/internal/session/scheduler.go:88-103 | The job is added with its class base and no failures. |
| `SessionQueue.SessionScheduler.Dequeue` | apps/gateway/internal/session/scheduler.go:105-116 | One queued job of that session is taken out, and only that one; if there is none, nothing changes. |
| `SessionQueue.SessionScheduler.ProcessQueue` | apps/gateway/internal/session/scheduler.go:138-175 | One call pops a job of highest priority; a failure pushes it back one lower, or drops it at the tenth. |
| `Rtp.ParsePacket` | host-agent/internal/vmagent/vmagent.go:892-907 | The packet's header reads back as version 2, payload type 96, the marker and the big-endian sequence number, timestamp and SSRC (section 5.1 of RFC 3550). |
| `Bytes.EncodeAt` | host-agent/internal/vmagent/vmagent.go:899-901 | Byte i of an encoding in k bytes is the digit n / 256^(k-1-i) mod 256. |
| `Bytes.DecodeFirst` | host-agent/internal/vmagent/vmagent.go:899-901 | Big-endian: the first byte of a number counts most. |
| `Rtp.PacketByBytes` | host-agent/internal/vmagent/vmagent.go:892-907 | The twelve header bytes one by one, with sequence number, timestamp and SSRC in network byte order. |
| `Rtp.RtpMuxer.Marshal` | host-agent/internal/vmagent/vmagent.go:892-907 | One packet with the current counters; the sequence number grows by one, modulo 2^16. |
| `Rtp.RtpMuxer.WrapNAL` | host-agent/internal/vmagent/vmagent.go:909-950 | The packets of one unit: none if empty, one if it fits 1400 bytes, else FU-A fragments of 1400 bytes. |
| `Rtp.FragmentShape` | host-agent/internal/vmagent/vmagent.go:922-947 | S marks the first fragment only, E and the marker the last only; fragments carry 1 to 1400 bytes. |
| `Rtp.FragmentAt` | host-agent/internal/vmagent/vmagent.go:918-947 | Fragment k of a unit of more than 1400 bytes, byte by byte: indicator, FU header and bytes 1400 k on of the body. |
| `Rtp.PacketShape` | host-agent/internal/vmagent/vmagent.go:708-726 | Packets are 13 to 1414 bytes, and sequence numbers are consecutive modulo 2^16 over any list of units. |
| `Rtp.UnitAt` | host-agent/internal/vmagent/vmagent.go:703-726 | The packets of unit k follow those before it, numbered on from them modulo 2^16, with a timestamp 3000 (k + 1) later modulo 2^32. |
| `Rtp.FragmentBits` | host-agent/internal/vmagent/vmagent.go:933-939 | The indicator is an FU-A indicator, and NRI of the indicator with the type of the FU header give the unit's header back. |
| `Rtp.UnitReassembles` | host-agent/internal/vmagent/vmagent.go:909-950 | Whatever the receiver holds, the packets of a unit with F bit 0 and type 1 to 23 yield exactly that unit (sections 5.6 and 5.8 of RFC 6184). |
| `Rtp.UnitsReassemble` | host-agent/internal/vmagent/vmagent.go:708-726 | For any list of such units the receiver, which drops a unit when a fragment is missing, gets exactly that list. |
| `MediaStream.AppendFrames` | host-agent/internal/vmagent/vmagent.go:714-725 | Each packet is appended behind its two-byte length; one over 65535 bytes is skipped. |
| `MediaStream.FrameOneBytes` | host-agent/internal/vmagent/vmagent.go:714-723 | The length prefix is the packet's length with the high byte first; a packet over 65535 bytes has no frame. |
| `MediaStream.Batch` | host-agent/internal/vmagent/vmagent.go:706-726 | One read's units become one body; the timestamp moves by 3000 for every unit and the sequence number by one for every packet, each modulo its width. |
| `MediaStream.MediaIngest.HandleVideo` | apps/gateway/internal/webrtc/webrtc.go:1180-1240 | The gateway's loop delivers exactly the deframed packets, through a reused buffer or a fresh one, counts them and their bytes, and ends on end of input, zero length, a cut packet or a failing track. |
| `MediaStream.IngestAll` | apps/gateway/internal/webrtc/webrtc.go:1180-1240 | One body after another: the track gets what the bodies deliver, in order, and the 64-bit counters count its packets and their bytes. |
| `MediaStream.DeframeFrame` | apps/gateway/internal/webrtc/webrtc.go:1180-1196 | Deframing undoes framing, and goes on with whatever follows. |
| `MediaStream.DeframeByBytes` | apps/gateway/internal/webrtc/webrtc.go:1180-1222 | The first packet is as long as its first two bytes say, high byte first; and why there is none, when there is none. |
| `MediaStream.FrameDeframe` | apps/gateway/internal/webrtc/webrtc.go:1180-1240 | Conversely, what is delivered, framed again, is a prefix of the body, and all of it up to one byte if the loop ends normally. |
| `MediaStream.CutBody` | apps/gateway/internal/webrtc/webrtc.go:1183-1191 | A body cut anywhere delivers a prefix of the packets and never reports a bad length. |
| `MediaStream.EndToEnd` | host-agent/internal/vmagent/vmagent.go:708-726 | Packetising, batching, deframing and FU-A reassembly return exactly the non-empty units that went in. |
| `MediaStream.SessionRoundTrip` | host-agent/internal/vmagent/vmagent.go:703-733 | Over a whole session, in which each body starts with the counters that Batch left behind, and however the units fall into batches, none is lost, repeated or reordered. |
| `AnnexB.FindStartCode` | host-agent/internal/vmagent/vmagent.go:952-962 | The first position from the given one where a 3- or 4-byte start code begins, or none. |
| `AnnexB.Splitter.ParseNALUnits` | host-agent/internal/vmagent/vmagent.go:976-1005 | The call emits the units between consecutive start codes of carry and data, and carries the rest, cut to its last 4 MiB. |
| `AnnexB.SplitIsSound` | host-agent/internal/vmagent/vmagent.go:976-1005 | Emitted stretches lie between two start codes with none inside, in order and disjoint, and none begins in what is carried. |
| `AnnexB.EmittedUnitsAreDelimited` | host-agent/internal/vmagent/vmagent.go:976-1005 | Over any sequence of calls the emitted units are stretches of the whole stream, delimited on both sides, free of start codes, in order and disjoint; the carry is the end of the stream and at most 4 MiB. |
| `AnnexB.NoCodeInUnit` | host-agent/internal/vmagent/vmagent.go:976-1005 | No start code lies inside an emitted unit, so splitting a unit again would find nothing. |
| `AnnexBStreams.OneCallIsExact` | host-agent/internal/vmagent/vmagent.go:976-1005 | On units behind start codes, the last of which may be cut short, one call emits all but the last and carries that one (if at most 4 MiB, whole); a clean carry before them is dropped. |
| `AnnexBStreams.SurvivorsAreEmitted` | host-agent/internal/vmagent/vmagent.go:976-1005 | For any well-formed stream, read in chunks cut anywhere, the emitted units are exactly those for which no chunk boundary lies from the end of their start code up to the end of the next one. |
| `AnnexBStreams.ChunkingMattersExactly` | host-agent/internal/vmagent/vmagent.go:976-1005 | Chunk invariance fails: chunks cut anywhere yield what a single read yields if and only if no boundary lies from the end of the first start code up to the end of the last one. |
| `AnnexBStreams.TwoReadsLoseAUnit` | host-agent/internal/vmagent/vmagent.go:976-1005 | The smallest failing case, for any two clean units: one read yields the first unit, two reads with the boundary behind the first start code yield nothing. |
| `VideoPath.ReceiverGetsTheStream` | host-agent/internal/vmagent/vmagent.go:699-733 | From encoder output read in any chunks to the receiver behind the gateway: it gets exactly the non-empty emitted units, which are stretches of the stream, in order. |
| `VideoPath.EncoderLoop` | host-agent/internal/vmagent/vmagent.go:699-733 | The loop over reads posts the non-empty bodies that the splitter and the packetiser yield, with one carry and one pair of counters throughout. |
| `VideoPath.ReceiverGetsSurvivors` | host-agent/internal/vmagent/vmagent.go:699-733 | For a well-formed stream that is exactly its non-empty units that no chunk boundary cuts. |
| `WebSocket.Unmask` | apps/gateway/internal/tunnel/websocket.go:457-469 | The word-at-a-time loop equals bytewise XOR with mask[i mod 4] on the payload and leaves the rest of the buffer alone. |
| `WebSocket.MaskedTwice` | apps/gateway/internal/tunnel/websocket.go:457-469 | Unmasking is its own inverse. |
| `WebSocket.ReadClientFrame` | apps/gateway/internal/tunnel/websocket.go:368-455 | Any well-formed masked frame of at most 1 MiB, in any of the three length forms, reads back as its fin, opcode and payload, and exactly its bytes are consumed. |
| `WebSocket.FrameIsClient` | apps/gateway/internal/tunnel/websocket.go:368-455 | Conversely, every frame that is accepted is such a frame followed by what is left. |
| `WebSocket.HeadByBytes` | apps/gateway/internal/tunnel/websocket.go:370-396 | FIN, opcode, mask bit and length from the bytes: up to 125 in the second byte, or the next two or eight bytes, high byte first. |
| `WebSocket.FrameByBytes` | apps/gateway/internal/tunnel/websocket.go:368-455 | Which frames get through, what payload they have, byte by byte, and that every refusal names a true reason. |
| `WebSocket.ControlIsShort` | apps/gateway/internal/tunnel/websocket.go:402-409 | An accepted control frame is final and at most 125 bytes; so the fragmented-ping branch of readDataFrame is dead. |
| `WebSocket.ServerHeadDecodes` | apps/gateway/internal/tunnel/websocket.go:492-504 | The header that is written decodes back to final, unmasked, the opcode and the length, for any length below 2^64. |
| `WebSocket.ServerHeadBytes` | apps/gateway/internal/tunnel/websocket.go:491-504 | The written header byte by byte, the length in two, four or ten bytes, high byte first. |
| `WebSocket.ServerHeadIsMinimal` | apps/gateway/internal/tunnel/websocket.go:492-504 | No shorter run of bytes is a header for the same length. |
| `WebSocketBridge.Bridge.ReadHeader` | apps/gateway/internal/tunnel/websocket.go:370-396 | Reading the two bytes and the extended length yields the head of the input. |
| `WebSocketBridge.Bridge.NextFrame` | apps/gateway/internal/tunnel/websocket.go:368-455 | The checks in their order, the mask, the payload through a reused or a fresh buffer: the result is that of the frame specification. |
| `WebSocketBridge.Bridge.WriteFrame` | apps/gateway/internal/tunnel/websocket.go:487-515 | The header and the payload are appended to the output. |
| `WebSocketBridge.Bridge.WriteControl` | apps/gateway/internal/tunnel/websocket.go:475-481 | A control payload is cut to 125 bytes and written. |
| `WebSocketBridge.Bridge.ReadDataFrame` | apps/gateway/internal/tunnel/websocket.go:319-366 | The loop returns the specified outcome, and the output grows by one pong for every ping, in order and uncut, so the truncation never fires here. |
| `WebSocketBridge.FirstFrameDecides` | apps/gateway/internal/tunnel/websocket.go:329-364 | What each opcode from 0 to 15 does to the message under way. |
| `WebSocketBridge.Reassembly` | apps/gateway/internal/tunnel/websocket.go:319-366 | For any legal fragmentation of a message of at most 1 MiB, with pings and pongs anywhere, exactly the message comes out, the pongs are the pings' payloads in order, and what follows stays unread (sections 5.4 and 5.5 of RFC 6455). |
| `WebSocketBridge.MessagesAreLegal` | apps/gateway/internal/tunnel/websocket.go:319-366 | Conversely, every message returned was sent as the frames of a legal message. |
| `WebSocketBridge.MessagesAreBounded` | apps/gateway/internal/tunnel/websocket.go:343-347 | No input yields a message over 1 MiB or a pong over 125 bytes. |
| `RateLimit.WiringHourFills` | apps/gateway/internal/tunnel/server.go:271 | The wiring gives RPM/60 per second and RPM/4 at once, cut down to whole numbers but never below 1, and that satisfies burst <= 3600 rps for every RPM. |
| `RateLimit.NewConfig` | apps/gateway/internal/ratelimit/ratelimit.go:22-39 | Positive limits are taken as they are, others become 1. |
| `RateLimit.Limiter.AddToken` | apps/gateway/internal/ratelimit/ratelimit.go:49-70 | Allowed exactly when the refilled and capped level is at least 1; the key's bucket is charged, the others stay. |
| `RateLimit.Limiter.Sweep` | apps/gateway/internal/ratelimit/ratelimit.go:91-103 | Exactly the buckets last seen more than an hour ago go. |
| `RateLimit.RateIsBounded` | apps/gateway/internal/ratelimit/ratelimit.go:49-70 | From any state, over any run in which time does not go back, a key gets at most its level plus rps times the time that passes, if burst <= 3600 rps or the run has no sweeps. |
| `RateLimit.WindowIsBounded` | apps/gateway/internal/ratelimit/ratelimit.go:49-103 | In every window of every run a key gets at most burst + rps times the window, if burst <= 3600 rps or the window has no sweeps. |
| `RateLimitDecisions.AllowedExactlyWhenItFits` | apps/gateway/internal/ratelimit/ratelimit.go:49-70 | A request is let through if and only if that keeps every window ending with it within burst + rps times its length: nothing beyond the rate gets through, and nothing within it is refused. |
| `RateLimit.SweepsAreTransparent` | apps/gateway/internal/ratelimit/ratelimit.go:91-103 | If burst <= 3600 rps, evicting stale buckets changes no later decision. |
| `RateLimit.ForgettingIsSafeExactly` | apps/gateway/internal/ratelimit/ratelimit.go:22-103 | For any arguments of NewLimiter: eviction is invisible if and only if burst <= 3600 rps, and the rate bound over runs with eviction holds if and only if burst <= 3600 rps. |
| `Signaling.SignalStore.MessagesAfter` | apps/gateway/internal/tunnel/signaling.go:145-168 | The room's messages with a later number and its channel; for a missing room nothing and the channel that is never closed. No room is created. |
| `Signaling.SignalStore.GetOrCreateLocked` | apps/gateway/internal/tunnel/signaling.go:188-197 | The room, made with a fresh channel if missing, with its time updated; no other room changes. |
| `Signaling.SignalStore.Append` | apps/gateway/internal/tunnel/signaling.go:170-186 | The message gets the next number, only the newest 256 stay, the old channel is closed (never a closed one) and replaced. |
| `Signaling.SignalStore.Sweep` | apps/gateway/internal/tunnel/signaling.go:215-226 | Exactly the rooms idle for more than ten minutes go, and their channels are closed, none twice. |
| `Signaling.AfterKeepsInv` | apps/gateway/internal/tunnel/signaling.go:145-226 | In every reachable store a room holds exactly the numbers seq-min(seq,256)+1 to seq, rooms' channels are open and distinct, and the channel for missing rooms is not closed. |
| `Signaling.WokenExactlyOnChange` | apps/gateway/internal/tunnel/signaling.go:145-226 | A channel handed out for a room is closed by the first append to it or the sweep that takes it, and by nothing else; until then the room is as it was. |
| `Signaling.NoMessageIsMissedAsleep` | apps/gateway/internal/tunnel/signaling.go:75-98 | A poller that found nothing and is not woken would still find nothing. |
| `Signaling.MissingRoomNeverWakes` | apps/gateway/internal/tunnel/signaling.go:139-159 | A poller of a missing room is never woken, not even when the room comes to be. |
| `Signaling.RoomsHoldTheirHistory` | apps/gateway/internal/tunnel/signaling.go:170-186 | A room holds the newest 256 of what was appended to it since it was made. |
| `Signaling.RoomsLiveTenMinutes` | apps/gateway/internal/tunnel/signaling.go:170-226 | A room is made by its first append, and a sweep takes it exactly if more than ten minutes have passed since the last. |
| `Signaling.PollReturns` | apps/gateway/internal/tunnel/signaling.go:160-168 | A poll returns everything after the poller's place, or the newest 256 if more came, and nothing if the place is beyond the newest number. |
| `Signaling.HistoryGrows` | apps/gateway/internal/tunnel/signaling.go:170-186 | While a room lives, its history at one time is a prefix of its history at any later time, continued by what was appended between. |
| `Signaling.EveryMessageOnce` | apps/gateway/internal/tunnel/signaling.go:75-98 | Within a room's lifetime a poller of the store that resumes each time from the number of the last message it received gets every message numbered beyond the place it came with, once and in order, if and only if at most 256 such messages come between polls; it gets no other. A new poller comes with 0 and gets all; one that kept its place over a sweep misses that many. |
| `AudioRing.AudioBuffer.Write` | apps/gateway/internal/audio/audio.go:258-299 | Content q becomes the last S-1 bytes of q followed by the data, across wraparound, overtaking and oversize writes. |
| `AudioRing.AudioBuffer.Read` | apps/gateway/internal/audio/audio.go:301-324 | The first min(n, |q|) bytes are returned and removed; end of file exactly when nothing is there. |
| `AudioRing.AudioBuffer.Available` | apps/gateway/internal/audio/audio.go:328-339 | The number of unread bytes. |
| `AudioRing.AudioBuffer.Clear` | apps/gateway/internal/audio/audio.go:341-348 | Nothing is left to read. |
| `AudioRing.ReadsFollowTheInput` | apps/gateway/internal/audio/audio.go:258-348 | Over any run of writes, reads and clears, what is unread is the newest part of the input, and reads are successive disjoint stretches of it. |
| `AudioRing.NothingLostWhileItFits` | apps/gateway/internal/audio/audio.go:258-324 | While no write overfills the buffer, the reads and the unread bytes are the whole input. |
| `HostAllocation.HostAllocator.RegisterHost` | apps/gateway/internal/session/allocator.go:119-150 | A new ID is filed in the table, and byRegion, byClass and byOnline stay exactly the views they name; a taken ID changes nothing. |
| `HostAllocation.HostAllocator.UnregisterHost` | apps/gateway/internal/session/allocator.go:152-181 | The host leaves the table and every index; empty groups go. |
| `HostAllocation.HostAllocator.UpdateHostLoad` | apps/gateway/internal/session/allocator.go:183-206 | Load, heartbeat and online change for that host only, and byOnline stays exact. |
| `HostAllocation.HostAllocator.AllocateHost` | apps/gateway/internal/session/allocator.go:208-267 | The host returned is online, in the region, of the class if anybody offers it, heard of in five minutes, has a GPU if one is asked for and no load over its limit, and scores highest of those; without an answer every host of the table fails one of these tests. The region error comes exactly when no host is in the region. |
| `HostAllocation.EligibleOnFields` | apps/gateway/internal/session/allocator.go:222-307 | Who may be given out, on the fields of host and request. |
| `HostAllocation.LighterScoresMore` | apps/gateway/internal/session/allocator.go:324-363 | The lighter of two otherwise equal hosts scores no less, and more if its CPU or RAM is lighter. |
| `HostAllocation.ScoreOnFields` | apps/gateway/internal/session/allocator.go:324-363 | The score in tenths: the weights of idle CPU, memory, GPU and encoder, of a measured latency, and of the class. |
| `HostAllocation.ClassNeverDecides` | apps/gateway/internal/session/allocator.go:220-243 | The reward for a matching class never decides: of two eligible hosts both match or neither does, so they compare as they do without it. |
| `HostAllocation.SelectBestHost` | apps/gateway/internal/session/allocator.go:309-322 | A candidate of maximal score. |
| `HostAllocation.ClassIsKnown` | apps/gateway/internal/session/allocator.go:220-243 | A class has a group exactly when some host offers it, and the group is the hosts that do. |
| `HostAllocation.SameHostsSameIndexes` | apps/gateway/internal/session/allocator.go:119-206 | The indexes are determined by the table: allocators with equal tables have equal indexes. |
| `HostAllocation.RegisterThenUnregister` | apps/gateway/internal/session/allocator.go:119-181 | Registering a new host and taking it out again leaves the table and all three indexes as they were. |
| `ProxyCaching.LruCache.Touch` | apps/gateway/internal/tunnel/proxy_cache.go:56-66 | A listed key moves to the front, the others keep their order; the index stays the exact inverse of the list. |
| `ProxyCaching.LruCache.Add` | apps/gateway/internal/tunnel/proxy_cache.go:68-82 | A listed key is touched; a new one goes to the front, the last key going when the list is full. |
| `ProxyCaching.LruCache.Remove` | apps/gateway/internal/tunnel/proxy_cache.go:84-92 | The key leaves the list, the others keep their order. |
| `ProxyCaching.PushedByRecency` | apps/gateway/internal/tunnel/proxy_cache.go:56-82 | Touch and add keep the list in the order of last use, and the key that goes for a new one is the one not used for longest. |
| `ProxyCaching.InverseIsUnique` | apps/gateway/internal/tunnel/proxy_cache.go:46-92 | A list with an inverse index has no duplicates and exactly the index's keys. |
| `ProxyCaching.StoredIsAccounted` | apps/gateway/internal/tunnel/proxy_cache.go:207-232 | The locked part of Store keeps usedSize the sum of the entries' sizes and an entry for every listed key. |
| `ProxyCaching.StoredOnFields` | apps/gateway/internal/tunnel/proxy_cache.go:207-232 | After Store the entry is there with its key in front; no other entry is changed or added, and none goes while the sizes fit. |
| `ProxyCaching.EvictionMakesRoom` | apps/gateway/internal/tunnel/proxy_cache.go:296-308 | evictLocked ends with room made or the list empty, with the sizes still accounted for. |
| `ProxyCaching.EvictionIsNeeded` | apps/gateway/internal/tunnel/proxy_cache.go:296-308 | It takes the last key off the list only while there is no room. |
| `ProxyCaching.EvictionTakesTail` | apps/gateway/internal/tunnel/proxy_cache.go:296-308 | It removes the entries of those keys and no others. |
| `ProxyCaching.OrphansAppearExactly` | apps/gateway/internal/tunnel/proxy_cache.go:68-82 | From a state where every entry is listed, Store leaves an unlisted entry behind exactly when the key is new, the list is full and the sizes ask for no eviction; an entry within the limit leaves usedSize within it. |
| `ProxyCaching.StoreFitsExactly` | apps/gateway/internal/tunnel/proxy_cache.go:207-232 | From any accounted state, Store ends within the limit if and only if the new entry fits beside the entries that nothing lists, which eviction cannot reach. |
| `ProxyCaching.OrphansAreReached` | apps/gateway/internal/tunnel/proxy_cache.go:207-232 | That is reached for every limit: storing one more one-byte entry than the list has places leaves an unlisted entry in the map. |
| `ProxyCaching.ProxyCache.constructor` | apps/gateway/internal/tunnel/proxy_cache.go:94-115 | An empty cache whose limit is the wrapped 64-bit product, or the default if that is not positive, and whose list has a place for each 64 KiB, but no more than 65536. |
| `ProxyCaching.LimitIsWholeMegabytes` | apps/gateway/internal/tunnel/proxy_cache.go:94-115 | Whatever size is configured, even if the product wraps, the limit is at least 1 MiB and the list has 16 to 65536 places. |
| `ProxyCaching.LimitOnFields` | apps/gateway/internal/tunnel/proxy_cache.go:94-115 | Limit and places for every configured size: the size in megabytes cut to 44 bits and read as signed, or 512; sixteen places a megabyte, up to 65536. |
| `ProxyCaching.ProxyCache.EvictLocked` | apps/gateway/internal/tunnel/proxy_cache.go:296-308 | The loop yields the specified eviction and terminates. |
| `ProxyCaching.ProxyCache.Store` | apps/gateway/internal/tunnel/proxy_cache.go:207-232 | The old entry goes, room is made, the new entry is filed and listed, the size is added. |
| `ProxyCaching.ProxyCache.Invalidate` | apps/gateway/internal/tunnel/proxy_cache.go:285-294 | The key's entry, place and size go; nothing else changes. |
| `ProxyCaching.ProxyCache.Lookup` | apps/gateway/internal/tunnel/proxy_cache.go:117-134 | With nothing in between: an expired entry is invalidated, a bypassed one left alone, a served one, which is within its time to live, moved to the front. |
| `ProxyCaching.ProxyCache.Find` | apps/gateway/internal/tunnel/proxy_cache.go:117-123 | The first locked region only reads the key's entry. |
| `ProxyCaching.ProxyCache.Settle` | apps/gateway/internal/tunnel/proxy_cache.go:124-133 | The second locked region, in whatever state other calls have left: the entry read before decides whether the key's present entry is invalidated or its place touched; nothing else changes. |
| `ProxyCaching.SettledIsAccounted` | apps/gateway/internal/tunnel/proxy_cache.go:117-133 | So a lookup with other calls in between keeps the books and every other entry; it loses the key's present entry exactly if the entry read before was expired. |
| `ProxyCaching.NewEntryIsLost` | apps/gateway/internal/tunnel/proxy_cache.go:117-133 | The case is reached: a lookup reads an expired entry, a new one is stored, and the lookup then throws out the new one. |
| `ProxyCaching.ProxyCache.Sweep` | apps/gateway/internal/tunnel/proxy_cache.go:310-321 | Exactly the expired entries go, with their places and sizes; the list keeps its order. |

## Left out

- HTTP handlers, JSON, sockets, QUIC, pion, QEMU, ffmpeg, SQLite, bcrypt, HMAC and the TypeScript front end: input and output, or libraries that cannot be seen. Only the state changes of handlers are modelled.
- Data races and lock granularity outside the agent pool: each locked call is one atomic step, and one scheduling cycle is one event. In particular the unlocked gap inside `processQueue`, and requests with different clocks in the limiter, are not modelled.
- Agent pool: the `done` channel and `finish`, which only tell the agent's handler that its connection is over.
- GalaxyScheduler.Scheduler.ScheduleCycle: one reading of the clock serves availability and expiry times within a cycle, because the program's readings are microseconds apart.
- GalaxyScheduler.Scheduler.Enqueue: queue items are values in a sequence, not shared pointers, because no other holder writes them; the ID is a counter number instead of a string; session type, resource class and creation time, which the scheduler only passes on, are left out.
- HostManager.Manager.MarkOffline: log lines cut host IDs to their first eight characters, here and in Register, the allocation loop and `cleanupExpired`, which fails at run time on shorter IDs; the model has no such failure, so it speaks of runs in which host IDs have at least eight characters.
- GalaxyScheduler.BooksBalance: a host ID registers once, with zero counters; re-registration is covered by RegisterKeepsInvIff.
- SessionQueue.SessionScheduler.ProcessQueue: what the allocator answers is a parameter, because the host chosen has no effect on the queue.
- ContainerHeap.Up: `container/heap` itself is not part of the repository; its standard up and down loops are modelled, with the slice as a sequence that each call returns.
- SessionQueue.SessionScheduler.Dequeue: which of several queued jobs with the same session ID goes is not stated, because it depends on the heap's array order.
- Strict FU-A conformance: the indicator always sets the F bit, and a 1401-byte unit yields one fragment with both S and E. The round trips hold as the code has it. H.265, which reuses the H.264 packetiser, is left out.
- Rtp.UnitsReassemble: the receiver is a reference written from RFC 6184; the browser's own depacketiser is not part of this model.
- MediaStream.MediaIngest.HandleVideo: read errors other than end of input, and the audio branch of the handler.
- WebSocketBridge.Bridge.NextFrame: after an error the unread input is not specified, because every caller drops the connection; write errors, deadlines and the reserved header bits, which the code ignores, are left out.
- Signaling.SignalStore.Append: sender, type, payload and creation time are one message body; 64-bit overflow of the sequence number is not modelled.
- Signaling.EveryMessageOnce: each statement is about the polls in one lifetime of a room; what a poller received in an earlier one enters as the place it comes with.
- AudioRing.AudioBuffer.Read: a negative size, which fails at run time, is not modelled.
- HostAllocation.HostAllocator.AllocateHost: map iteration order is arbitrary, so which of several hosts of maximal score is returned is not specified.
- ProxyCaching.ProxyCache.Store: only the locked region; the guards before it call `shouldBypassCache` with a nil entry. Headers, status and the TTL rules are left out.
- `CheckpointStore`, the session state machines, `CacheHandler` replay and `connection_fusion.go`: their size and terminal-state claims are false of the code, or the code is dead.
- Transfer slots, bitrate clamps, clipboard and audit windows, firewall rules, EWMA scores, geo lookup, input frames and percent-encoding: single functions of a few lines without state to keep or runs to reason about.
