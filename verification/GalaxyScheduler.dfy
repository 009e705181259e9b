/** The Galaxy scheduler: a FIFO queue, a greedy allocation cycle, expiry, and the live
    allocations whose sizes the host counters must add up to. */
module GalaxyScheduler {
  import opened HostManager
  import opened Ranker

  datatype Status = Queued | Allocated

  /** What a user asks for. */
  datatype Request = Request(userID: string, demand: Demand, priority: int)

  datatype QueueItem = QueueItem(
    id: nat,
    userID: string,
    demand: Demand,
    priority: int,
    position: nat,
    status: Status,
    assignedHost: string)

  datatype Allocation = Allocation(userID: string, hostID: string, cpuCores: int, ramGB: int, expiresAt: int)

  /** The scheduler's state together with the host table it shares with the manager. */
  datatype World = World(hosts: Table, queue: seq<QueueItem>, allocations: map<nat, Allocation>, nextID: nat)

  // ------------------------------------------------------------------------- what is conserved

  datatype Load = Load(cpu: int, ram: int)

  /** The total size of the live allocations with IDs below n on one host. */
  function LoadOf(allocs: map<nat, Allocation>, host: string, n: nat): Load {
    if n == 0 then Load(0, 0) else
    var l := LoadOf(allocs, host, n - 1);
    if n - 1 in allocs && allocs[n - 1].hostID == host
    then Load(l.cpu + allocs[n - 1].cpuCores, l.ram + allocs[n - 1].ramGB)
    else l
  }

  /** What one allocation contributes to the load of a host. */
  function Share(a: Allocation, host: string): Load {
    if a.hostID == host then Load(a.cpuCores, a.ramGB) else Load(0, 0)
  }

  ghost predicate QueueOk(q: seq<QueueItem>, nextID: nat) {
    && (forall i :: 0 <= i < |q| ==> q[i].id < nextID && Wellformed(q[i].demand))
    && (forall i, j :: 0 <= i < j < |q| ==> q[i].id < q[j].id)
  }

  ghost predicate Holds(q: seq<QueueItem>, id: nat) {
    exists i :: 0 <= i < |q| && q[i].id == id && q[i].status == Allocated
  }

  ghost predicate AllocationsOk(w: World) {
    forall id :: id in w.allocations ==>
      && id < w.nextID && Holds(w.queue, id)
      && w.allocations[id].hostID in w.hosts
      && w.allocations[id].cpuCores >= 1 && w.allocations[id].ramGB >= 1
  }

  ghost predicate Conserved(w: World) {
    forall h :: h in w.hosts ==>
      Load(w.hosts[h].allocatedCpu, w.hosts[h].allocatedRam) == LoadOf(w.allocations, h, w.nextID)
  }

  ghost predicate TableOk(hosts: Table) {
    forall h :: h in hosts ==> hosts[h].allocatedCpu >= 0 && hosts[h].allocatedRam >= 0
  }

  ghost predicate Inv(w: World) {
    QueueOk(w.queue, w.nextID) && AllocationsOk(w) && Conserved(w) && TableOk(w.hosts)
  }

  lemma {:induction false} SameLoad(m: map<nat, Allocation>, m': map<nat, Allocation>, host: string, n: nat)
    requires forall id :: id < n ==> (id in m <==> id in m')
    requires forall id :: id < n && id in m && id in m' ==> m[id] == m'[id]
    ensures LoadOf(m', host, n) == LoadOf(m, host, n)
  {
    if n > 0 { SameLoad(m, m', host, n - 1); }
  }

  lemma {:induction false} LoadAdds(m: map<nat, Allocation>, id: nat, a: Allocation, host: string, n: nat)
    requires id !in m && id < n
    ensures LoadOf(m[id := a], host, n).cpu == LoadOf(m, host, n).cpu + Share(a, host).cpu
    ensures LoadOf(m[id := a], host, n).ram == LoadOf(m, host, n).ram + Share(a, host).ram
  {
    if id == n - 1 {
      SameLoad(m, m[id := a], host, n - 1);
    } else {
      LoadAdds(m, id, a, host, n - 1);
    }
  }

  lemma LoadDrops(m: map<nat, Allocation>, id: nat, host: string, n: nat)
    requires id in m && id < n
    ensures LoadOf(m - {id}, host, n).cpu == LoadOf(m, host, n).cpu - Share(m[id], host).cpu
    ensures LoadOf(m - {id}, host, n).ram == LoadOf(m, host, n).ram - Share(m[id], host).ram
  {
    assert (m - {id})[id := m[id]] == m;
    LoadAdds(m - {id}, id, m[id], host, n);
  }

  lemma {:induction false} LoadNonNegative(m: map<nat, Allocation>, host: string, n: nat)
    requires forall id :: id in m ==> m[id].cpuCores >= 1 && m[id].ramGB >= 1
    ensures LoadOf(m, host, n).cpu >= 0 && LoadOf(m, host, n).ram >= 0
  {
    if n > 0 { LoadNonNegative(m, host, n - 1); }
  }

  /** A live allocation never exceeds its host's counters, so releasing it never hits zero's clamp. */
  lemma ReleaseIsExact(w: World, id: nat)
    requires Inv(w) && id in w.allocations
    ensures w.allocations[id].hostID in w.hosts
    ensures var a, h := w.allocations[id], w.hosts[w.allocations[id].hostID];
      && a.cpuCores <= h.allocatedCpu && a.ramGB <= h.allocatedRam
      && Refund(h, a.cpuCores, a.ramGB) ==
         h.(allocatedCpu := h.allocatedCpu - a.cpuCores, allocatedRam := h.allocatedRam - a.ramGB)
  {
    var a := w.allocations[id];
    LoadDrops(w.allocations, id, a.hostID, w.nextID);
    LoadNonNegative(w.allocations - {id}, a.hostID, w.nextID);
  }

  /** Counters that add up live allocations are not negative. */
  lemma CountersNonNegative(w: World)
    requires AllocationsOk(w) && Conserved(w)
    ensures TableOk(w.hosts)
  {
    forall h | h in w.hosts ensures w.hosts[h].allocatedCpu >= 0 && w.hosts[h].allocatedRam >= 0 {
      LoadNonNegative(w.allocations, h, w.nextID);
    }
  }

  // --------------------------------------------------------------------------- the transitions

  /** Releasing the live allocation id: refund its host, forget it. */
  function Drop(w: World, id: nat): World
    requires id in w.allocations
  {
    var a := w.allocations[id];
    w.(hosts := Credited(w.hosts, a.hostID, a.cpuCores, a.ramGB), allocations := w.allocations - {id})
  }

  function Credited(hosts: Table, id: string, cpu: int, ram: int): Table {
    if id in hosts then hosts[id := Refund(hosts[id], cpu, ram)] else hosts
  }

  lemma DropKeepsInv(w: World, id: nat)
    requires Inv(w) && id in w.allocations
    ensures Inv(Drop(w, id))
  {
    ReleaseIsExact(w, id);
    var w' := Drop(w, id);
    forall h | h in w'.hosts
      ensures Load(w'.hosts[h].allocatedCpu, w'.hosts[h].allocatedRam) == LoadOf(w'.allocations, h, w'.nextID)
    {
      LoadDrops(w.allocations, id, h, w.nextID);
    }
    CountersNonNegative(w');
  }

  function Normalized(d: Demand): Demand {
    d.(cpuCores := if d.cpuCores < 1 then 2 else d.cpuCores, ramGB := if d.ramGB < 1 then 4 else d.ramGB)
  }

  const PRIORITY_NORMAL := 2

  datatype EnqueueResult = Created(id: nat) | UserMissing | QueueFull

  function EnqueueOutcome(w: World, r: Request, maxQueueSize: int): EnqueueResult {
    if r.userID == "" then UserMissing else if |w.queue| >= maxQueueSize then QueueFull else Created(w.nextID)
  }

  /** The item that a request becomes: its place in line is counted from one. */
  function NewItem(w: World, r: Request): QueueItem {
    QueueItem(w.nextID, r.userID, Normalized(r.demand), if r.priority < 1 then PRIORITY_NORMAL else r.priority,
      |w.queue| + 1, Queued, "")
  }

  function Appended(w: World, item: QueueItem): World {
    w.(queue := w.queue + [item], nextID := w.nextID + 1)
  }

  function Enqueued(w: World, r: Request, maxQueueSize: int): World {
    if EnqueueOutcome(w, r, maxQueueSize).Created? then Appended(w, NewItem(w, r)) else w
  }

  lemma EnqueueKeepsInv(w: World, r: Request, maxQueueSize: int)
    requires Inv(w)
    ensures Inv(Enqueued(w, r, maxQueueSize))
  {
    var item := NewItem(w, r);
    assert w.nextID !in w.allocations;
    AppendedIsOrdered(w, item);
    AppendedIsHeld(w, item);
    hide AllocationsOk, QueueOk, TableOk;
  }

  lemma AppendedIsOrdered(w: World, item: QueueItem)
    requires QueueOk(w.queue, w.nextID) && item.id == w.nextID && Wellformed(item.demand)
    ensures QueueOk(Appended(w, item).queue, w.nextID + 1)
  {
  }

  lemma AppendedIsHeld(w: World, item: QueueItem)
    requires AllocationsOk(w)
    ensures AllocationsOk(Appended(w, item))
  {
    var q := w.queue + [item];
    forall id | id in w.allocations ensures Holds(q, id) {
      var i :| 0 <= i < |w.queue| && w.queue[i].id == id && w.queue[i].status == Allocated;
      assert q[i] == w.queue[i];
    }
  }

  /** The queue without the item at position i. */
  function Removed(w: World, i: nat): World
    requires i < |w.queue|
  {
    var id := w.queue[i].id;
    var w1 := w.(queue := w.queue[..i] + w.queue[i + 1..]);
    if id in w.allocations then Drop(w1, id) else w1
  }

  lemma UnqueueKeepsOrder(q: seq<QueueItem>, nextID: nat, i: nat)
    requires QueueOk(q, nextID) && i < |q|
    ensures QueueOk(q[..i] + q[i + 1..], nextID)
  {
    hide Wellformed;
    var r := q[..i] + q[i + 1..];
    assert forall j :: 0 <= j < |r| ==> r[j] == q[if j < i then j else j + 1];
  }

  lemma UnqueueKeepsInv(w: World, i: nat)
    requires Inv(w) && i < |w.queue| && w.queue[i].id !in w.allocations
    ensures Inv(w.(queue := w.queue[..i] + w.queue[i + 1..]))
  {
    var q := w.queue[..i] + w.queue[i + 1..];
    UnqueueKeepsOrder(w.queue, w.nextID, i);
    hide QueueOk, LoadOf;
    forall k | k in w.allocations ensures Holds(q, k) {
      var j :| 0 <= j < |w.queue| && w.queue[j].id == k && w.queue[j].status == Allocated;
      assert q[if j < i then j else j - 1] == w.queue[j];
    }
  }

  lemma RemoveKeepsInv(w: World, i: nat)
    requires Inv(w) && i < |w.queue|
    ensures Inv(Removed(w, i))
  {
    hide Inv;
    if w.queue[i].id in w.allocations {
      DropKeepsInv(w, w.queue[i].id);
      UnqueueKeepsInv(Drop(w, w.queue[i].id), i);
    } else {
      UnqueueKeepsInv(w, i);
    }
  }

  // ------------------------------------------------------------------------ the allocation loop

  /** h scores highest among the available hosts, and above zero. */
  ghost predicate IsBest(d: Demand, hosts: Table, avail: set<string>, h: string)
    requires avail <= hosts.Keys
  {
    && h in avail && ScoreHost(d, hosts[h]) > 0.0
    && forall o :: o in avail ==> ScoreHost(d, hosts[o]) <= ScoreHost(d, hosts[h])
  }

  ghost predicate NoneScores(d: Demand, hosts: Table, avail: set<string>)
    requires avail <= hosts.Keys
  {
    forall o :: o in avail ==> ScoreHost(d, hosts[o]) == 0.0
  }

  function Placed(w: World, i: nat, h: string, expiresAt: int): World
    requires i < |w.queue| && h in w.hosts
  {
    var item := w.queue[i];
    w.(hosts := w.hosts[h := Charge(w.hosts[h], item.demand.cpuCores, item.demand.ramGB)],
       queue := w.queue[i := item.(status := Allocated, assignedHost := h)],
       allocations := w.allocations[item.id :=
         Allocation(item.userID, h, item.demand.cpuCores, item.demand.ramGB, expiresAt)])
  }

  /** One round of the loop over the queue: a queued item goes to a best host, if any scores. */
  ghost predicate Round(w: World, i: nat, avail: set<string>, expiresAt: int, w': World)
    requires avail <= w.hosts.Keys && i < |w.queue|
  {
    var item := w.queue[i];
    || ((item.status != Queued || NoneScores(item.demand, w.hosts, avail)) && w' == w)
    || (item.status == Queued && exists h :: IsBest(item.demand, w.hosts, avail, h) && w' == Placed(w, i, h, expiresAt))
  }

  lemma QueuedIsUnallocated(w: World, i: nat)
    requires Inv(w) && i < |w.queue| && w.queue[i].status == Queued
    ensures w.queue[i].id !in w.allocations
  {
  }

  /** A host that scores has room, so the manager's Allocate never refuses it. */
  lemma BestHostHasRoom(d: Demand, hosts: Table, avail: set<string>, h: string)
    requires avail <= hosts.Keys && IsBest(d, hosts, avail, h)
    ensures Fits(hosts[h], d.cpuCores, d.ramGB)
  {
  }

  lemma PlacedIsHeld(w: World, i: nat, h: string, expiresAt: int)
    requires QueueOk(w.queue, w.nextID) && AllocationsOk(w) && i < |w.queue| && h in w.hosts && w.queue[i].status == Queued
    ensures AllocationsOk(Placed(w, i, h, expiresAt)) && QueueOk(Placed(w, i, h, expiresAt).queue, w.nextID)
  {
    var w', item := Placed(w, i, h, expiresAt), w.queue[i];
    forall id | id in w'.allocations ensures Holds(w'.queue, id) {
      if id == item.id {
        assert w'.queue[i].id == id;
      } else {
        var j :| 0 <= j < |w.queue| && w.queue[j].id == id && w.queue[j].status == Allocated;
        assert w'.queue[j] == w.queue[j];
      }
    }
  }

  lemma PlacedIsConserved(w: World, i: nat, h: string, expiresAt: int)
    requires Conserved(w) && i < |w.queue| && h in w.hosts && w.queue[i].id !in w.allocations && w.queue[i].id < w.nextID
    ensures Conserved(Placed(w, i, h, expiresAt))
  {
    var w', item := Placed(w, i, h, expiresAt), w.queue[i];
    forall o | o in w'.hosts
      ensures Load(w'.hosts[o].allocatedCpu, w'.hosts[o].allocatedRam) == LoadOf(w'.allocations, o, w'.nextID)
    {
      LoadAdds(w.allocations, item.id, w'.allocations[item.id], o, w.nextID);
    }
  }

  lemma PlacingKeepsInv(w: World, i: nat, h: string, expiresAt: int)
    requires Inv(w) && i < |w.queue| && h in w.hosts && w.queue[i].status == Queued
    ensures Inv(Placed(w, i, h, expiresAt))
  {
    QueuedIsUnallocated(w, i);
    PlacedIsHeld(w, i, h, expiresAt);
    PlacedIsConserved(w, i, h, expiresAt);
    hide Conserved, Holds;
    CountersNonNegative(Placed(w, i, h, expiresAt));
  }

  lemma RoundKeepsInv(w: World, i: nat, avail: set<string>, expiresAt: int, w': World)
    requires Inv(w) && avail <= w.hosts.Keys && i < |w.queue| && Round(w, i, avail, expiresAt, w')
    ensures Inv(w') && w'.hosts.Keys == w.hosts.Keys && |w'.queue| == |w.queue|
  {
    if w' != w {
      var h :| IsBest(w.queue[i].demand, w.hosts, avail, h) && w' == Placed(w, i, h, expiresAt);
      PlacingKeepsInv(w, i, h, expiresAt);
    }
  }

  /** The first rounds of the loop: ws[i] is the state before round i. */
  ghost predicate FirstRounds(ws: seq<World>, avail: set<string>, expiresAt: int) {
    && 1 <= |ws| <= |ws[0].queue| + 1
    && forall i :: 0 <= i < |ws| ==>
         && avail <= ws[i].hosts.Keys && |ws[i].queue| == |ws[0].queue|
         && (i + 1 < |ws| ==> Round(ws[i], i, avail, expiresAt, ws[i + 1]))
  }

  /** The whole loop. */
  ghost predicate Rounds(ws: seq<World>, avail: set<string>, expiresAt: int) {
    FirstRounds(ws, avail, expiresAt) && |ws| == |ws[0].queue| + 1
  }

  lemma OneMoreRound(ws: seq<World>, avail: set<string>, expiresAt: int, w': World)
    requires FirstRounds(ws, avail, expiresAt) && |ws| <= |ws[0].queue|
    requires Round(ws[|ws| - 1], |ws| - 1, avail, expiresAt, w')
    ensures FirstRounds(ws + [w'], avail, expiresAt)
  {
    var ws' := ws + [w'];
    forall i | 0 <= i < |ws|
      ensures ws'[i] == ws[i] && Round(ws'[i], i, avail, expiresAt, ws'[i + 1])
    {
    }
    assert w'.hosts.Keys == ws[|ws| - 1].hosts.Keys && |w'.queue| == |ws[|ws| - 1].queue|;
  }

  lemma {:induction false} RoundsKeepInv(ws: seq<World>, avail: set<string>, expiresAt: int, i: nat)
    requires Rounds(ws, avail, expiresAt) && Inv(ws[0]) && i < |ws|
    ensures Inv(ws[i])
  {
    hide Inv, Round;
    if i > 0 {
      RoundsKeepInv(ws, avail, expiresAt, i - 1);
      RoundKeepsInv(ws[i - 1], i - 1, avail, expiresAt, ws[i]);
    }
  }

  /** What one round leaves of every other item, and of every host's other fields. */
  lemma RoundOnlyAdds(w: World, i: nat, avail: set<string>, expiresAt: int, w': World)
    requires Inv(w) && avail <= w.hosts.Keys && i < |w.queue| && Round(w, i, avail, expiresAt, w')
    ensures |w'.queue| == |w.queue| && w'.hosts.Keys == w.hosts.Keys
    ensures forall j :: 0 <= j < |w.queue| && j != i ==> w'.queue[j] == w.queue[j]
    ensures forall h :: h in w.hosts ==>
      && w.hosts[h].allocatedCpu <= w'.hosts[h].allocatedCpu && w.hosts[h].allocatedRam <= w'.hosts[h].allocatedRam
      && w'.hosts[h] == w.hosts[h].(allocatedCpu := w'.hosts[h].allocatedCpu, allocatedRam := w'.hosts[h].allocatedRam)
  {
    if w' != w {
      var h :| IsBest(w.queue[i].demand, w.hosts, avail, h) && w' == Placed(w, i, h, expiresAt);
    }
  }

  lemma RoundAt(ws: seq<World>, avail: set<string>, expiresAt: int, i: nat)
    requires Rounds(ws, avail, expiresAt) && i + 1 < |ws|
    ensures avail <= ws[i].hosts.Keys && i < |ws[0].queue| == |ws[i].queue| == |ws[i + 1].queue|
    ensures Round(ws[i], i, avail, expiresAt, ws[i + 1])
  {
    hide Round;
  }

  lemma HopelessStep(w: World, i: nat, avail: set<string>, expiresAt: int, w': World, d: Demand)
    requires Inv(w) && avail <= w.hosts.Keys && i < |w.queue| && Round(w, i, avail, expiresAt, w')
    requires Wellformed(d) && NoneScores(d, w.hosts, avail)
    ensures w'.hosts.Keys == w.hosts.Keys && NoneScores(d, w'.hosts, avail)
  {
    RoundOnlyAdds(w, i, avail, expiresAt, w');
    hide Round, ScoreHost;
    forall o | o in avail ensures ScoreHost(d, w'.hosts[o]) == 0.0 {
      ScoreFallsWithLoad(d, w.hosts[o], w'.hosts[o]);
    }
  }

  lemma {:induction false} HopelessStaysHopeless(ws: seq<World>, avail: set<string>, expiresAt: int, d: Demand,
          i: nat, j: nat)
    requires Rounds(ws, avail, expiresAt) && Inv(ws[0]) && Wellformed(d) && i <= j < |ws| && NoneScores(d, ws[i].hosts, avail)
    ensures NoneScores(d, ws[j].hosts, avail)
  {
    hide Round, Rounds, NoneScores, Inv, Wellformed;
    if i < j {
      HopelessStaysHopeless(ws, avail, expiresAt, d, i, j - 1);
      RoundsKeepInv(ws, avail, expiresAt, j - 1);
      RoundAt(ws, avail, expiresAt, j - 1);
      HopelessStep(ws[j - 1], j - 1, avail, expiresAt, ws[j], d);
    }
  }

  lemma OtherItemStays(w: World, i: nat, avail: set<string>, expiresAt: int, w': World, k: nat)
    requires Inv(w) && avail <= w.hosts.Keys && i < |w.queue| && Round(w, i, avail, expiresAt, w')
    requires k < |w.queue| && k != i
    ensures k < |w'.queue| && w'.queue[k] == w.queue[k]
  {
    RoundOnlyAdds(w, i, avail, expiresAt, w');
  }

  /** From after round i to round j - 1, and no farther, no round but its own touches an item. */
  lemma {:induction false} ItemUntouched(ws: seq<World>, avail: set<string>, expiresAt: int, k: nat, i: nat, j: nat)
    requires Rounds(ws, avail, expiresAt) && Inv(ws[0]) && i <= j < |ws| && k < |ws[0].queue| && (k < i || j <= k)
    ensures ws[j].queue[k] == ws[i].queue[k]
  {
    hide Round, Rounds, Inv;
    if i < j {
      ItemUntouched(ws, avail, expiresAt, k, i, j - 1);
      RoundsKeepInv(ws, avail, expiresAt, j - 1);
      RoundAt(ws, avail, expiresAt, j - 1);
      OtherItemStays(ws[j - 1], j - 1, avail, expiresAt, ws[j], k);
    }
  }

  /** Work conservation: an item that is still queued when the loop ends scores zero on every
      host the cycle considered, with the loads as they are at the end. */
  lemma WorkConservation(ws: seq<World>, avail: set<string>, expiresAt: int, k: nat)
    requires Rounds(ws, avail, expiresAt) && Inv(ws[0]) && k < |ws[0].queue|
    requires ws[|ws| - 1].queue[k].status == Queued
    ensures NoneScores(ws[|ws| - 1].queue[k].demand, ws[|ws| - 1].hosts, avail)
  {
    ItemUntouched(ws, avail, expiresAt, k, k + 1, |ws| - 1);
    RoundsKeepInv(ws, avail, expiresAt, k);
    assert Round(ws[k], k, avail, expiresAt, ws[k + 1]);
    HopelessStaysHopeless(ws, avail, expiresAt, ws[k].queue[k].demand, k, |ws| - 1);
  }

  /** An item that the loop placed went to a host of maximal score at its turn. */
  lemma PlacedOnBest(ws: seq<World>, avail: set<string>, expiresAt: int, k: nat)
    requires Rounds(ws, avail, expiresAt) && Inv(ws[0]) && k < |ws[0].queue|
    requires ws[0].queue[k].status == Queued && ws[|ws| - 1].queue[k].status == Allocated
    ensures ws[k].queue[k] == ws[0].queue[k]
    ensures IsBest(ws[0].queue[k].demand, ws[k].hosts, avail, ws[|ws| - 1].queue[k].assignedHost)
  {
    ItemUntouched(ws, avail, expiresAt, k, 0, k);
    ItemUntouched(ws, avail, expiresAt, k, k + 1, |ws| - 1);
    RoundsKeepInv(ws, avail, expiresAt, k);
    assert Round(ws[k], k, avail, expiresAt, ws[k + 1]);
  }

  // ------------------------------------------------------------------------------------ expiry

  function Unexpired(allocs: map<nat, Allocation>, now: int): map<nat, Allocation> {
    map id | id in allocs && now <= allocs[id].expiresAt :: allocs[id]
  }

  /** The host table whose counters add up the allocations in allocs. */
  function Settled(hosts: Table, allocs: map<nat, Allocation>, n: nat): Table {
    map h | h in hosts ::
      hosts[h].(allocatedCpu := LoadOf(allocs, h, n).cpu, allocatedRam := LoadOf(allocs, h, n).ram)
  }

  function WithAllocations(w: World, allocs: map<nat, Allocation>): World {
    w.(hosts := Settled(w.hosts, allocs, w.nextID), allocations := allocs)
  }

  function CleanedUp(w: World, now: int): World {
    WithAllocations(w, Unexpired(w.allocations, now))
  }

  /** What is left after the sweep has visited all IDs but those in todo. */
  function Pending(allocs: map<nat, Allocation>, now: int, todo: set<nat>): map<nat, Allocation> {
    map id | id in allocs && (id in todo || now <= allocs[id].expiresAt) :: allocs[id]
  }

  lemma PendingShrinks(allocs: map<nat, Allocation>, now: int, todo: set<nat>, id: nat)
    requires id in allocs
    requires id !in todo
    ensures Pending(allocs, now, todo) ==
      if now <= allocs[id].expiresAt then Pending(allocs, now, todo + {id})
      else Pending(allocs, now, todo + {id}) - {id}
    ensures id in Pending(allocs, now, todo + {id}) && Pending(allocs, now, todo + {id})[id] == allocs[id]
  {
  }

  lemma AllPending(allocs: map<nat, Allocation>, now: int)
    ensures Pending(allocs, now, allocs.Keys) == allocs
  {
  }

  lemma NothingPending(allocs: map<nat, Allocation>, now: int)
    ensures Pending(allocs, now, {}) == Unexpired(allocs, now)
  {
  }

  lemma InvIsSettled(w: World)
    requires Inv(w)
    ensures WithAllocations(w, w.allocations) == w
  {
    assert Settled(w.hosts, w.allocations, w.nextID) == w.hosts;
  }

  lemma DropSettles(w: World, id: nat)
    requires Inv(w) && id in w.allocations
    ensures Drop(w, id) == WithAllocations(w, w.allocations - {id})
  {
    DropKeepsInv(w, id);
    var w' := Drop(w, id);
    assert w'.hosts == Settled(w.hosts, w.allocations - {id}, w.nextID);
  }

  lemma FewerAllocationsKeepInv(w: World, allocs: map<nat, Allocation>)
    requires Inv(w) && forall id :: id in allocs ==> id in w.allocations && allocs[id] == w.allocations[id]
    ensures Inv(WithAllocations(w, allocs))
  {
    CountersNonNegative(WithAllocations(w, allocs));
  }

  // -------------------------------------------------------------------------------- whole runs

  function AvailableHosts(hosts: Table, now: int): set<string> {
    set h | h in hosts && Available(hosts[h], now)
  }

  /** The rounds of the loop over the queue, and then the expiry of old allocations. */
  ghost predicate Ran(w: World, avail: set<string>, expiresAt: int, later: int, w': World) {
    exists ws: seq<World> :: Rounds(ws, avail, expiresAt) && ws[0] == w && w' == CleanedUp(ws[|ws| - 1], later)
  }

  /** One scheduleCycle: nothing when the queue or the host list is empty; else the loop, then expiry. */
  ghost predicate Cycle(w: World, now: int, expiresAt: int, later: int, w': World) {
    var avail := AvailableHosts(w.hosts, now);
    if w.queue == [] || avail == {} then w' == w else Ran(w, avail, expiresAt, later, w')
  }

  lemma CycleKeepsInv(w: World, now: int, expiresAt: int, later: int, w': World)
    requires Inv(w) && Cycle(w, now, expiresAt, later, w')
    ensures Inv(w')
  {
    var avail := AvailableHosts(w.hosts, now);
    if w' != w {
      var ws: seq<World> :| Rounds(ws, avail, expiresAt) && ws[0] == w && w' == CleanedUp(ws[|ws| - 1], later);
      RoundsKeepInv(ws, avail, expiresAt, |ws| - 1);
      hide Inv, Rounds;
      FewerAllocationsKeepInv(ws[|ws| - 1], Unexpired(ws[|ws| - 1].allocations, later));
    }
  }

  function Registered(w: World, id: string, info: HostInfo, now: int): World {
    w.(hosts := w.hosts[id := info.(online := true, lastHeartbeat := now)])
  }

  function LiveLoad(w: World, id: string): Load {
    LoadOf(w.allocations, id, w.nextID)
  }

  /** Registering a host keeps the books balanced exactly when the record that comes in already
      carries the load of that ID's live allocations; for an ID without any, that is zero. */
  lemma RegisterKeepsInvIff(w: World, id: string, info: HostInfo, now: int)
    requires Inv(w)
    ensures Inv(Registered(w, id, info, now)) <==> Load(info.allocatedCpu, info.allocatedRam) == LiveLoad(w, id)
    ensures id !in w.hosts ==> LiveLoad(w, id) == Load(0, 0)
  {
    var w' := Registered(w, id, info, now);
    if Load(info.allocatedCpu, info.allocatedRam) == LiveLoad(w, id) {
      CountersNonNegative(w');
    } else {
      assert w'.hosts[id].allocatedCpu == info.allocatedCpu && w'.hosts[id].allocatedRam == info.allocatedRam;
    }
    if id !in w.hosts {
      NoLoadWithoutHost(w, id, w.nextID);
    }
  }

  lemma {:induction false} NoLoadWithoutHost(w: World, id: string, n: nat)
    requires AllocationsOk(w) && id !in w.hosts
    ensures LoadOf(w.allocations, id, n) == Load(0, 0)
  {
    if n > 0 { NoLoadWithoutHost(w, id, n - 1); }
  }

  /** A change of host records that leaves the counters alone: heartbeats, hosts going offline. */
  ghost predicate CountersKept(hosts: Table, hosts': Table) {
    && hosts'.Keys == hosts.Keys
    && forall h :: h in hosts ==>
         hosts'[h].allocatedCpu == hosts[h].allocatedCpu && hosts'[h].allocatedRam == hosts[h].allocatedRam
  }

  datatype Event =
    | Enqueue(request: Request, maxQueueSize: int)
    | Dequeue(position: nat)
    | RunCycle(now: int, expiresAt: int, later: int)
    | Register(hostID: string, info: HostInfo, now: int)
    | Touch

  ghost predicate Next(w: World, e: Event, w': World)
  {
    match e
    case Enqueue(r, maxQueueSize) => w' == Enqueued(w, r, maxQueueSize)
    case Dequeue(i) => i < |w.queue| && w' == Removed(w, i)
    case RunCycle(now, expiresAt, later) => Cycle(w, now, expiresAt, later, w')
    case Register(id, info, now) =>
      id !in w.hosts && info.allocatedCpu == 0 && info.allocatedRam == 0 && w' == Registered(w, id, info, now)
    case Touch => CountersKept(w.hosts, w'.hosts) && w' == w.(hosts := w'.hosts)
  }

  const EMPTY_WORLD := World(map[], [], map[], 1)

  ghost predicate History(ws: seq<World>, es: seq<Event>) {
    && |ws| == |es| + 1
    && ws[0] == EMPTY_WORLD
    && forall i :: 0 <= i < |es| ==> Next(ws[i], es[i], ws[i + 1])
  }

  lemma NextKeepsInv(w: World, e: Event, w': World)
    requires Inv(w) && Next(w, e, w')
    ensures Inv(w')
  {
    match e
    case Enqueue(r, maxQueueSize) => EnqueueKeepsInv(w, r, maxQueueSize);
    case Dequeue(i) => RemoveKeepsInv(w, i);
    case RunCycle(now, expiresAt, later) => CycleKeepsInv(w, now, expiresAt, later, w');
    case Register(id, info, now) => RegisterKeepsInvIff(w, id, info, now);
    case Touch => CountersNonNegative(w');
  }

  /** Over every history: each host's counters equal the sums over its live allocations, every
      live allocation belongs to an item still in the queue and to a known host, and no counter
      is negative. */
  lemma {:induction false} BooksBalance(ws: seq<World>, es: seq<Event>, i: nat)
    requires History(ws, es) && i < |ws|
    ensures Inv(ws[i])
  {
    if i > 0 {
      BooksBalance(ws, es, i - 1);
      hide Inv, Next;
      NextKeepsInv(ws[i - 1], es[i - 1], ws[i]);
    }
  }

  /** id had its allocation and will not get another. */
  ghost predicate Spent(w: World, id: nat) {
    && id < w.nextID && id !in w.allocations
    && forall i :: 0 <= i < |w.queue| && w.queue[i].id == id ==> w.queue[i].status == Allocated
  }

  lemma RoundKeepsSpent(w: World, i: nat, avail: set<string>, expiresAt: int, w': World, id: nat)
    requires avail <= w.hosts.Keys && i < |w.queue| && Round(w, i, avail, expiresAt, w') && Spent(w, id)
    ensures Spent(w', id)
  {
    if w' != w {
      var h :| IsBest(w.queue[i].demand, w.hosts, avail, h) && w' == Placed(w, i, h, expiresAt);
    }
  }

  lemma {:induction false} RoundsKeepSpent(ws: seq<World>, avail: set<string>, expiresAt: int, i: nat, id: nat)
    requires Rounds(ws, avail, expiresAt) && i < |ws| && Spent(ws[0], id)
    ensures Spent(ws[i], id)
  {
    hide Spent, Round;
    if i > 0 {
      RoundsKeepSpent(ws, avail, expiresAt, i - 1, id);
      RoundKeepsSpent(ws[i - 1], i - 1, avail, expiresAt, ws[i], id);
    }
  }

  lemma CycleKeepsSpent(w: World, now: int, expiresAt: int, later: int, w': World, id: nat)
    requires Cycle(w, now, expiresAt, later, w') && Spent(w, id)
    ensures Spent(w', id)
  {
    var avail := AvailableHosts(w.hosts, now);
    if w' != w {
      var ws: seq<World> :| Rounds(ws, avail, expiresAt) && ws[0] == w && w' == CleanedUp(ws[|ws| - 1], later);
      RoundsKeepSpent(ws, avail, expiresAt, |ws| - 1, id);
    }
  }

  lemma NextKeepsSpent(w: World, e: Event, w': World, id: nat)
    requires Next(w, e, w') && Spent(w, id)
    ensures Spent(w', id)
  {
    match e
    case RunCycle(now, expiresAt, later) => CycleKeepsSpent(w, now, expiresAt, later, w', id);
    case _ =>
  }

  lemma {:induction false} RoundsKeepAllocations(ws: seq<World>, avail: set<string>, expiresAt: int, i: nat, id: nat)
    requires Rounds(ws, avail, expiresAt) && Inv(ws[0]) && i < |ws| && id in ws[0].allocations
    ensures id in ws[i].allocations && ws[i].allocations[id] == ws[0].allocations[id]
  {
    hide Inv;
    if i > 0 {
      RoundsKeepAllocations(ws, avail, expiresAt, i - 1, id);
      RoundsKeepInv(ws, avail, expiresAt, i - 1);
      if ws[i - 1].queue[i - 1].status == Queued { QueuedIsUnallocated(ws[i - 1], i - 1); }
      assert Round(ws[i - 1], i - 1, avail, expiresAt, ws[i]);
    }
  }

  /** Expiry waits for capacity: a cycle releases an expired allocation if and only if some host
      is available when the cycle starts. While every host is full, nothing expires. */
  lemma ExpiryNeedsAnAvailableHost(w: World, now: int, expiresAt: int, later: int, w': World, id: nat)
    requires Inv(w) && Cycle(w, now, expiresAt, later, w')
    requires id in w.allocations && later > w.allocations[id].expiresAt
    ensures id !in w'.allocations <==> AvailableHosts(w.hosts, now) != {}
  {
    var avail := AvailableHosts(w.hosts, now);
    if avail != {} {
      assert Holds(w.queue, id);
      var ws: seq<World> :| Rounds(ws, avail, expiresAt) && ws[0] == w && w' == CleanedUp(ws[|ws| - 1], later);
      RoundsKeepAllocations(ws, avail, expiresAt, |ws| - 1, id);
    }
  }

  lemma ReleasedIsSpent(w: World, e: Event, w': World, id: nat)
    requires Inv(w) && Next(w, e, w') && id in w.allocations && id !in w'.allocations
    ensures Spent(w', id)
  {
    if e.RunCycle? {
      ExpiryIsSpent(w, e.now, e.expiresAt, e.later, w', id);
    } else {
      LiveIsHeld(w, id);
      hide Inv;
    }
  }

  lemma ExpiryIsSpent(w: World, now: int, expiresAt: int, later: int, w': World, id: nat)
    requires Inv(w) && Cycle(w, now, expiresAt, later, w') && id in w.allocations && id !in w'.allocations
    ensures Spent(w', id)
  {
    var avail := AvailableHosts(w.hosts, now);
    var ws: seq<World> :| Rounds(ws, avail, expiresAt) && ws[0] == w && w' == CleanedUp(ws[|ws| - 1], later);
    assert |ws| >= 1;
    hide Inv, Rounds, Spent, CleanedUp, AvailableHosts;
    var last := ws[|ws| - 1];
    RoundsKeepInv(ws, avail, expiresAt, |ws| - 1);
    RoundsKeepAllocations(ws, avail, expiresAt, |ws| - 1, id);
    LiveIsHeld(last, id);
    ExpiredIsSpent(last, later, id);
  }

  lemma ExpiredIsSpent(w: World, later: int, id: nat)
    requires id < w.nextID && id !in CleanedUp(w, later).allocations
    requires forall i :: 0 <= i < |w.queue| && w.queue[i].id == id ==> w.queue[i].status == Allocated
    ensures Spent(CleanedUp(w, later), id)
  {
  }

  lemma LiveIsHeld(w: World, id: nat)
    requires Inv(w) && id in w.allocations
    ensures id < w.nextID
    ensures forall i :: 0 <= i < |w.queue| && w.queue[i].id == id ==> w.queue[i].status == Allocated
  {
  }

  /** Every allocation is released at most once: after its ID has left the live allocations it
      never comes back, whatever happens. */
  lemma {:induction false} ReleasedOnce(ws: seq<World>, es: seq<Event>, i: nat, j: nat, k: nat, id: nat)
    requires History(ws, es) && i <= j <= k < |ws|
    requires id in ws[i].allocations && id !in ws[j].allocations
    ensures id !in ws[k].allocations
  {
    hide Inv, Next, Spent;
    var m := FirstGone(ws, i, j, id);
    BooksBalance(ws, es, m);
    ReleasedIsSpent(ws[m], es[m], ws[m + 1], id);
    SpentForever(ws, es, m + 1, k, id);
    SpentIsGone(ws[k], id);
  }

  lemma SpentIsGone(w: World, id: nat)
    requires Spent(w, id)
    ensures id !in w.allocations
  {
  }

  lemma {:induction false} FirstGone(ws: seq<World>, i: nat, j: nat, id: nat) returns (m: nat)
    requires i <= j < |ws| && id in ws[i].allocations && id !in ws[j].allocations
    ensures i <= m < j && id in ws[m].allocations && id !in ws[m + 1].allocations
    decreases j
  {
    if id in ws[j - 1].allocations { m := j - 1; } else { m := FirstGone(ws, i, j - 1, id); }
  }

  lemma {:induction false} SpentForever(ws: seq<World>, es: seq<Event>, i: nat, k: nat, id: nat)
    requires History(ws, es) && i <= k < |ws| && Spent(ws[i], id)
    ensures Spent(ws[k], id)
  {
    hide Inv, Next, Spent;
    if i < k {
      SpentForever(ws, es, i, k - 1, id);
      NextKeepsSpent(ws[k - 1], es[k - 1], ws[k], id);
    }
  }

  // ------------------------------------------------------------------------------------ capacity

  ghost predicate WithinCapacity(hosts: Table) {
    forall h :: h in hosts ==> hosts[h].allocatedCpu <= hosts[h].cpuCores && hosts[h].allocatedRam <= hosts[h].ramGB
  }

  lemma RoundKeepsCapacity(w: World, i: nat, avail: set<string>, expiresAt: int, w': World)
    requires avail <= w.hosts.Keys && i < |w.queue| && Round(w, i, avail, expiresAt, w') && WithinCapacity(w.hosts)
    ensures WithinCapacity(w'.hosts)
  {
    if w' != w {
      var h :| IsBest(w.queue[i].demand, w.hosts, avail, h) && w' == Placed(w, i, h, expiresAt);
      BestHostHasRoom(w.queue[i].demand, w.hosts, avail, h);
    }
  }

  lemma {:induction false} RoundsKeepCapacity(ws: seq<World>, avail: set<string>, expiresAt: int, i: nat)
    requires Rounds(ws, avail, expiresAt) && i < |ws| && WithinCapacity(ws[0].hosts)
    ensures WithinCapacity(ws[i].hosts)
  {
    hide WithinCapacity, Round, Rounds;
    if i > 0 {
      RoundsKeepCapacity(ws, avail, expiresAt, i - 1);
      RoundAt(ws, avail, expiresAt, i - 1);
      RoundKeepsCapacity(ws[i - 1], i - 1, avail, expiresAt, ws[i]);
    }
  }

  lemma {:induction false} FewerWeighLess(m: map<nat, Allocation>, m': map<nat, Allocation>, host: string, n: nat)
    requires forall id :: id in m' ==> id in m && m'[id] == m[id]
    requires forall id :: id in m ==> m[id].cpuCores >= 1 && m[id].ramGB >= 1
    ensures LoadOf(m', host, n).cpu <= LoadOf(m, host, n).cpu && LoadOf(m', host, n).ram <= LoadOf(m, host, n).ram
  {
    if n > 0 { FewerWeighLess(m, m', host, n - 1); }
  }

  lemma CleaningKeepsCapacity(w: World, later: int)
    requires Inv(w) && WithinCapacity(w.hosts)
    ensures WithinCapacity(CleanedUp(w, later).hosts)
  {
    forall h | h in w.hosts
      ensures LoadOf(Unexpired(w.allocations, later), h, w.nextID).cpu <= w.hosts[h].allocatedCpu
      ensures LoadOf(Unexpired(w.allocations, later), h, w.nextID).ram <= w.hosts[h].allocatedRam
    {
      FewerWeighLess(w.allocations, Unexpired(w.allocations, later), h, w.nextID);
    }
    hide LoadOf, Unexpired;
  }

  lemma RemovingKeepsCapacity(w: World, i: nat)
    requires Inv(w) && WithinCapacity(w.hosts) && i < |w.queue|
    ensures WithinCapacity(Removed(w, i).hosts)
  {
    if w.queue[i].id in w.allocations { ReleaseIsExact(w, w.queue[i].id); }
    hide Conserved, QueueOk;
  }

  /** Neither the queue nor a cycle takes a host beyond its capacity. */
  lemma NextKeepsCapacity(w: World, e: Event, w': World)
    requires Inv(w) && Next(w, e, w') && WithinCapacity(w.hosts) && !e.Touch? && !e.Register?
    ensures WithinCapacity(w'.hosts)
  {
    if e.RunCycle? {
      if w' != w {
        var avail := AvailableHosts(w.hosts, e.now);
        var ws: seq<World> :| Rounds(ws, avail, e.expiresAt) && ws[0] == w && w' == CleanedUp(ws[|ws| - 1], e.later);
        assert |ws| >= 1;
        hide Inv, Rounds, CleanedUp, AvailableHosts, WithinCapacity;
        RoundsKeepCapacity(ws, avail, e.expiresAt, |ws| - 1);
        RoundsKeepInv(ws, avail, e.expiresAt, |ws| - 1);
        CleaningKeepsCapacity(ws[|ws| - 1], e.later);
      }
    } else if e.Dequeue? {
      hide Inv, WithinCapacity;
      RemovingKeepsCapacity(w, e.position);
    }
  }

  /** Over every history, no host is ever given away beyond its capacity if and only if no change of
      the host records themselves, a heartbeat or a registration, puts one there. */
  lemma CapacityHoldsExactly(ws: seq<World>, es: seq<Event>)
    requires History(ws, es)
    ensures (forall i :: 0 <= i < |ws| ==> WithinCapacity(ws[i].hosts))
      <==> forall i :: 0 <= i < |es| && (es[i].Touch? || es[i].Register?) ==> WithinCapacity(ws[i + 1].hosts)
  {
    hide WithinCapacity, Next;
    if forall i :: 0 <= i < |es| && (es[i].Touch? || es[i].Register?) ==> WithinCapacity(ws[i + 1].hosts) {
      forall i | 0 <= i < |ws| ensures WithinCapacity(ws[i].hosts) {
        CapacityHolds(ws, es, i);
      }
    }
  }

  lemma {:induction false} CapacityHolds(ws: seq<World>, es: seq<Event>, i: nat)
    requires History(ws, es) && i < |ws|
    requires forall j :: 0 <= j < |es| && (es[j].Touch? || es[j].Register?) ==> WithinCapacity(ws[j + 1].hosts)
    ensures WithinCapacity(ws[i].hosts)
  {
    hide Inv, Next;
    if i > 0 {
      hide WithinCapacity;
      CapacityHolds(ws, es, i - 1);
      BooksBalance(ws, es, i - 1);
      if !es[i - 1].Touch? && !es[i - 1].Register? {
        NextKeepsCapacity(ws[i - 1], es[i - 1], ws[i]);
      }
    }
  }

  // ------------------------------------------------------------------- an allocation outlives its time

  const SMALL_HOST := HostInfo(1, 1, 0, 0, 0, 0, true, 0, 0, 0)

  const SMALL_DEMAND := Demand(1, 1, false, 0, 0)

  lemma SmallHostScores(h: HostInfo)
    requires h == SMALL_HOST.(lastHeartbeat := h.lastHeartbeat)
    ensures ScoreHost(SMALL_DEMAND, h) > 0.0
  {
    assert Quotient(1, 1) == 1.0 && Quotient(0, 1) == 0.0;
    assert StaticScore(SMALL_DEMAND, h) == 100.0;
  }

  lemma OneRound(w: World, avail: set<string>, expiresAt: int, later: int, w': World)
    requires |w.queue| == 1 && avail <= w.hosts.Keys && Round(w, 0, avail, expiresAt, w')
    requires |w'.queue| == 1 && avail <= w'.hosts.Keys && CleanedUp(w', later) == w'
    ensures Ran(w, avail, expiresAt, later, w')
  {
    hide Round, CleanedUp;
    var ws := [w, w'];
    assert Rounds(ws, avail, expiresAt);
  }

  /** One queued small item and one free small host: the cycle places the item and fills the host. */
  lemma SmallCycle(w: World, item: QueueItem, host: string, now: int, expiresAt: int, later: int)
    requires Inv(w) && w.queue == [item] && item.demand == SMALL_DEMAND && item.status == Queued
    requires w.hosts == map[host := SMALL_HOST.(lastHeartbeat := now)] && w.allocations == map[] && later <= expiresAt
    ensures Next(w, RunCycle(now, expiresAt, later), Placed(w, 0, host, expiresAt))
  {
    var avail, w' := AvailableHosts(w.hosts, now), Placed(w, 0, host, expiresAt);
    assert avail == {host};
    SmallHostScores(w.hosts[host]);
    assert IsBest(SMALL_DEMAND, w.hosts, avail, host);
    assert Round(w, 0, avail, expiresAt, w');
    PlacingKeepsInv(w, 0, host, expiresAt);
    InvIsSettled(w');
    assert Unexpired(w'.allocations, later) == w'.allocations;
    OneRound(w, avail, expiresAt, later, w');
  }

  lemma SmallHostIsFull(w: World, item: QueueItem, host: string, expiresAt: int, again: Event)
    requires w.queue == [item] && item.demand == SMALL_DEMAND && again.RunCycle?
    requires w.hosts.Keys == {host} && w.hosts[host].cpuCores == 1 && w.hosts[host].allocatedCpu == 0
    ensures var w' := Placed(w, 0, host, expiresAt);
      && Next(w', again, w')
      && item.id in w'.allocations && w'.allocations[item.id].expiresAt == expiresAt
  {
    assert AvailableHosts(Placed(w, 0, host, expiresAt).hosts, again.now) == {};
  }

  lemma FourSteps(ws: seq<World>, es: seq<Event>)
    requires |ws| == 5 && |es| == 4 && ws[0] == EMPTY_WORLD
    requires Next(ws[0], es[0], ws[1]) && Next(ws[1], es[1], ws[2])
    requires Next(ws[2], es[2], ws[3]) && Next(ws[3], es[3], ws[4])
    ensures History(ws, es)
  {
    hide Next;
  }

  lemma FirstSteps(host: string, r: Request, max: int, now: int) returns (w1: World, w2: World)
    requires r.userID != "" && r.demand == SMALL_DEMAND && max >= 1
    ensures Next(EMPTY_WORLD, Register(host, SMALL_HOST, now), w1) && Next(w1, Enqueue(r, max), w2)
    ensures Inv(w2) && |w2.queue| == 1 && w2.queue[0].id == 1
    ensures w2.queue[0].demand == SMALL_DEMAND && w2.queue[0].status == Queued
    ensures w2.hosts == map[host := SMALL_HOST.(lastHeartbeat := now)] && w2.allocations == map[]
  {
    w1 := Registered(EMPTY_WORLD, host, SMALL_HOST, now);
    w2 := Enqueued(w1, r, max);
    RegisterKeepsInvIff(EMPTY_WORLD, host, SMALL_HOST, now);
    EnqueueKeepsInv(w1, r, max);
  }

  /** A full host keeps an expired allocation: a host registers, an item that fills it is queued,
      one cycle places the item, and a later cycle, whenever it runs, leaves the expired allocation live. */
  lemma ExpiredAllocationLingers(host: string, user: string, max: int, now: int, expiresAt: int, later: int,
                                 again: Event)
      returns (ws: seq<World>, es: seq<Event>)
    requires |host| >= 8 && user != "" && max >= 1 && again.RunCycle? && later <= expiresAt < again.later
    ensures es == [Register(host, SMALL_HOST, now), Enqueue(Request(user, SMALL_DEMAND, 0), max),
                   RunCycle(now, expiresAt, later), again]
    ensures History(ws, es)
    ensures 1 in ws[4].allocations && again.later > ws[4].allocations[1].expiresAt
  {
    var w1, w2 := FirstSteps(host, Request(user, SMALL_DEMAND, 0), max, now);
    SmallCycle(w2, w2.queue[0], host, now, expiresAt, later);
    SmallHostIsFull(w2, w2.queue[0], host, expiresAt, again);
    hide *;
    var w3 := Placed(w2, 0, host, expiresAt);
    ws := [EMPTY_WORLD, w1, w2, w3, w3];
    es := [Register(host, SMALL_HOST, now), Enqueue(Request(user, SMALL_DEMAND, 0), max),
           RunCycle(now, expiresAt, later), again];
    FourSteps(ws, es);
  }

  // ---------------------------------------------------------------------------- the scheduler

  class Scheduler {
    const hostMgr: Manager
    const ttl: int
    const maxQueueSize: int
    var queue: seq<QueueItem>
    var nextID: nat
    var allocations: map<nat, Allocation>

    constructor (hostMgr: Manager, ttl: int, maxQueueSize: int)
      requires hostMgr.Valid() && hostMgr.Contents() == map[]
      ensures Valid() && State() == EMPTY_WORLD
      ensures this.hostMgr == hostMgr && this.ttl == ttl && this.maxQueueSize == maxQueueSize
    {
      this.hostMgr, this.ttl, this.maxQueueSize := hostMgr, ttl, maxQueueSize;
      queue, nextID, allocations := [], 1, map[];
    }

    ghost function State(): World
      reads this, hostMgr, hostMgr.hosts.Values
    {
      World(hostMgr.Contents(), queue, allocations, nextID)
    }

    ghost predicate Valid()
      reads this, hostMgr, hostMgr.hosts.Values
    {
      hostMgr.Valid() && Inv(State())
    }

    method Enqueue(r: Request) returns (outcome: EnqueueResult)
      requires Valid()
      modifies this`queue, this`nextID
      ensures Valid() && outcome == EnqueueOutcome(old(State()), r, maxQueueSize)
      ensures State() == Enqueued(old(State()), r, maxQueueSize)
      ensures outcome.UserMissing? <==> r.userID == ""
      ensures outcome.QueueFull? <==> r.userID != "" && |old(queue)| >= maxQueueSize
      ensures !outcome.Created? ==> queue == old(queue) && nextID == old(nextID)
      ensures outcome.Created? ==> outcome.id == old(nextID) < nextID && forall item :: item in old(queue) ==> item.id < outcome.id
      ensures outcome.Created? ==> queue == old(queue) + [
        QueueItem(outcome.id, r.userID,
          r.demand.(cpuCores := if r.demand.cpuCores >= 1 then r.demand.cpuCores else 2,
                    ramGB := if r.demand.ramGB >= 1 then r.demand.ramGB else 4),
          if r.priority >= 1 then r.priority else 2, |queue|, Queued, "")]
    {
      hide Inv;
      IDsAreUsed(State());
      EnqueueKeepsInv(State(), r, maxQueueSize);
      if r.userID == "" {
        return UserMissing;
      }
      var demand, priority := r.demand, r.priority;
      if demand.cpuCores < 1 {
        demand := demand.(cpuCores := 2);
      }
      if demand.ramGB < 1 {
        demand := demand.(ramGB := 4);
      }
      if priority < 1 {
        priority := PRIORITY_NORMAL;
      }
      if |queue| >= maxQueueSize {
        return QueueFull;
      }
      var id := nextID;
      nextID := nextID + 1;
      queue := queue + [QueueItem(id, r.userID, demand, priority, |queue| + 1, Queued, "")];
      assert hostMgr.Contents() == old(hostMgr.Contents());
      return Created(id);
    }

    /** Release the host of a live allocation and forget the allocation. */
    method ReleaseAllocation(id: nat)
      requires hostMgr.Valid() && id in allocations
      modifies this`allocations, hostMgr.hosts.Values
      ensures hostMgr.Valid() && hostMgr.hosts == old(hostMgr.hosts)
      ensures State() == Drop(old(State()), id)
    {
      var alloc := allocations[id];
      hostMgr.Release(alloc.hostID, alloc.cpuCores, alloc.ramGB);
      allocations := allocations - {id};
    }

    method Dequeue(id: nat) returns (removed: bool)
      requires Valid()
      modifies this, hostMgr.hosts.Values
      ensures Valid() && hostMgr.hosts == old(hostMgr.hosts)
      ensures removed <==> exists i :: 0 <= i < |old(queue)| && old(queue)[i].id == id
      ensures !removed ==> State() == old(State())
      ensures removed ==>
        exists i ::
          && 0 <= i < |old(queue)| && old(queue)[i].id == id
          && State() == Removed(old(State()), i) && queue == old(queue)[..i] + old(queue)[i + 1..]
      ensures removed ==> allocations == old(allocations) - {id}
      ensures nextID == old(nextID)
    {
      hide Inv;
      for i := 0 to |queue|
        invariant forall j :: 0 <= j < i ==> queue[j].id != id
        invariant State() == old(State()) && hostMgr.hosts == old(hostMgr.hosts) && Valid()
      {
        if queue[i].id == id {
          RemoveKeepsInv(State(), i);
          queue := queue[..i] + queue[i + 1..];
          if id in allocations {
            ReleaseAllocation(id);
          }
          return true;
        }
      }
      return false;
    }

    method Expire(id: nat, ghost w: World)
      requires Valid() && id in allocations && State() == WithAllocations(w, allocations)
      modifies this`allocations, hostMgr.hosts.Values
      ensures Valid() && hostMgr.hosts == old(hostMgr.hosts)
      ensures allocations == old(allocations) - {id} && State() == WithAllocations(w, allocations)
    {
      ghost var before := State();
      DropSettles(before, id);
      DropKeepsInv(before, id);
      hide Inv;
      ReleaseAllocation(id);
      SettledTwice(w, before.allocations, allocations);
    }

    method CleanupExpired(now: int)
      requires Valid()
      modifies this`allocations, hostMgr.hosts.Values
      ensures Valid() && hostMgr.hosts == old(hostMgr.hosts)
      ensures State() == CleanedUp(old(State()), now)
      ensures queue == old(queue) && nextID == old(nextID)
      ensures forall k :: k in allocations <==> k in old(allocations) && !(now > old(allocations)[k].expiresAt)
      ensures forall k :: k in allocations ==> allocations[k] == old(allocations)[k]
    {
      hide Inv, WithAllocations, Pending;
      ghost var w := State();
      var todo := allocations.Keys;
      InvIsSettled(w);
      AllPending(w.allocations, now);
      hide Valid, State;
      while todo != {}
        invariant todo <= w.allocations.Keys
        invariant hostMgr.hosts == old(hostMgr.hosts) && Valid()
        invariant State() == WithAllocations(w, allocations)
        invariant allocations == Pending(w.allocations, now, todo)
        decreases todo
      {
        ghost var todoBefore := todo;
        var id :| id in todo;
        todo := todo - {id};
        PendingShrinks(w.allocations, now, todo, id);
        assert todo + {id} == todoBefore;
        if now > allocations[id].expiresAt {
          Expire(id, w);
        }
      }
      NothingPending(w.allocations, now);
    }

    /** One round of the allocation loop. */
    method AllocateItem(i: nat, hosts: seq<Host>, expiresAt: int)
      requires Valid() && i < |queue| && queue[i].status == Queued
      requires forall h :: h in hosts ==> h.id in hostMgr.hosts && hostMgr.hosts[h.id] == h
      modifies this`queue, this`allocations, hostMgr.hosts.Values
      ensures Valid() && hostMgr.hosts == old(hostMgr.hosts) && |queue| == |old(queue)|
      ensures IdsOf(hosts) <= old(State()).hosts.Keys
      ensures Round(old(State()), i, IdsOf(hosts), expiresAt, State())
    {
      hide ScoreHost, Inv;
      var d := queue[i].demand;
      var ranked := RankHosts(d, hosts);
      if |ranked| == 0 {
        NothingRanked(d, hosts, ranked);
        return;
      }
      var best := ranked[0];
      RankedFirstIsBest(d, hosts, ranked);
      hide IdsOf, Placed, NoneScores, IsBest;
      BestHostHasRoom(d, State().hosts, IdsOf(hosts), best.id);
      ChargeItem(i, best.id, expiresAt);
    }

    /** Record the allocation and charge the chosen host; the manager never refuses. */
    method ChargeItem(i: nat, hostID: string, expiresAt: int)
      requires Valid() && i < |queue| && queue[i].status == Queued && hostID in hostMgr.Contents()
      requires Fits(hostMgr.Contents()[hostID], queue[i].demand.cpuCores, queue[i].demand.ramGB)
      modifies this`queue, this`allocations, hostMgr.hosts.Values
      ensures Valid() && hostMgr.hosts == old(hostMgr.hosts)
      ensures State() == Placed(old(State()), i, hostID, expiresAt)
    {
      hide Inv;
      PlacingKeepsInv(State(), i, hostID, expiresAt);
      var item := queue[i];
      allocations := allocations[item.id :=
        Allocation(item.userID, hostID, item.demand.cpuCores, item.demand.ramGB, expiresAt)];
      queue := queue[i := item.(status := Allocated, assignedHost := hostID)];
      var ok := hostMgr.Allocate(hostID, item.demand.cpuCores, item.demand.ramGB);
      assert ok;
    }

    lemma NothingRanked(d: Demand, hosts: seq<Host>, ranked: seq<Host>)
      requires hostMgr.Valid()
      requires forall h :: h in hosts ==> h.id in hostMgr.hosts && hostMgr.hosts[h.id] == h
      requires ranked == [] && forall h :: h in ranked <==> h in hosts && ScoreHost(d, h.Info()) > 0.0
      ensures IdsOf(hosts) <= hostMgr.Contents().Keys
      ensures NoneScores(d, hostMgr.Contents(), IdsOf(hosts))
    {
      forall o | o in IdsOf(hosts) ensures ScoreHost(d, hostMgr.Contents()[o]) == 0.0 {
        var h :| h in hosts && h.id == o;
        assert h !in ranked;
      }
    }

    /** The hosts' records and the table's entries are the same objects. */
    lemma RankedFirstIsBest(d: Demand, hosts: seq<Host>, ranked: seq<Host>)
      requires hostMgr.Valid()
      requires forall h :: h in hosts ==> h.id in hostMgr.hosts && hostMgr.hosts[h.id] == h
      requires ranked != [] && forall h :: h in ranked <==> h in hosts && ScoreHost(d, h.Info()) > 0.0
      requires forall i, j :: 0 <= i < j < |ranked| ==> ScoreHost(d, ranked[i].Info()) >= ScoreHost(d, ranked[j].Info())
      ensures IdsOf(hosts) <= hostMgr.Contents().Keys
      ensures IsBest(d, hostMgr.Contents(), IdsOf(hosts), ranked[0].id)
    {
      hide ScoreHost;
      assert ranked[0] in hosts;
      forall o | o in IdsOf(hosts)
        ensures ScoreHost(d, hostMgr.Contents()[o]) <= ScoreHost(d, ranked[0].Info())
      {
        var h :| h in hosts && h.id == o;
        if h in ranked {
          var j :| 0 <= j < |ranked| && ranked[j] == h;
        }
      }
    }

    /** The loop over the queue. */
    method AllocateQueued(hosts: seq<Host>, expiresAt: int) returns (ghost ws: seq<World>)
      requires Valid()
      requires forall h :: h in hosts ==> h.id in hostMgr.hosts && hostMgr.hosts[h.id] == h
      modifies this`queue, this`allocations, hostMgr.hosts.Values
      ensures Valid() && hostMgr.hosts == old(hostMgr.hosts)
      ensures Rounds(ws, IdsOf(hosts), expiresAt) && ws[0] == old(State()) && ws[|ws| - 1] == State()
    {
      ws := [State()];
      var n := |queue|;
      assert FirstRounds(ws, IdsOf(hosts), expiresAt);
      hide Inv, Round, Valid, FirstRounds;
      for i := 0 to n
        invariant |queue| == n && Valid() && hostMgr.hosts == old(hostMgr.hosts)
        invariant |ws| == i + 1 && ws[0] == old(State()) && ws[i] == State()
        invariant FirstRounds(ws, IdsOf(hosts), expiresAt)
      {
        if queue[i].status == Queued {
          AllocateItem(i, hosts, expiresAt);
        } else {
          SkippedRound(State(), i, IdsOf(hosts), expiresAt);
        }
        OneMoreRound(ws, IdsOf(hosts), expiresAt, State());
        ws := ws + [State()];
      }
    }

    method AllocateThenExpire(hosts: seq<Host>, expiresAt: int, later: int)
      requires Valid()
      requires forall h :: h in hosts ==> h.id in hostMgr.hosts && hostMgr.hosts[h.id] == h
      modifies this`queue, this`allocations, hostMgr.hosts.Values
      ensures Valid() && hostMgr.hosts == old(hostMgr.hosts)
      ensures Ran(old(State()), IdsOf(hosts), expiresAt, later, State())
    {
      hide Inv, CleanedUp, IdsOf, Valid, State, Rounds;
      ghost var ws := AllocateQueued(hosts, expiresAt);
      CleanupExpired(later);
    }

    lemma AvailableIds(hosts: seq<Host>, now: int)
      requires hostMgr.Valid()
      requires forall h :: h in hosts <==> h.id in hostMgr.hosts && hostMgr.hosts[h.id] == h && Available(h.Info(), now)
      ensures IdsOf(hosts) == AvailableHosts(State().hosts, now)
      ensures hosts == [] <==> IdsOf(hosts) == {}
    {
      if hosts != [] { assert hosts[0].id in IdsOf(hosts); }
    }

    method HostsNow(now: int) returns (hosts: seq<Host>)
      requires Valid()
      ensures forall h :: h in hosts ==> h.id in hostMgr.hosts && hostMgr.hosts[h.id] == h
      ensures IdsOf(hosts) == AvailableHosts(State().hosts, now) && (hosts == [] <==> IdsOf(hosts) == {})
    {
      hide Inv, AvailableHosts, IdsOf;
      hosts := hostMgr.GetAvailable(now);
      AvailableIds(hosts, now);
    }

    method ScheduleCycle(now: int, later: int)
      requires Valid()
      modifies this`queue, this`allocations, hostMgr.hosts.Values
      ensures Valid() && hostMgr.hosts == old(hostMgr.hosts)
      ensures Cycle(old(State()), now, now + ttl, later, State())
    {
      hide Inv, Ran, AvailableHosts, IdsOf, Valid;
      assert State().queue == queue;
      hide State;
      if |queue| == 0 {
        return;
      }
      var hosts := HostsNow(now);
      if |hosts| == 0 {
        return;
      }
      AllocateThenExpire(hosts, now + ttl, later);
    }
  }

  ghost function IdsOf(hosts: seq<Host>): set<string> {
    set h | h in hosts :: h.id
  }

  lemma IDsAreUsed(w: World)
    requires Inv(w)
    ensures forall item :: item in w.queue ==> item.id < w.nextID
  {
  }

  lemma SkippedRound(w: World, i: nat, avail: set<string>, expiresAt: int)
    requires avail <= w.hosts.Keys && i < |w.queue| && w.queue[i].status != Queued
    ensures Round(w, i, avail, expiresAt, w)
  {
  }

  lemma SettledTwice(w: World, a: map<nat, Allocation>, b: map<nat, Allocation>)
    ensures WithAllocations(WithAllocations(w, a), b) == WithAllocations(w, b)
  {
  }

  // ------------------------------------------------------- what the host table's own methods are here

  /** Registering a new host without allocations is the event Register. */
  method RegisterIsRegister(s: Scheduler, h: Host, now: int)
    requires s.Valid() && h.id !in s.hostMgr.hosts && h.allocatedCpu == 0 && h.allocatedRam == 0
    modifies s.hostMgr, h
    ensures s.Valid() && s.hostMgr.hosts == old(s.hostMgr.hosts)[h.id := h]
    ensures Next(old(s.State()), Register(h.id, old(h.Info()), now), s.State())
  {
    RegisterKeepsInvIff(s.State(), h.id, h.Info(), now);
    hide Inv;
    s.hostMgr.Register(h, now);
  }

  /** A heartbeat is the event Touch. */
  method HeartbeatIsTouch(s: Scheduler, id: string, m: Metrics, now: int)
    requires s.Valid()
    modifies s.hostMgr.hosts.Values
    ensures s.Valid() && s.hostMgr.hosts == old(s.hostMgr.hosts)
    ensures Next(old(s.State()), Touch, s.State())
  {
    ghost var w := s.State();
    hide Inv;
    var _ := s.hostMgr.Heartbeat(id, m, now);
    NextKeepsInv(w, Touch, s.State());
  }

  /** So is taking a host offline. */
  method OfflineIsTouch(s: Scheduler, id: string)
    requires s.Valid()
    modifies s.hostMgr.hosts.Values
    ensures s.Valid() && s.hostMgr.hosts == old(s.hostMgr.hosts)
    ensures Next(old(s.State()), Touch, s.State())
  {
    ghost var w := s.State();
    hide Inv;
    s.hostMgr.MarkOffline(id);
    NextKeepsInv(w, Touch, s.State());
  }
}
