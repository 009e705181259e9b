/** Queue items and their allocations: who holds how much of which host, and what a cycle changes. */
module GalaxyItems {
  import opened HostManager
  import opened Ranker
  import opened GalaxyScheduler

  // ----------------------------------------------------------- an allocation is its item's demand

  /** A queued item that holds exactly this: its own demand, for its own user, on the host it was assigned to. */
  ghost predicate IsFor(item: QueueItem, id: nat, a: Allocation) {
    && item.id == id && item.status == Allocated && item.assignedHost == a.hostID && item.userID == a.userID
    && item.demand.cpuCores == a.cpuCores && item.demand.ramGB == a.ramGB
  }

  ghost predicate HasItem(q: seq<QueueItem>, id: nat, a: Allocation) {
    exists i :: 0 <= i < |q| && IsFor(q[i], id, a)
  }

  ghost predicate AllMatch(w: World) {
    forall id :: id in w.allocations ==> HasItem(w.queue, id, w.allocations[id])
  }

  lemma AppendKeepsMatch(w: World, item: QueueItem)
    requires AllMatch(w)
    ensures AllMatch(Appended(w, item))
  {
    var w' := Appended(w, item);
    forall id | id in w.allocations ensures HasItem(w'.queue, id, w.allocations[id]) {
      var i :| 0 <= i < |w.queue| && IsFor(w.queue[i], id, w.allocations[id]);
      assert w'.queue[i] == w.queue[i];
    }
  }

  lemma RemoveKeepsMatch(w: World, i: nat)
    requires AllMatch(w) && i < |w.queue|
    ensures AllMatch(Removed(w, i))
  {
    var w' := Removed(w, i);
    forall id | id in w'.allocations ensures HasItem(w'.queue, id, w'.allocations[id]) {
      var j :| 0 <= j < |w.queue| && IsFor(w.queue[j], id, w.allocations[id]);
      assert w'.queue[if j < i then j else j - 1] == w.queue[j];
    }
  }

  lemma PlaceKeepsMatch(w: World, i: nat, h: string, expiresAt: int)
    requires AllMatch(w) && QueueOk(w.queue, w.nextID) && i < |w.queue| && h in w.hosts
    ensures AllMatch(Placed(w, i, h, expiresAt))
  {
    var w' := Placed(w, i, h, expiresAt);
    assert IsFor(w'.queue[i], w.queue[i].id, w'.allocations[w.queue[i].id]);
    forall id | id in w'.allocations ensures HasItem(w'.queue, id, w'.allocations[id]) {
      if id != w.queue[i].id {
        var j :| 0 <= j < |w.queue| && IsFor(w.queue[j], id, w.allocations[id]);
        assert w'.queue[j] == w.queue[j];
      }
    }
  }

  lemma {:induction false} RoundsKeepMatch(ws: seq<World>, avail: set<string>, expiresAt: int, i: nat)
    requires Rounds(ws, avail, expiresAt) && Inv(ws[0]) && AllMatch(ws[0]) && i < |ws|
    ensures AllMatch(ws[i])
  {
    hide Inv, AllMatch, Round;
    if i > 0 {
      RoundsKeepMatch(ws, avail, expiresAt, i - 1);
      RoundsKeepInv(ws, avail, expiresAt, i - 1);
      RoundKeepsMatch(ws[i - 1], i - 1, avail, expiresAt, ws[i]);
    }
  }

  lemma RoundKeepsMatch(w: World, i: nat, avail: set<string>, expiresAt: int, w': World)
    requires Inv(w) && avail <= w.hosts.Keys && i < |w.queue| && Round(w, i, avail, expiresAt, w') && AllMatch(w)
    ensures AllMatch(w')
  {
    hide AllMatch, NoneScores, Placed, ScoreHost;
    if w' != w {
      var h :| IsBest(w.queue[i].demand, w.hosts, avail, h) && w' == Placed(w, i, h, expiresAt);
      PlaceKeepsMatch(w, i, h, expiresAt);
    }
  }

  lemma NextKeepsMatch(w: World, e: Event, w': World)
    requires Inv(w) && Next(w, e, w') && AllMatch(w)
    ensures AllMatch(w')
  {
    match e
    case Enqueue(r, max) =>
      hide AllMatch, Inv;
      AppendKeepsMatch(w, NewItem(w, r));
    case Dequeue(i) =>
      hide AllMatch, Inv;
      RemoveKeepsMatch(w, i);
    case RunCycle(now, expiresAt, later) =>
      hide Inv;
      CycleKeepsMatch(w, now, expiresAt, later, w');
    case _ => hide Inv;
  }

  lemma CycleKeepsMatch(w: World, now: int, expiresAt: int, later: int, w': World)
    requires Inv(w) && Cycle(w, now, expiresAt, later, w') && AllMatch(w)
    ensures AllMatch(w')
  {
    var avail := AvailableHosts(w.hosts, now);
    if w' != w {
      var ws: seq<World> :| Rounds(ws, avail, expiresAt) && ws[0] == w && w' == CleanedUp(ws[|ws| - 1], later);
      assert |ws| >= 1;
      RoundsKeepMatch(ws, avail, expiresAt, |ws| - 1);
      hide Inv, Rounds, HasItem;
    }
  }

  /** Over every history, each live allocation is the demand of its own queue item: the same cores and memory, the
      same user, and the host that the item was assigned to. */
  lemma {:induction false} AllocationsAreDemands(ws: seq<World>, es: seq<Event>, i: nat)
    requires History(ws, es) && i < |ws|
    ensures forall id :: id in ws[i].allocations ==> HasItem(ws[i].queue, id, ws[i].allocations[id])
  {
    if i > 0 {
      AllocationsAreDemands(ws, es, i - 1);
      BooksBalance(ws, es, i - 1);
      assert AllMatch(ws[i - 1]);
      hide Inv, Next, HasItem;
      NextKeepsMatch(ws[i - 1], es[i - 1], ws[i]);
    }
  }

  // --------------------------------------------------------------- what the holders of a host ask for

  /** The demands of the items with a live allocation that were assigned to a host. */
  function Held(q: seq<QueueItem>, live: set<nat>, host: string): Load {
    if q == [] then
      Load(0, 0)
    else
      var item, before := q[|q| - 1], Held(q[..|q| - 1], live, host);
      if item.id in live && item.assignedHost == host then
        Load(before.cpu + item.demand.cpuCores, before.ram + item.demand.ramGB)
      else
        before
  }

  lemma {:induction false} NobodyBetween(allocs: map<nat, Allocation>, host: string, m: nat, n: nat)
    requires m <= n && forall id :: m <= id < n ==> id !in allocs
    ensures LoadOf(allocs, host, n) == LoadOf(allocs, host, m)
    decreases n
  {
    if m < n { NobodyBetween(allocs, host, m, n - 1); }
  }

  /** The items with an allocation and the allocations with an ID below n are the same, and agree. */
  ghost predicate Covered(q: seq<QueueItem>, allocs: map<nat, Allocation>, n: nat) {
    && QueueOk(q, n)
    && (forall i :: 0 <= i < |q| && q[i].id in allocs ==> IsFor(q[i], q[i].id, allocs[q[i].id]))
    && forall id :: id in allocs && id < n ==> IsQueued(q, id)
  }

  ghost predicate IsQueued(q: seq<QueueItem>, id: nat) {
    exists i :: 0 <= i < |q| && q[i].id == id
  }

  lemma CoveredBefore(q: seq<QueueItem>, allocs: map<nat, Allocation>, n: nat)
    requires Covered(q, allocs, n) && q != []
    ensures var last := q[|q| - 1];
      && last.id < n && Covered(q[..|q| - 1], allocs, last.id) && (forall id :: last.id < id < n ==> id !in allocs)
      && (last.id in allocs ==> IsFor(last, last.id, allocs[last.id]))
  {
    var last, init := q[|q| - 1], q[..|q| - 1];
    forall id | id in allocs && id < last.id ensures IsQueued(init, id) {
      var i :| 0 <= i < |q| && q[i].id == id;
      assert init[i].id == id;
    }
    hide IsFor;
  }

  /** The sum over IDs is the sum over items. */
  lemma {:induction false} LoadIsHeld(q: seq<QueueItem>, allocs: map<nat, Allocation>, host: string, n: nat)
    requires Covered(q, allocs, n)
    ensures LoadOf(allocs, host, n) == Held(q, allocs.Keys, host)
    decreases |q|
  {
    if q == [] {
      NobodyBetween(allocs, host, 0, n);
    } else {
      CoveredBefore(q, allocs, n);
      LoadIsHeld(q[..|q| - 1], allocs, host, q[|q| - 1].id);
      OneMoreHolder(q, allocs, host, n);
    }
  }

  lemma OneMoreHolder(q: seq<QueueItem>, allocs: map<nat, Allocation>, host: string, n: nat)
    requires q != [] && q[|q| - 1].id < n
    requires var last := q[|q| - 1];
      && (forall id :: last.id < id < n ==> id !in allocs)
      && (last.id in allocs ==> IsFor(last, last.id, allocs[last.id]))
      && LoadOf(allocs, host, last.id) == Held(q[..|q| - 1], allocs.Keys, host)
    ensures LoadOf(allocs, host, n) == Held(q, allocs.Keys, host)
  {
    var last := q[|q| - 1];
    NobodyBetween(allocs, host, last.id + 1, n);
    assert LoadOf(allocs, host, last.id + 1) == Held(q, allocs.Keys, host);
    hide LoadOf, Held;
  }

  /** Over every history, what is given away of a host is exactly what the items that hold it ask for. */
  lemma CountersAreDemands(ws: seq<World>, es: seq<Event>, i: nat, host: string)
    requires History(ws, es) && i < |ws| && host in ws[i].hosts
    ensures var w := ws[i];
      Load(w.hosts[host].allocatedCpu, w.hosts[host].allocatedRam) == Held(w.queue, w.allocations.Keys, host)
  {
    BooksBalance(ws, es, i);
    AllocationsAreDemands(ws, es, i);
    var w := ws[i];
    hide Next;
    forall k | 0 <= k < |w.queue| && w.queue[k].id in w.allocations
      ensures IsFor(w.queue[k], w.queue[k].id, w.allocations[w.queue[k].id])
    {
      ItemIsTheOne(w, k);
    }
    forall id | id in w.allocations ensures IsQueued(w.queue, id) {
      assert Holds(w.queue, id);
    }
    LoadIsHeld(w.queue, w.allocations, host, w.nextID);
  }

  lemma ItemIsTheOne(w: World, k: nat)
    requires QueueOk(w.queue, w.nextID) && AllMatch(w) && k < |w.queue| && w.queue[k].id in w.allocations
    ensures IsFor(w.queue[k], w.queue[k].id, w.allocations[w.queue[k].id])
  {
    var id := w.queue[k].id;
    var j :| 0 <= j < |w.queue| && IsFor(w.queue[j], id, w.allocations[id]);
    assert j == k;
  }

  // ------------------------------------------------------------------------ what one round changes

  /** One round gives the item its demand on one available host, files that under the item's ID until it expires, and
      changes nothing else; or it changes nothing. */
  lemma RoundOnFields(w: World, i: nat, avail: set<string>, expiresAt: int, w': World)
    requires Inv(w) && avail <= w.hosts.Keys && i < |w.queue| && Round(w, i, avail, expiresAt, w') && w' != w
    ensures w.queue[i].status == Queued && w.queue[i].id !in w.allocations && w'.nextID == w.nextID
    ensures exists h :: h in avail && TakenBy(w, w.queue[i], expiresAt, h, w')
    ensures |w'.queue| == |w.queue| && forall j :: 0 <= j < |w.queue| && j != i ==> w'.queue[j] == w.queue[j]
    ensures w'.queue[i] == w.queue[i].(status := Allocated, assignedHost := w'.queue[i].assignedHost)
  {
    QueuedIsUnallocated(w, i);
    hide Inv, ScoreHost, NoneScores;
    var h :| IsBest(w.queue[i].demand, w.hosts, avail, h) && w' == Placed(w, i, h, expiresAt);
    assert TakenBy(w, w.queue[i], expiresAt, h, w');
  }

  ghost predicate TakenBy(w: World, item: QueueItem, expiresAt: int, h: string, w': World) {
    && h in w.hosts && w'.hosts.Keys == w.hosts.Keys
    && w'.hosts[h].allocatedCpu == w.hosts[h].allocatedCpu + item.demand.cpuCores
    && w'.hosts[h].allocatedRam == w.hosts[h].allocatedRam + item.demand.ramGB
    && w'.hosts[h] == w.hosts[h].(allocatedCpu := w'.hosts[h].allocatedCpu, allocatedRam := w'.hosts[h].allocatedRam)
    && (forall o :: o in w.hosts && o != h ==> w'.hosts[o] == w.hosts[o])
    && w'.allocations.Keys == w.allocations.Keys + {item.id}
    && (forall id :: id in w.allocations && id != item.id ==> w'.allocations[id] == w.allocations[id])
    && w'.allocations[item.id] == Allocation(item.userID, h, item.demand.cpuCores, item.demand.ramGB, expiresAt)
  }

  /** An item that the loop placed went to a host with room for it at its turn, and, if it needs a GPU, with the GPU
      memory it asks for, before and after the loop. */
  lemma PlacedWhereItFits(ws: seq<World>, avail: set<string>, expiresAt: int, k: nat)
    requires Rounds(ws, avail, expiresAt) && Inv(ws[0]) && k < |ws[0].queue|
    requires ws[0].queue[k].status == Queued && ws[|ws| - 1].queue[k].status == Allocated
    ensures var d, h := ws[0].queue[k].demand, ws[|ws| - 1].queue[k].assignedHost;
      && h in avail && h in ws[0].hosts && h in ws[k].hosts
      && ws[k].hosts[h].allocatedCpu + d.cpuCores <= ws[k].hosts[h].cpuCores
      && ws[k].hosts[h].allocatedRam + d.ramGB <= ws[k].hosts[h].ramGB
      && (d.gpuRequired ==> ws[0].hosts[h].gpuVramGB != 0 && d.gpuVramGB <= ws[0].hosts[h].gpuVramGB)
  {
    PlacedOnBest(ws, avail, expiresAt, k);
    HardwareStays(ws, avail, expiresAt, k);
    hide Inv, Rounds, ScoreHost;
  }

  lemma {:induction false} HardwareStays(ws: seq<World>, avail: set<string>, expiresAt: int, k: nat)
    requires Rounds(ws, avail, expiresAt) && Inv(ws[0]) && k < |ws|
    ensures ws[k].hosts.Keys == ws[0].hosts.Keys
    ensures forall h :: h in ws[0].hosts ==>
      ws[k].hosts[h] == ws[0].hosts[h].(allocatedCpu := ws[k].hosts[h].allocatedCpu, allocatedRam := ws[k].hosts[h].allocatedRam)
  {
    hide Inv, Round;
    if k > 0 {
      HardwareStays(ws, avail, expiresAt, k - 1);
      RoundsKeepInv(ws, avail, expiresAt, k - 1);
      RoundAt(ws, avail, expiresAt, k - 1);
      RoundOnlyAdds(ws[k - 1], k - 1, avail, expiresAt, ws[k]);
    }
  }

  // ------------------------------------------------------------------------ what one cycle changes

  /** A host is considered when it is online, was heard of in the last thirty seconds, and has both a core and a
      gigabyte left. */
  lemma ConsideredExactly(hosts: Table, now: int, h: string)
    ensures h in AvailableHosts(hosts, now) <==>
      && h in hosts && hosts[h].online && hosts[h].lastHeartbeat >= now - 30_000_000_000
      && hosts[h].allocatedCpu < hosts[h].cpuCores && hosts[h].allocatedRam < hosts[h].ramGB
  {
  }

  /** What rounds leave of the items: all but status and host, and all of those that have their allocation. */
  ghost predicate ItemsKept(q: seq<QueueItem>, q': seq<QueueItem>, avail: set<string>) {
    && |q'| == |q|
    && forall k :: 0 <= k < |q| ==> ItemKept(q[k], q'[k], avail)
  }

  ghost predicate ItemKept(item: QueueItem, item': QueueItem, avail: set<string>) {
    item' == item
    || (item.status == Queued && item'.assignedHost in avail
        && item' == item.(status := Allocated, assignedHost := item'.assignedHost))
  }

  /** What rounds do to the allocations: those that were there stay, new ones are for queued items and last as given. */
  ghost predicate OnlyNew(w: World, w': World, expiresAt: int) {
    && (forall id :: id in w.allocations ==> id in w'.allocations && w'.allocations[id] == w.allocations[id])
    && (forall id :: id in w'.allocations && id !in w.allocations ==> w'.allocations[id].expiresAt == expiresAt)
  }

  lemma RoundKeepsItems(w0: World, w: World, i: nat, avail: set<string>, expiresAt: int, w': World)
    requires Inv(w) && avail <= w.hosts.Keys && i < |w.queue| && Round(w, i, avail, expiresAt, w')
    requires ItemsKept(w0.queue, w.queue, avail) && OnlyNew(w0, w, expiresAt) && w.nextID == w0.nextID
    ensures ItemsKept(w0.queue, w'.queue, avail) && OnlyNew(w0, w', expiresAt) && w'.nextID == w0.nextID
  {
    if w' != w {
      RoundOnFields(w, i, avail, expiresAt, w');
      hide Inv, Round, ItemsKept, OnlyNew, TakenBy;
      var h :| h in avail && TakenBy(w, w.queue[i], expiresAt, h, w');
      AssignedIs(w, i, avail, expiresAt, w');
      OneItemMoves(w0.queue, w.queue, w'.queue, i, avail);
      OneAllocationMore(w0, w, w.queue[i], expiresAt, h, w');
    }
  }

  lemma OneAllocationMore(w0: World, w: World, item: QueueItem, expiresAt: int, h: string, w': World)
    requires OnlyNew(w0, w, expiresAt) && TakenBy(w, item, expiresAt, h, w') && item.id !in w.allocations
    ensures OnlyNew(w0, w', expiresAt)
  {
  }

  lemma AssignedIs(w: World, i: nat, avail: set<string>, expiresAt: int, w': World)
    requires avail <= w.hosts.Keys && i < |w.queue| && Round(w, i, avail, expiresAt, w') && w' != w
    ensures i < |w'.queue| && w'.queue[i].assignedHost in avail
  {
    hide ScoreHost, NoneScores;
  }

  lemma OneItemMoves(q0: seq<QueueItem>, q: seq<QueueItem>, q': seq<QueueItem>, i: nat, avail: set<string>)
    requires ItemsKept(q0, q, avail) && i < |q| == |q'| && q[i].status == Queued && ItemKept(q[i], q'[i], avail)
    requires forall j :: 0 <= j < |q| && j != i ==> q'[j] == q[j]
    ensures ItemsKept(q0, q', avail)
  {
  }

  lemma {:induction false} RoundsKeepItems(ws: seq<World>, avail: set<string>, expiresAt: int, k: nat)
    requires Rounds(ws, avail, expiresAt) && Inv(ws[0]) && k < |ws|
    ensures ItemsKept(ws[0].queue, ws[k].queue, avail) && OnlyNew(ws[0], ws[k], expiresAt) && ws[k].nextID == ws[0].nextID
  {
    hide Inv, Round, ItemsKept, OnlyNew;
    if k == 0 {
      NothingMoved(ws[0], avail, expiresAt);
    } else {
      RoundsKeepItems(ws, avail, expiresAt, k - 1);
      RoundsKeepInv(ws, avail, expiresAt, k - 1);
      RoundAt(ws, avail, expiresAt, k - 1);
      RoundKeepsItems(ws[0], ws[k - 1], k - 1, avail, expiresAt, ws[k]);
    }
  }

  lemma NothingMoved(w: World, avail: set<string>, expiresAt: int)
    ensures ItemsKept(w.queue, w.queue, avail) && OnlyNew(w, w, expiresAt)
  {
  }

  /** One cycle. The queue keeps its items, each with its ID, user, demand, priority and place; an item that had its
      allocation is not touched, and another one may get a considered host. No host comes, goes or changes but in its
      counters. While some host is considered, exactly the allocations whose time is over go; else none does. A new
      allocation lasts as long as the cycle grants. */
  lemma CycleOnFields(w: World, now: int, expiresAt: int, later: int, w': World)
    requires Inv(w) && Cycle(w, now, expiresAt, later, w')
    ensures var avail := AvailableHosts(w.hosts, now);
      && ItemsKept(w.queue, w'.queue, avail) && w'.nextID == w.nextID && w'.hosts.Keys == w.hosts.Keys
      && (forall h :: h in w.hosts ==>
            w.hosts[h].(allocatedCpu := w'.hosts[h].allocatedCpu, allocatedRam := w'.hosts[h].allocatedRam) == w'.hosts[h])
      && (forall id :: id in w.allocations ==> (id in w'.allocations <==> avail == {} || later <= w.allocations[id].expiresAt))
      && (forall id :: id in w.allocations && id in w'.allocations ==> w'.allocations[id] == w.allocations[id])
      && (forall id :: id in w'.allocations && id !in w.allocations ==> w'.allocations[id].expiresAt == expiresAt)
  {
    var avail := AvailableHosts(w.hosts, now);
    NothingMoved(w, avail, expiresAt);
    if w.queue == [] {
      NobodyHolds(w);
    } else if avail != {} {
      var ws: seq<World> :| Rounds(ws, avail, expiresAt) && ws[0] == w && w' == CleanedUp(ws[|ws| - 1], later);
      assert |ws| >= 1;
      RoundsKeepItems(ws, avail, expiresAt, |ws| - 1);
      HardwareStays(ws, avail, expiresAt, |ws| - 1);
      hide Inv, Rounds, ItemsKept, LoadOf, AvailableHosts;
    }
  }

  lemma NobodyHolds(w: World)
    requires Inv(w) && w.queue == []
    ensures w.allocations == map[]
  {
    assert forall id :: id in w.allocations ==> Holds(w.queue, id);
  }
}
