/** The gateway's host table with its three indexes, and the choice of a host for a session. Times are nanoseconds. */
module HostAllocation {
  type HostId = string
  type ResourceClass = string

  const STALE_AFTER := 300_000_000_000

  datatype Load = Load(cpu: real, ram: real, gpu: real, encoder: real, streams: int)

  class Host {
    const id: HostId
    const region: string
    const classes: seq<ResourceClass>
    const gpus: nat
    const latency: real
    var online: bool
    var lastHeartbeat: int
    var load: Load

    constructor (id: HostId, region: string, classes: seq<ResourceClass>, gpus: nat, latency: real,
            online: bool, now: int, load: Load)
      ensures this.id == id && this.region == region && this.classes == classes && this.gpus == gpus && this.latency == latency
      ensures this.online == online && lastHeartbeat == now && this.load == load
    {
      this.id, this.region, this.classes, this.gpus, this.latency := id, region, classes, gpus, latency;
      this.online, lastHeartbeat, this.load := online, now, load;
    }
  }

  type Table = map<HostId, Host>

  type Index = map<string, Table>

  // --------------------------------------------------------------------------- indexes

  /** Which groups a host is filed under. */
  predicate InRegion(h: Host, region: string) {
    region != "" && h.region == region
  }

  predicate InClass(h: Host, resourceClass: ResourceClass) {
    resourceClass in h.classes
  }

  /** The hosts of a table that belong to a group. */
  function RegionOf(hosts: Table, region: string): Table {
    map id | id in hosts && InRegion(hosts[id], region) :: hosts[id]
  }

  function ClassOf(hosts: Table, resourceClass: ResourceClass): Table {
    map id | id in hosts && InClass(hosts[id], resourceClass) :: hosts[id]
  }

  function OnlineOf(hosts: Table): Table
    reads hosts.Values
  {
    map id | id in hosts && hosts[id].online :: hosts[id]
  }

  lemma OnlineFiled(hosts: Table, h: Host)
    requires h.id !in hosts
    ensures OnlineOf(hosts[h.id := h]) == if h.online then OnlineOf(hosts)[h.id := h] else OnlineOf(hosts)
  {
  }

  lemma OnlineUnfiled(hosts: Table, id: HostId)
    ensures OnlineOf(hosts - {id}) == OnlineOf(hosts) - {id}
  {
  }

  function Lookup(index: Index, group: string): Table {
    if group in index then index[group] else map[]
  }

  ghost predicate NoEmptyGroup(index: Index) {
    forall g :: g in index ==> index[g] != map[]
  }

  ghost predicate RegionsOk(index: Index, hosts: Table) {
    NoEmptyGroup(index) && forall r: string :: Lookup(index, r) == RegionOf(hosts, r)
  }

  ghost predicate ClassesOk(index: Index, hosts: Table) {
    NoEmptyGroup(index) && forall c: string :: Lookup(index, c) == ClassOf(hosts, c)
  }

  /** File a host under a group, making the group if need be. */
  function File(index: Index, group: string, h: Host): Index {
    index[group := Lookup(index, group)[h.id := h]]
  }

  /** Take a host out of a group, and the group away when it is empty. */
  function Unfile(index: Index, group: string, id: HostId): Index {
    var left := Lookup(index, group) - {id};
    if left == map[] then index - {group} else index[group := left]
  }

  lemma FileAt(index: Index, group: string, h: Host, g: string)
    ensures Lookup(File(index, group, h), g) == if g == group then Lookup(index, g)[h.id := h] else Lookup(index, g)
    ensures NoEmptyGroup(index) ==> NoEmptyGroup(File(index, group, h))
  {
    assert h.id in Lookup(index, group)[h.id := h];
  }

  lemma UnfileAt(index: Index, group: string, id: HostId, g: string)
    ensures Lookup(Unfile(index, group, id), g) == if g == group then Lookup(index, g) - {id} else Lookup(index, g)
    ensures NoEmptyGroup(index) ==> NoEmptyGroup(Unfile(index, group, id))
  {
  }

  /** An index is determined by the table. */
  lemma IndexIsView(i: Index, j: Index)
    requires NoEmptyGroup(i) && NoEmptyGroup(j) && forall g: string :: Lookup(i, g) == Lookup(j, g)
    ensures i == j
  {
    assert forall g :: g in i <==> Lookup(i, g) != map[];
    assert forall g :: g in j <==> Lookup(j, g) != map[];
    assert forall g :: g in i ==> i[g] == Lookup(i, g) == j[g];
  }

  lemma RegionsFiled(index: Index, hosts: Table, h: Host)
    requires RegionsOk(index, hosts) && h.id !in hosts
    ensures RegionsOk(if h.region != "" then File(index, h.region, h) else index, hosts[h.id := h])
  {
    var next := if h.region != "" then File(index, h.region, h) else index;
    hide File, NoEmptyGroup;
    FileAt(index, h.region, h, "");
    forall r: string ensures Lookup(next, r) == RegionOf(hosts[h.id := h], r) {
      FileAt(index, h.region, h, r);
      assert Lookup(index, r) == RegionOf(hosts, r);
    }
  }

  lemma RegionsUnfiled(index: Index, hosts: Table, id: HostId)
    requires RegionsOk(index, hosts) && id in hosts
    ensures RegionsOk(if hosts[id].region != "" then Unfile(index, hosts[id].region, id) else index, hosts - {id})
  {
    var next := if hosts[id].region != "" then Unfile(index, hosts[id].region, id) else index;
    hide Unfile, NoEmptyGroup;
    UnfileAt(index, hosts[id].region, id, "");
    forall r: string ensures Lookup(next, r) == RegionOf(hosts - {id}, r) {
      UnfileAt(index, hosts[id].region, id, r);
      assert Lookup(index, r) == RegionOf(hosts, r);
    }
  }

  /** The class index when a host has been filed under some of its classes. */
  ghost predicate ClassesFiled(index: Index, hosts: Table, h: Host, classes: seq<ResourceClass>) {
    && NoEmptyGroup(index)
    && forall c: string :: Lookup(index, c) == if c in classes then ClassOf(hosts, c)[h.id := h] else ClassOf(hosts, c)
  }

  ghost predicate ClassesUnfiled(index: Index, hosts: Table, id: HostId, classes: seq<ResourceClass>) {
    && NoEmptyGroup(index)
    && forall c: string :: Lookup(index, c) == if c in classes then ClassOf(hosts, c) - {id} else ClassOf(hosts, c)
  }

  lemma OneMoreClassFiled(index: Index, hosts: Table, h: Host, done: seq<ResourceClass>, next: ResourceClass)
    requires ClassesFiled(index, hosts, h, done)
    ensures ClassesFiled(File(index, next, h), hosts, h, done + [next])
  {
    hide File, NoEmptyGroup, ClassOf;
    FileAt(index, next, h, "");
    forall c: string
      ensures Lookup(File(index, next, h), c) == if c in done + [next] then ClassOf(hosts, c)[h.id := h] else ClassOf(hosts, c)
    {
      FileAt(index, next, h, c);
    }
  }

  lemma OneMoreClassUnfiled(index: Index, hosts: Table, id: HostId, done: seq<ResourceClass>, next: ResourceClass)
    requires ClassesUnfiled(index, hosts, id, done)
    ensures ClassesUnfiled(Unfile(index, next, id), hosts, id, done + [next])
  {
    hide Unfile, NoEmptyGroup, ClassOf;
    UnfileAt(index, next, id, "");
    forall c: string
      ensures Lookup(Unfile(index, next, id), c) == if c in done + [next] then ClassOf(hosts, c) - {id} else ClassOf(hosts, c)
    {
      UnfileAt(index, next, id, c);
    }
  }

  lemma AllClassesFiled(index: Index, hosts: Table, h: Host)
    requires ClassesFiled(index, hosts, h, h.classes) && h.id !in hosts
    ensures ClassesOk(index, hosts[h.id := h])
  {
    hide NoEmptyGroup;
    forall c: string ensures Lookup(index, c) == ClassOf(hosts[h.id := h], c) {
      assert Lookup(index, c) == if c in h.classes then ClassOf(hosts, c)[h.id := h] else ClassOf(hosts, c);
    }
  }

  lemma AllClassesUnfiled(index: Index, hosts: Table, id: HostId)
    requires id in hosts && ClassesUnfiled(index, hosts, id, hosts[id].classes)
    ensures ClassesOk(index, hosts - {id})
  {
    hide NoEmptyGroup;
    forall c: string ensures Lookup(index, c) == ClassOf(hosts - {id}, c) {
      assert Lookup(index, c) == if c in hosts[id].classes then ClassOf(hosts, c) - {id} else ClassOf(hosts, c);
    }
  }

  // --------------------------------------------------------------------------- who is eligible

  predicate HasCapacity(load: Load, gaming: bool) {
    && load.cpu <= 80.0 && load.ram <= 80.0
    && (gaming ==> load.gpu <= 70.0 && load.encoder <= 80.0)
    && load.streams < 10
  }

  datatype Request = Request(gaming: bool, resourceClass: ResourceClass, region: string, gpuRequired: bool, now: int)

  /** Somebody offers the class; a class that nobody offers is not asked for. */
  ghost predicate ClassKnown(hosts: Table, resourceClass: ResourceClass) {
    exists id :: id in hosts && InClass(hosts[id], resourceClass)
  }

  ghost predicate Eligible(hosts: Table, h: Host, req: Request)
    reads h
  {
    && h.online && (req.region != "" ==> h.region == req.region)
    && (ClassKnown(hosts, req.resourceClass) ==> InClass(h, req.resourceClass))
    && req.now - h.lastHeartbeat <= STALE_AFTER
    && (req.gpuRequired ==> h.gpus > 0)
    && HasCapacity(h.load, req.gaming)
  }

  /** A host may be given out when it is online, in the region asked for, of the class asked for if anybody is, heard of
    * in the last five minutes, with a GPU if one is asked for, and none of its loads is over its limit. */
  lemma EligibleOnFields(hosts: Table, h: Host, req: Request)
    ensures Eligible(hosts, h, req) <==>
      && h.online && (req.region == "" || h.region == req.region)
      && (req.resourceClass in h.classes || forall id :: id in hosts ==> req.resourceClass !in hosts[id].classes)
      && h.lastHeartbeat >= req.now - 300_000_000_000
      && (req.gpuRequired ==> h.gpus > 0)
      && h.load.cpu <= 80.0 && h.load.ram <= 80.0 && h.load.streams < 10
      && (req.gaming ==> h.load.gpu <= 70.0 && h.load.encoder <= 80.0)
  {
  }

  function ScoreOf(load: Load, gpus: nat, latency: real, matches: bool, req: Request): real {
    (100.0 - load.cpu) * 0.3 + (100.0 - load.ram) * 0.2
    + (if (req.gaming || req.gpuRequired) && gpus > 0 then (100.0 - load.gpu) * 0.3 + (100.0 - load.encoder) * 0.2 else 0.0)
    + (if latency > 0.0 then (100.0 - latency) * 0.1 else 0.0)
    + (if matches then 10.0 else 0.0)
  }

  function Score(h: Host, req: Request): real
    reads h
  {
    ScoreOf(h.load, h.gpus, h.latency, InClass(h, req.resourceClass), req)
  }

  /** The score in tenths: 3 for a percent of idle CPU, 2 of memory, 3 of the GPU and 2 of the encoder where they count,
    * 1 for a millisecond below 100 of a latency that was measured, and 100 for the class. */
  lemma ScoreOnFields(h: Host, req: Request)
    ensures Score(h, req) * 10.0 ==
      3.0 * (100.0 - h.load.cpu) + 2.0 * (100.0 - h.load.ram)
      + (if (req.gaming || req.gpuRequired) && h.gpus > 0 then
           3.0 * (100.0 - h.load.gpu) + 2.0 * (100.0 - h.load.encoder)
         else 0.0)
      + (if h.latency > 0.0 then 100.0 - h.latency else 0.0)
      + (if req.resourceClass in h.classes then 100.0 else 0.0)
  {
  }

  /** No field is heavier in b than in a. */
  predicate Lighter(a: Load, b: Load) {
    a.cpu <= b.cpu && a.ram <= b.ram && a.gpu <= b.gpu && a.encoder <= b.encoder
  }

  /** The lighter of two hosts that are alike otherwise scores no less, and more if its CPU or RAM is lighter. */
  lemma LighterScoresMore(a: Load, b: Load, gpus: nat, latency: real, matches: bool, req: Request)
    requires Lighter(a, b)
    ensures ScoreOf(a, gpus, latency, matches, req) >= ScoreOf(b, gpus, latency, matches, req)
    ensures a.cpu < b.cpu || a.ram < b.ram ==> ScoreOf(a, gpus, latency, matches, req) > ScoreOf(b, gpus, latency, matches, req)
  {
  }

  /** What a host scores apart from its class. */
  function Classless(h: Host, req: Request): real
    reads h
  {
    ScoreOf(h.load, h.gpus, h.latency, false, req)
  }

  /** The reward for a matching class never decides between two candidates: a class that somebody
      offers is offered by every candidate, and a class that nobody offers by none. */
  lemma ClassNeverDecides(hosts: Table, a: Host, b: Host, req: Request)
    requires a in hosts.Values && b in hosts.Values && Eligible(hosts, a, req) && Eligible(hosts, b, req)
    ensures InClass(a, req.resourceClass) <==> InClass(b, req.resourceClass)
    ensures Score(a, req) <= Score(b, req) <==> Classless(a, req) <= Classless(b, req)
  {
    hide HasCapacity;
    forall h | h in hosts.Values && InClass(h, req.resourceClass) ensures ClassKnown(hosts, req.resourceClass) {
      var id :| id in hosts && hosts[id] == h;
      assert InClass(hosts[id], req.resourceClass);
    }
  }

  datatype Answer = Allocated(host: Host) | NoHostsInRegion | NoHosts

  // --------------------------------------------------------------------------- the allocator

  class HostAllocator {
    var hosts: Table
    var byRegion: Index
    var byClass: Index
    var byOnline: Table

    /** Every index holds exactly the hosts it names. */
    ghost predicate Valid()
      reads this, hosts.Values
    {
      && (forall id :: id in hosts ==> hosts[id].id == id)
      && RegionsOk(byRegion, hosts) && ClassesOk(byClass, hosts)
      && byOnline == OnlineOf(hosts)
    }

    constructor ()
      ensures Valid() && hosts == map[]
    {
      hosts, byRegion, byClass, byOnline := map[], map[], map[], map[];
    }

    /** The loop over the classes of a host that comes in. */
    method FileClasses(host: Host, ghost before: Table)
      requires ClassesOk(byClass, before) && host.id !in before
      modifies this`byClass
      ensures ClassesOk(byClass, before[host.id := host])
    {
      hide ClassesOk, ClassesFiled, File;
      NoClassFiled(byClass, before, host);
      var classes := host.classes;
      for k := 0 to |classes|
        invariant ClassesFiled(byClass, before, host, classes[..k])
      {
        OneMoreClassFiled(byClass, before, host, classes[..k], classes[k]);
        assert classes[..k + 1] == classes[..k] + [classes[k]];
        byClass := File(byClass, classes[k], host);
      }
      assert classes[..|classes|] == host.classes;
      AllClassesFiled(byClass, before, host);
    }

    /** The loop over the classes of a host that goes. */
    method UnfileClasses(host: Host, id: HostId, ghost before: Table)
      requires ClassesOk(byClass, before) && id in before && before[id] == host
      modifies this`byClass
      ensures ClassesOk(byClass, before - {id})
    {
      hide ClassesOk, ClassesUnfiled, Unfile;
      NoClassUnfiled(byClass, before, id);
      var classes := host.classes;
      for k := 0 to |classes|
        invariant ClassesUnfiled(byClass, before, id, classes[..k])
      {
        OneMoreClassUnfiled(byClass, before, id, classes[..k], classes[k]);
        assert classes[..k + 1] == classes[..k] + [classes[k]];
        byClass := Unfile(byClass, classes[k], id);
      }
      assert classes[..|classes|] == host.classes;
      AllClassesUnfiled(byClass, before, id);
    }

    /** A host is filed in the table and in every index; an ID that is taken changes nothing. */
    method RegisterHost(host: Host) returns (ok: bool)
      requires Valid()
      modifies this
      ensures Valid() && ok == (host.id !in old(hosts))
      ensures hosts == if ok then old(hosts)[host.id := host] else old(hosts)
    {
      hide RegionsOk, ClassesOk, File, OnlineOf;
      if host.id in hosts {
        return false;
      }
      OnlineFiled(hosts, host);
      ghost var before := hosts;
      RegionsFiled(byRegion, before, host);
      hosts := hosts[host.id := host];
      if host.region != "" {
        byRegion := File(byRegion, host.region, host);
      }
      FileClasses(host, before);
      if host.online {
        byOnline := byOnline[host.id := host];
      }
      return true;
    }

    method UnregisterHost(id: HostId) returns (ok: bool)
      requires Valid()
      modifies this
      ensures Valid() && ok == (id in old(hosts)) && hosts == old(hosts) - {id}
    {
      hide RegionsOk, ClassesOk, Unfile, OnlineOf;
      if id !in hosts {
        return false;
      }
      OnlineUnfiled(hosts, id);
      ghost var before := hosts;
      var host := hosts[id];
      RegionsUnfiled(byRegion, before, id);
      hosts := hosts - {id};
      if host.region != "" {
        byRegion := Unfile(byRegion, host.region, id);
      }
      UnfileClasses(host, id, before);
      byOnline := byOnline - {id};
      return true;
    }

    /** A heartbeat brings a host's load up to date and puts it online; no other host changes. */
    method UpdateHostLoad(id: HostId, load: Load, now: int) returns (ok: bool)
      requires Valid()
      modifies this`byOnline, hosts.Values
      ensures Valid() && ok == (id in hosts)
      ensures ok ==> hosts[id].load == load && hosts[id].lastHeartbeat == now && hosts[id].online
      ensures forall k :: k in hosts && k != id ==>
        hosts[k].online == old(hosts[k].online) && hosts[k].load == old(hosts[k].load)
        && hosts[k].lastHeartbeat == old(hosts[k].lastHeartbeat)
    {
      hide RegionsOk, ClassesOk;
      if id !in hosts {
        return false;
      }
      var host := hosts[id];
      var wasOnline := host.online;
      host.load, host.lastHeartbeat, host.online := load, now, true;
      if !wasOnline {
        byOnline := byOnline[host.id := host];
      }
      return true;
    }

    /** What the loop checks of a host that it finds under the region or among the online ones. */
    method IsCandidate(host: Host, req: Request) returns (ok: bool)
      requires Valid() && host.id in hosts && hosts[host.id] == host && (req.region != "" ==> host.region == req.region)
      ensures ok == Eligible(hosts, host, req)
    {
      ClassIsKnown(byClass, hosts, req.resourceClass);
      hide RegionsOk, ClassesOk, HasCapacity;
      if !host.online {
        return false;
      }
      if req.resourceClass in byClass && host.id !in byClass[req.resourceClass] {
        return false;
      }
      if req.now - host.lastHeartbeat > STALE_AFTER {
        return false;
      }
      if req.gpuRequired && host.gpus == 0 {
        return false;
      }
      return HasCapacity(host.load, req.gaming);
    }

    /** The candidates among some of the hosts, in whatever order the map yields them. */
    method Candidates(among: Table, req: Request) returns (candidates: seq<Host>)
      requires Valid() && forall id :: id in among ==> id in hosts && hosts[id] == among[id]
      requires forall id :: id in among && req.region != "" ==> among[id].region == req.region
      ensures forall h :: h in candidates <==> h in among.Values && Eligible(hosts, h, req)
    {
      candidates := [];
      var unseen := among.Keys;
      hide Eligible, RegionsOk, ClassesOk;
      while unseen != {}
        invariant unseen <= among.Keys
        invariant forall h :: h in candidates ==> h in among.Values && Eligible(hosts, h, req)
        invariant forall id :: id in among && id !in unseen && Eligible(hosts, among[id], req) ==> among[id] in candidates
        decreases |unseen|
      {
        var id :| id in unseen;
        unseen := unseen - {id};
        var ok := IsCandidate(among[id], req);
        if ok {
          candidates := candidates + [among[id]];
        }
      }
    }

    /**
     * Fails exactly when no host at all is eligible; otherwise the host is eligible and no eligible one scores
     * higher.
     */
    method AllocateHost(req: Request) returns (answer: Answer)
      requires Valid()
      ensures answer.Allocated? <==> exists id :: id in hosts && Eligible(hosts, hosts[id], req)
      ensures answer.Allocated? ==> answer.host in hosts.Values && Eligible(hosts, answer.host, req)
      ensures answer.Allocated? ==>
        forall id :: id in hosts && Eligible(hosts, hosts[id], req) ==> Score(hosts[id], req) <= Score(answer.host, req)
      ensures answer.Allocated? ==>
        var h := answer.host;
        && h.online && (req.region == "" || h.region == req.region) && h.lastHeartbeat >= req.now - 300_000_000_000
        && (req.resourceClass in h.classes || forall id :: id in hosts ==> req.resourceClass !in hosts[id].classes)
        && (req.gpuRequired ==> h.gpus > 0)
        && h.load.cpu <= 80.0 && h.load.ram <= 80.0 && h.load.streams < 10
        && (req.gaming ==> h.load.gpu <= 70.0 && h.load.encoder <= 80.0)
      ensures !answer.Allocated? ==> forall id :: id in hosts ==>
        var h := hosts[id];
        || !h.online || (req.region != "" && h.region != req.region) || h.lastHeartbeat < req.now - 300_000_000_000
        || (req.resourceClass !in h.classes && exists o :: o in hosts && req.resourceClass in hosts[o].classes)
        || (req.gpuRequired && h.gpus == 0)
        || h.load.cpu > 80.0 || h.load.ram > 80.0 || h.load.streams >= 10
        || (req.gaming && (h.load.gpu > 70.0 || h.load.encoder > 80.0))
      ensures answer.NoHostsInRegion? <==> req.region != "" && forall id :: id in hosts ==> hosts[id].region != req.region
    {
      RegionIsKnown(byRegion, hosts, req.region);
      forall id | id in hosts {
        EligibleOnFields(hosts, hosts[id], req);
      }
      var among := byOnline;
      if req.region != "" {
        if req.region !in byRegion {
          return NoHostsInRegion;
        }
        among := byRegion[req.region];
      }
      hide RegionsOk, ClassesOk, HasCapacity, Score, ClassKnown;
      var candidates := Candidates(among, req);
      assert forall id :: id in hosts && Eligible(hosts, hosts[id], req) ==> id in among && hosts[id] in among.Values;
      hide Eligible;
      if |candidates| == 0 {
        assert forall h :: h in among.Values && Eligible(hosts, h, req) ==> h in candidates;
        return NoHosts;
      }
      assert candidates[0] in candidates;
      var best := SelectBestHost(candidates, req);
      return Allocated(best);
    }
  }

  method SelectBestHost(candidates: seq<Host>, req: Request) returns (best: Host)
    requires candidates != []
    ensures best in candidates && forall h :: h in candidates ==> Score(h, req) <= Score(best, req)
  {
    hide Score;
    best := candidates[0];
    var bestScore := Score(best, req);
    for k := 1 to |candidates|
      invariant best in candidates && bestScore == Score(best, req)
      invariant forall j :: 0 <= j < k ==> Score(candidates[j], req) <= bestScore
    {
      var score := Score(candidates[k], req);
      if score > bestScore {
        best, bestScore := candidates[k], score;
      }
    }
  }

  lemma NoClassFiled(index: Index, hosts: Table, h: Host)
    requires ClassesOk(index, hosts)
    ensures ClassesFiled(index, hosts, h, [])
  {
  }

  lemma NoClassUnfiled(index: Index, hosts: Table, id: HostId)
    requires ClassesOk(index, hosts)
    ensures ClassesUnfiled(index, hosts, id, [])
  {
  }

  /** A class has a group exactly when some host offers it, and the group holds the hosts that do. */
  lemma ClassIsKnown(index: Index, hosts: Table, resourceClass: ResourceClass)
    requires ClassesOk(index, hosts)
    ensures resourceClass in index <==> ClassKnown(hosts, resourceClass)
    ensures resourceClass in index ==>
      forall id :: id in index[resourceClass] <==> id in hosts && InClass(hosts[id], resourceClass)
  {
    assert Lookup(index, resourceClass) == ClassOf(hosts, resourceClass);
    if resourceClass in index {
      assert index[resourceClass] != map[];
      var id :| id in index[resourceClass];
      assert id in hosts && InClass(hosts[id], resourceClass);
    } else {
      assert forall id :: id in hosts ==> id !in ClassOf(hosts, resourceClass);
    }
  }

  /** The indexes carry no state of their own. */
  lemma SameHostsSameIndexes(a: HostAllocator, b: HostAllocator)
    requires a.Valid() && b.Valid() && a.hosts == b.hosts
    ensures a.byRegion == b.byRegion && a.byClass == b.byClass && a.byOnline == b.byOnline
  {
    RegionsAreView(a.byRegion, b.byRegion, a.hosts);
    ClassesAreView(a.byClass, b.byClass, a.hosts);
  }

  /** Registering a host and taking it out again leaves the indexes as they were. */
  method RegisterThenUnregister(a: HostAllocator, host: Host)
    requires a.Valid() && host.id !in a.hosts
    modifies a
    ensures a.Valid() && a.hosts == old(a.hosts)
    ensures a.byRegion == old(a.byRegion) && a.byClass == old(a.byClass) && a.byOnline == old(a.byOnline)
  {
    hide RegionsOk, ClassesOk, OnlineOf;
    ghost var before, byRegion, byClass := a.hosts, a.byRegion, a.byClass;
    var _ := a.RegisterHost(host);
    var _ := a.UnregisterHost(host.id);
    assert a.hosts == before;
    RegionsAreView(byRegion, a.byRegion, before);
    ClassesAreView(byClass, a.byClass, before);
  }

  lemma RegionsAreView(i: Index, j: Index, hosts: Table)
    requires RegionsOk(i, hosts) && RegionsOk(j, hosts)
    ensures i == j
  {
    assert forall g: string :: Lookup(i, g) == RegionOf(hosts, g) == Lookup(j, g);
    IndexIsView(i, j);
  }

  lemma ClassesAreView(i: Index, j: Index, hosts: Table)
    requires ClassesOk(i, hosts) && ClassesOk(j, hosts)
    ensures i == j
  {
    assert forall g: string :: Lookup(i, g) == ClassOf(hosts, g) == Lookup(j, g);
    IndexIsView(i, j);
  }

  lemma RegionIsKnown(index: Index, hosts: Table, region: string)
    requires RegionsOk(index, hosts)
    ensures region in index <==> exists id :: id in hosts && InRegion(hosts[id], region)
    ensures region in index ==> index[region] == RegionOf(hosts, region)
  {
    assert Lookup(index, region) == RegionOf(hosts, region);
    if region in index {
      assert index[region] != map[];
      var id :| id in index[region];
      assert id in hosts && InRegion(hosts[id], region);
    } else {
      assert forall id :: id in hosts ==> id !in RegionOf(hosts, region);
    }
  }
}
