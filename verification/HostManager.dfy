/** The scheduler's host table. Host records are shared objects: GetAvailable hands out the
    very records that Allocate and Release later update. */
module HostManager {
  import opened Collections

  /** Nanoseconds. */
  const HEARTBEAT_LIMIT := 30_000_000_000

  /** What a host record holds at one moment. */
  datatype HostInfo = HostInfo(
    cpuCores: int,
    ramGB: int,
    gpuVramGB: int,
    uplinkMbps: int,
    latencyMs: int,
    uptimeHours: int,
    online: bool,
    lastHeartbeat: int,
    allocatedCpu: int,
    allocatedRam: int)

  /** The metrics of one heartbeat; a metric may be absent. */
  datatype Metrics = Metrics(
    cpuCores: Option<int>,
    ramGB: Option<int>,
    gpuVramGB: Option<int>,
    uptimeHours: Option<int>,
    latencyMs: Option<int>)

  type Table = map<string, HostInfo>

  predicate Available(h: HostInfo, now: int) {
    && h.online
    && now - h.lastHeartbeat <= HEARTBEAT_LIMIT
    && h.allocatedCpu < h.cpuCores
    && h.allocatedRam < h.ramGB
  }

  predicate Fits(h: HostInfo, cpu: int, ram: int) {
    h.allocatedCpu + cpu <= h.cpuCores && h.allocatedRam + ram <= h.ramGB
  }

  function Charge(h: HostInfo, cpu: int, ram: int): HostInfo {
    h.(allocatedCpu := h.allocatedCpu + cpu, allocatedRam := h.allocatedRam + ram)
  }

  function AtLeastZero(n: int): int {
    if n < 0 then 0 else n
  }

  function Refund(h: HostInfo, cpu: int, ram: int): HostInfo {
    h.(allocatedCpu := AtLeastZero(h.allocatedCpu - cpu), allocatedRam := AtLeastZero(h.allocatedRam - ram))
  }

  /** The capacity after a heartbeat reported m: it may only go down, and not below the floor. */
  function Shrunk(capacity: int, m: Option<int>, floor: int): int {
    if m.Some? && floor <= m.value < capacity then m.value else capacity
  }

  function Beaten(h: HostInfo, m: Metrics, now: int): HostInfo {
    h.(online := true,
       lastHeartbeat := now,
       cpuCores := Shrunk(h.cpuCores, m.cpuCores, 1),
       ramGB := Shrunk(h.ramGB, m.ramGB, 1),
       gpuVramGB := Shrunk(h.gpuVramGB, m.gpuVramGB, 0),
       uptimeHours := if m.uptimeHours.Some? then m.uptimeHours.value else h.uptimeHours,
       latencyMs := if m.latencyMs.Some? then m.latencyMs.value else h.latencyMs)
  }

  /** What is reported of a capacity is believed if it is no more than is known, and not below the floor. */
  ghost predicate Reported(known: int, m: Option<int>, floor: int, now: int) {
    && now <= known
    && (now != known ==> m == Some(now) && now >= floor)
    && (m.Some? && floor <= m.value <= known ==> now == m.value)
  }

  /** A heartbeat puts a host online at its time, only ever lowers a capacity, to what was reported, and takes over
      uptime and latency when they are reported; the uplink and what is given away stay. */
  lemma BeatenOnFields(h: HostInfo, m: Metrics, now: int)
    ensures var b := Beaten(h, m, now);
      && b.online && b.lastHeartbeat == now
      && Reported(h.cpuCores, m.cpuCores, 1, b.cpuCores) && Reported(h.ramGB, m.ramGB, 1, b.ramGB)
      && Reported(h.gpuVramGB, m.gpuVramGB, 0, b.gpuVramGB)
      && (m.uptimeHours == Some(b.uptimeHours) || (m.uptimeHours.None? && b.uptimeHours == h.uptimeHours))
      && (m.latencyMs == Some(b.latencyMs) || (m.latencyMs.None? && b.latencyMs == h.latencyMs))
      && b.uplinkMbps == h.uplinkMbps && b.allocatedCpu == h.allocatedCpu && b.allocatedRam == h.allocatedRam
  {
  }

  class Host {
    const id: string
    var cpuCores: int
    var ramGB: int
    var gpuVramGB: int
    var uplinkMbps: int
    var latencyMs: int
    var uptimeHours: int
    var online: bool
    var lastHeartbeat: int
    var allocatedCpu: int
    var allocatedRam: int

    constructor (id: string, info: HostInfo)
      ensures this.id == id && Info() == info
    {
      this.id := id;
      cpuCores, ramGB, gpuVramGB := info.cpuCores, info.ramGB, info.gpuVramGB;
      uplinkMbps, latencyMs, uptimeHours := info.uplinkMbps, info.latencyMs, info.uptimeHours;
      online, lastHeartbeat := info.online, info.lastHeartbeat;
      allocatedCpu, allocatedRam := info.allocatedCpu, info.allocatedRam;
    }

    function Info(): HostInfo
      reads this
    {
      HostInfo(cpuCores, ramGB, gpuVramGB, uplinkMbps, latencyMs, uptimeHours, online, lastHeartbeat,
        allocatedCpu, allocatedRam)
    }

    /** The field updates of one heartbeat. */
    method Beat(m: Metrics, now: int)
      modifies this
      ensures Info() == Beaten(old(Info()), m, now)
    {
      online := true;
      lastHeartbeat := now;
      if m.cpuCores.Some? && 0 < m.cpuCores.value < cpuCores {
        cpuCores := m.cpuCores.value;
      }
      if m.ramGB.Some? && 0 < m.ramGB.value < ramGB {
        ramGB := m.ramGB.value;
      }
      if m.gpuVramGB.Some? && 0 <= m.gpuVramGB.value < gpuVramGB {
        gpuVramGB := m.gpuVramGB.value;
      }
      if m.uptimeHours.Some? {
        uptimeHours := m.uptimeHours.value;
      }
      if m.latencyMs.Some? {
        latencyMs := m.latencyMs.value;
      }
    }
  }

  class Manager {
    var hosts: map<string, Host>

    /** Every record is filed under its own ID, so no record is filed twice. */
    ghost predicate Valid()
      reads this, hosts.Values
    {
      forall k :: k in hosts ==> hosts[k].id == k
    }

    ghost function Contents(): Table
      reads this, hosts.Values
    {
      map k | k in hosts :: hosts[k].Info()
    }

    constructor ()
      ensures Valid() && Contents() == map[] && hosts == map[]
    {
      hosts := map[];
    }

    method Register(h: Host, now: int)
      requires Valid()
      modifies this, h
      ensures Valid() && hosts == old(hosts)[h.id := h]
      ensures Contents() == old(Contents())[h.id := old(h.Info()).(online := true, lastHeartbeat := now)]
    {
      h.online := true;
      h.lastHeartbeat := now;
      hosts := hosts[h.id := h];
    }

    method Heartbeat(id: string, m: Metrics, now: int) returns (known: bool)
      requires Valid()
      modifies hosts.Values
      ensures Valid() && hosts == old(hosts)
      ensures known == (id in old(Contents()))
      ensures Contents() == if known then old(Contents())[id := Beaten(old(Contents())[id], m, now)] else old(Contents())
    {
      if id !in hosts {
        return false;
      }
      hosts[id].Beat(m, now);
      return true;
    }

    method MarkOffline(id: string)
      requires Valid()
      modifies hosts.Values
      ensures Valid() && hosts == old(hosts)
      ensures Contents() ==
        if id in old(Contents()) then old(Contents())[id := old(Contents())[id].(online := false)] else old(Contents())
    {
      if id in hosts {
        hosts[id].online := false;
      }
    }

    /** The records of the available hosts, each once, in no particular order. */
    method GetAvailable(now: int) returns (result: seq<Host>)
      requires Valid()
      ensures forall h :: h in result <==> h.id in hosts && hosts[h.id] == h && Available(h.Info(), now)
      ensures forall h :: h in result ==>
        && h.online && h.lastHeartbeat >= now - 30_000_000_000
        && h.allocatedCpu < h.cpuCores && h.allocatedRam < h.ramGB
      ensures forall id :: id in hosts && hosts[id] !in result ==>
        || !hosts[id].online || hosts[id].lastHeartbeat < now - 30_000_000_000
        || hosts[id].allocatedCpu >= hosts[id].cpuCores || hosts[id].allocatedRam >= hosts[id].ramGB
      ensures forall i, j :: 0 <= i < j < |result| ==> result[i] != result[j]
    {
      result := [];
      var todo := hosts.Keys;
      while todo != {}
        invariant todo <= hosts.Keys
        invariant forall h :: h in result <==>
          h.id in hosts.Keys - todo && hosts[h.id] == h && Available(h.Info(), now)
        invariant forall i, j :: 0 <= i < j < |result| ==> result[i] != result[j]
        decreases todo
      {
        var k :| k in todo;
        todo := todo - {k};
        var h := hosts[k];
        if !h.online || now - h.lastHeartbeat > HEARTBEAT_LIMIT {
          continue;
        }
        if h.allocatedCpu >= h.cpuCores || h.allocatedRam >= h.ramGB {
          continue;
        }
        result := result + [h];
      }
    }

    method Allocate(id: string, cpu: int, ram: int) returns (ok: bool)
      requires Valid()
      modifies hosts.Values
      ensures Valid() && hosts == old(hosts)
      ensures ok == (id in old(Contents()) && Fits(old(Contents())[id], cpu, ram))
      ensures Contents() == if ok then old(Contents())[id := Charge(old(Contents())[id], cpu, ram)] else old(Contents())
      ensures ok ==> id in hosts
      ensures ok ==> old(hosts[id].allocatedCpu) + cpu <= old(hosts[id].cpuCores)
      ensures ok ==> old(hosts[id].allocatedRam) + ram <= old(hosts[id].ramGB)
      ensures !ok && id in hosts ==>
        || old(hosts[id].allocatedCpu) + cpu > old(hosts[id].cpuCores)
        || old(hosts[id].allocatedRam) + ram > old(hosts[id].ramGB)
      ensures ok ==> hosts[id].allocatedCpu == old(hosts[id].allocatedCpu) + cpu
      ensures ok ==> hosts[id].allocatedRam == old(hosts[id].allocatedRam) + ram
    {
      if id !in hosts {
        return false;
      }
      var h := hosts[id];
      if h.allocatedCpu + cpu > h.cpuCores || h.allocatedRam + ram > h.ramGB {
        return false;
      }
      h.allocatedCpu := h.allocatedCpu + cpu;
      h.allocatedRam := h.allocatedRam + ram;
      return true;
    }

    method Release(id: string, cpu: int, ram: int)
      requires Valid()
      modifies hosts.Values
      ensures Valid() && hosts == old(hosts)
      ensures Contents() ==
        if id in old(Contents()) then old(Contents())[id := Refund(old(Contents())[id], cpu, ram)] else old(Contents())
      ensures id in hosts && cpu <= old(hosts[id].allocatedCpu) ==>
        hosts[id].allocatedCpu == old(hosts[id].allocatedCpu) - cpu
      ensures id in hosts && ram <= old(hosts[id].allocatedRam) ==>
        hosts[id].allocatedRam == old(hosts[id].allocatedRam) - ram
      ensures id in hosts && cpu > old(hosts[id].allocatedCpu) ==> hosts[id].allocatedCpu == 0
      ensures id in hosts && ram > old(hosts[id].allocatedRam) ==> hosts[id].allocatedRam == 0
    {
      if id !in hosts {
        return;
      }
      var h := hosts[id];
      h.allocatedCpu := AtLeastZero(h.allocatedCpu - cpu);
      h.allocatedRam := AtLeastZero(h.allocatedRam - ram);
    }
  }
}
