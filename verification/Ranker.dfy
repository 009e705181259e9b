/** Scoring and ranking of hosts for one queued item. */
module Ranker {
  import opened HostManager

  /** What the ranker reads of a queued item. */
  datatype Demand = Demand(cpuCores: int, ramGB: int, gpuRequired: bool, gpuVramGB: int, latencyBudgetMs: int)

  /** The demands that enqueue lets through. */
  predicate Wellformed(d: Demand) {
    d.cpuCores >= 1 && d.ramGB >= 1
  }

  predicate Suitable(d: Demand, h: HostInfo) {
    && h.cpuCores - h.allocatedCpu >= d.cpuCores
    && h.ramGB - h.allocatedRam >= d.ramGB
    && !(d.gpuRequired && h.gpuVramGB == 0)
    && !(d.gpuRequired && h.gpuVramGB < d.gpuVramGB)
  }

  /** The part of the score that live allocations do not touch. */
  function StaticScore(d: Demand, h: HostInfo): real {
    var latency :=
      if h.uplinkMbps > 0 && d.latencyBudgetMs > 0 then
        (100 - h.latencyMs) as real / 100.0 * 15.0 - (if h.latencyMs > d.latencyBudgetMs then 30.0 else 0.0)
      else 0.0;
    var uptime :=
      if h.uptimeHours > 0 then
        (var u := h.uptimeHours as real / 720.0; if u < 1.0 then u else 1.0) * 10.0
      else 0.0;
    var gpu := if h.gpuVramGB > 0 then 15.0 else 0.0;
    100.0 + latency + uptime + gpu
  }

  /** The source divides floats, where a zero divisor gives an infinity or NaN. No divisor is
      zero for a well-formed demand and non-negative counters, and no lemma needs the value 0. */
  function Quotient(a: int, b: int): real {
    if b == 0 then 0.0 else a as real / b as real
  }

  /** What live allocations cost: the share of the free cores and memory that the item would
      take, and the share of the cores already given away. */
  function LoadPenalty(d: Demand, h: HostInfo): real {
    Quotient(d.cpuCores, h.cpuCores - h.allocatedCpu) * 20.0
    + Quotient(d.ramGB, h.ramGB - h.allocatedRam) * 20.0
    + Quotient(h.allocatedCpu, h.cpuCores) * 20.0
  }

  function ScoreHost(d: Demand, h: HostInfo): (score: real)
    ensures score >= 0.0
    ensures score > 0.0 ==> h.allocatedCpu + d.cpuCores <= h.cpuCores && h.allocatedRam + d.ramGB <= h.ramGB
    ensures score > 0.0 && d.gpuRequired ==> h.gpuVramGB != 0 && d.gpuVramGB <= h.gpuVramGB
  {
    if !Suitable(d, h) then 0.0 else
    var score := StaticScore(d, h) - LoadPenalty(d, h);
    if score < 0.0 then 0.0 else score
  }

  /** The static part in 360ths is a whole number: 100 points, 0.15 for every millisecond of latency below 100 and 30
      less beyond the budget, a 72nd for every hour of uptime up to 720, and 15 for any GPU memory. */
  lemma StaticScoreIs(d: Demand, h: HostInfo)
    ensures StaticScore(d, h) * 360.0 == (
      36000
      + (if h.uplinkMbps > 0 && d.latencyBudgetMs > 0 then
           54 * (100 - h.latencyMs) - (if h.latencyMs > d.latencyBudgetMs then 10800 else 0)
         else 0)
      + (if h.uptimeHours >= 720 then 3600 else if h.uptimeHours > 0 then 5 * h.uptimeHours else 0)
      + (if h.gpuVramGB > 0 then 5400 else 0)) as real
  {
  }

  /** A host that meets a demand scores its static part less 20 times each of three shares: what the demand takes of its
      free cores, what it takes of its free memory, and what is given away of its cores; and never less than zero. */
  lemma ScoreIs(d: Demand, h: HostInfo, cores: real, memory: real, given: real)
    requires Wellformed(d) && h.allocatedCpu >= 0
    requires h.allocatedCpu + d.cpuCores <= h.cpuCores && h.allocatedRam + d.ramGB <= h.ramGB
    requires d.gpuRequired ==> h.gpuVramGB != 0 && d.gpuVramGB <= h.gpuVramGB
    requires cores * (h.cpuCores - h.allocatedCpu) as real == d.cpuCores as real
    requires memory * (h.ramGB - h.allocatedRam) as real == d.ramGB as real
    requires given * h.cpuCores as real == h.allocatedCpu as real
    ensures var score := StaticScore(d, h) - 20.0 * (cores + memory + given);
      ScoreHost(d, h) == if score < 0.0 then 0.0 else score
  {
    QuotientIs(d.cpuCores, h.cpuCores - h.allocatedCpu, cores);
    QuotientIs(d.ramGB, h.ramGB - h.allocatedRam, memory);
    QuotientIs(h.allocatedCpu, h.cpuCores, given);
    hide StaticScore, Quotient;
  }

  lemma QuotientIs(a: int, b: int, q: real)
    requires b > 0 && q * b as real == a as real
    ensures Quotient(a, b) == q
  {
    var p := Quotient(a, b);
    assert p * b as real == a as real;
    assert (p - q) * b as real == 0.0;
  }

  lemma QuotientGrows(a: int, b: int, c: int, d: int)
    requires 0 <= a <= c && 0 < d <= b
    ensures Quotient(a, b) <= Quotient(c, d)
  {
    var x, y := Quotient(a, b), Quotient(c, d);
    assert y * d as real <= y * b as real;
    assert x * b as real <= y * b as real;
    assert (y - x) * b as real >= 0.0;
  }

  /** More cores and memory given away never raise a host's score. */
  lemma ScoreFallsWithLoad(d: Demand, h: HostInfo, h': HostInfo)
    requires Wellformed(d) && 0 <= h.allocatedCpu <= h'.allocatedCpu && h.allocatedRam <= h'.allocatedRam
    requires h' == h.(allocatedCpu := h'.allocatedCpu, allocatedRam := h'.allocatedRam)
    ensures ScoreHost(d, h') <= ScoreHost(d, h)
  {
    if Suitable(d, h') {
      assert StaticScore(d, h') == StaticScore(d, h);
      QuotientGrows(d.cpuCores, h.cpuCores - h.allocatedCpu, d.cpuCores, h.cpuCores - h'.allocatedCpu);
      QuotientGrows(d.ramGB, h.ramGB - h.allocatedRam, d.ramGB, h.ramGB - h'.allocatedRam);
      QuotientGrows(h.allocatedCpu, h.cpuCores, h'.allocatedCpu, h.cpuCores);
      hide StaticScore, Quotient;
    }
  }

  datatype RankedHost = RankedHost(host: Host, score: real)

  ghost predicate Descending(s: seq<RankedHost>) {
    forall i, j :: 0 <= i < j < |s| ==> s[i].score >= s[j].score
  }

  lemma InsertedDescending(s: seq<RankedHost>, p: nat, r: RankedHost)
    requires Descending(s) && p <= |s|
    requires forall k :: 0 <= k < p ==> s[k].score >= r.score
    requires p < |s| ==> s[p].score < r.score
    ensures Descending(s[..p] + [r] + s[p..])
  {
    var t := s[..p] + [r] + s[p..];
    forall i, j | 0 <= i < j < |t| ensures t[i].score >= t[j].score {
      assert t[i] == if i < p then s[i] else if i == p then r else s[i - 1];
      assert t[j] == if j < p then s[j] else if j == p then r else s[j - 1];
    }
  }

  lemma InsertedMembers(s: seq<RankedHost>, p: nat, r: RankedHost)
    requires p <= |s|
    ensures multiset(s[..p] + [r] + s[p..]) == multiset(s) + multiset{r}
  {
    assert s == s[..p] + s[p..];
  }

  method InsertByScore(sorted: seq<RankedHost>, r: RankedHost) returns (longer: seq<RankedHost>)
    requires Descending(sorted)
    ensures Descending(longer) && multiset(longer) == multiset(sorted) + multiset{r}
  {
    var p := 0;
    while p < |sorted| && sorted[p].score >= r.score
      invariant 0 <= p <= |sorted|
      invariant forall k :: 0 <= k < p ==> sorted[k].score >= r.score
    {
      p := p + 1;
    }
    longer := sorted[..p] + [r] + sorted[p..];
    InsertedDescending(sorted, p, r);
    InsertedMembers(sorted, p, r);
  }

  /** Stands in for the library sort: some arrangement of s in descending score order. */
  method SortByScore(s: seq<RankedHost>) returns (sorted: seq<RankedHost>)
    ensures Descending(sorted) && multiset(sorted) == multiset(s)
  {
    sorted := [];
    for i := 0 to |s|
      invariant Descending(sorted) && multiset(sorted) == multiset(s[..i])
    {
      assert s[..i + 1] == s[..i] + [s[i]];
      sorted := InsertByScore(sorted, s[i]);
    }
    assert s[..|s|] == s;
  }

  /** The records that score above zero, each with its score, as often as they are given. */
  method PositiveScores(d: Demand, hosts: seq<Host>) returns (ranked: seq<RankedHost>)
    ensures forall r :: r in ranked <==>
      r.host in hosts && r.score == ScoreHost(d, r.host.Info()) && r.score > 0.0
    ensures forall r :: r in ranked ==> multiset(ranked)[r] == multiset(hosts)[r.host]
  {
    hide ScoreHost;
    ranked := [];
    for i := 0 to |hosts|
      invariant forall r :: r in ranked <==>
        r.host in hosts[..i] && r.score == ScoreHost(d, r.host.Info()) && r.score > 0.0
      invariant forall r :: r in ranked ==> multiset(ranked)[r] == multiset(hosts[..i])[r.host]
    {
      var score := ScoreHost(d, hosts[i].Info());
      assert hosts[..i + 1] == hosts[..i] + [hosts[i]];
      NotYetCounted(hosts[..i], hosts[i]);
      if score > 0.0 {
        ranked := ranked + [RankedHost(hosts[i], score)];
      }
    }
    assert hosts[..|hosts|] == hosts;
  }

  lemma NotYetCounted<T>(s: seq<T>, x: T)
    ensures x !in s ==> multiset(s)[x] == 0
  {
  }

  lemma {:induction false} HostIsCounted(s: seq<RankedHost>, hosts: seq<Host>, r: RankedHost)
    requires |s| == |hosts| && forall k :: 0 <= k < |s| ==> hosts[k] == s[k].host && (s[k].host == r.host ==> s[k] == r)
    ensures multiset(hosts)[r.host] == multiset(s)[r]
  {
    if s != [] {
      HostIsCounted(s[1..], hosts[1..], r);
      assert s == [s[0]] + s[1..] && hosts == [hosts[0]] + hosts[1..];
    }
  }

  /** The hosts that score above zero, each as often as it was given, best first. */
  method RankHosts(d: Demand, hosts: seq<Host>) returns (result: seq<Host>)
    ensures forall h :: h in result <==> h in hosts && ScoreHost(d, h.Info()) > 0.0
    ensures forall h :: h in result ==> multiset(result)[h] == multiset(hosts)[h]
    ensures forall i, j :: 0 <= i < j < |result| ==> ScoreHost(d, result[i].Info()) >= ScoreHost(d, result[j].Info())
  {
    hide ScoreHost;
    var ranked := PositiveScores(d, hosts);
    var sorted := SortByScore(ranked);
    SameMembers(sorted, ranked);
    result := [];
    for i := 0 to |sorted|
      invariant |result| == i && forall k :: 0 <= k < i ==> result[k] == sorted[k].host
    {
      result := result + [sorted[i].host];
    }
    forall k | 0 <= k < |sorted|
      ensures sorted[k].score == ScoreHost(d, result[k].Info()) && sorted[k].score > 0.0 && result[k] in hosts
      ensures multiset(result)[result[k]] == multiset(hosts)[result[k]]
    {
      assert sorted[k] in sorted;
      assert forall j :: 0 <= j < |sorted| ==> sorted[j] in sorted;
      HostIsCounted(sorted, result, sorted[k]);
    }
    forall h | h in hosts && ScoreHost(d, h.Info()) > 0.0 ensures h in result {
      assert RankedHost(h, ScoreHost(d, h.Info())) in sorted;
      var k :| 0 <= k < |sorted| && sorted[k] == RankedHost(h, ScoreHost(d, h.Info()));
      assert result[k] == h;
    }
  }

  lemma SameMembers<T>(s: seq<T>, t: seq<T>)
    requires multiset(s) == multiset(t)
    ensures forall x :: x in s <==> x in t
  {
    assert forall x :: x in s <==> x in multiset(s);
    assert forall x :: x in t <==> x in multiset(t);
  }
}
