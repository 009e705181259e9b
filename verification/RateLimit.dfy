/** The gateway's token buckets, one per key, and the sweep that forgets idle ones. Times are seconds. */
module RateLimit {
  import opened Collections

  type Key = string

  const HOUR := 3600.0

  datatype Bucket = Bucket(tokens: real, lastSeen: real)

  type Table = map<Key, Bucket>

  datatype Config = Config(rps: real, burst: real)

  ghost predicate Sane(c: Config) {
    c.rps >= 1.0 && c.burst >= 1.0
  }

  /** An hour refills any bucket. */
  ghost predicate HourFills(c: Config) {
    c.burst <= 3600.0 * c.rps
  }

  /** Values that are zero or less become 1. */
  function NewConfig(rps: int, burst: int): (c: Config)
    ensures Sane(c)
    ensures (rps >= 1 ==> c.rps == rps as real) && (burst >= 1 ==> c.burst == burst as real)
    ensures (rps <= 0 ==> c.rps == 1.0) && (burst <= 0 ==> c.burst == 1.0)
  {
    Config(if rps <= 0 then 1.0 else rps as real, if burst <= 0 then 1.0 else burst as real)
  }

  /** Integer division as the program has it, toward zero. */
  function Quotient(n: int, d: int): int
    requires d > 0
  {
    if n >= 0 then n / d else -((-n) / d)
  }

  /** With the limits the server sets, from any number of requests per minute, an hour refills any bucket. */
  lemma WiringHourFills(rpm: int)
    ensures var c := NewConfig(Quotient(rpm, 60), Quotient(rpm, 4));
      && HourFills(c)
      && c.rps == (if rpm < 60 then 1 else rpm / 60) as real && c.burst == (if rpm < 4 then 1 else rpm / 4) as real
  {
    var rps := if Quotient(rpm, 60) <= 0 then 1 else Quotient(rpm, 60);
    var burst := if Quotient(rpm, 4) <= 0 then 1 else Quotient(rpm, 4);
    assert burst <= 3600 * rps;
    assert burst as real <= (3600 * rps) as real == HOUR * rps as real;
  }

  // --------------------------------------------------------------------------- requests and sweeps

  /** What flows into a bucket in a stretch of time. */
  function Refill(c: Config, t: real): real {
    c.rps * t
  }

  lemma RefillFacts(c: Config, t: real, u: real)
    requires Sane(c)
    ensures Refill(c, 0.0) == 0.0 && Refill(c, t + u) == Refill(c, t) + Refill(c, u)
    ensures t <= u ==> Refill(c, t) <= Refill(c, u)
    ensures HourFills(c) ==> Refill(c, HOUR) >= c.burst
  {
  }

  /** What is in a bucket at a later moment: no more than the burst. */
  function Filled(c: Config, b: Bucket, now: real): real {
    var tokens := b.tokens + Refill(c, now - b.lastSeen);
    if tokens > c.burst then c.burst else tokens
  }

  /** What a key has to spend at a moment; a key that is not filed has all of it. */
  function Level(c: Config, items: Table, key: Key, now: real): real {
    if key !in items then c.burst else Filled(c, items[key], now)
  }

  datatype Event = Request(key: Key, at: real) | Sweep(at: real)

  predicate Allows(c: Config, items: Table, key: Key, now: real) {
    Level(c, items, key, now) >= 1.0
  }

  function Spend(c: Config, items: Table, key: Key, now: real): Table {
    var level := Level(c, items, key, now);
    items[key := Bucket(if level >= 1.0 then level - 1.0 else level, now)]
  }

  function Evict(items: Table, now: real): Table {
    map k | k in items && items[k].lastSeen >= now - HOUR :: items[k]
  }

  function Apply(c: Config, items: Table, e: Event): Table {
    match e
    case Request(key, at) => Spend(c, items, key, at)
    case Sweep(at) => Evict(items, at)
  }

  /** The answers to the requests of a run. */
  function Decisions(c: Config, items: Table, events: seq<Event>): seq<bool>
    decreases |events|
  {
    if events == [] then
      []
    else
      var e := events[0];
      (if e.Request? then [Allows(c, items, e.key, e.at)] else []) + Decisions(c, Apply(c, items, e), events[1..])
  }

  /** How many of a key's requests a run lets through. */
  function Allowed(c: Config, items: Table, events: seq<Event>, key: Key): nat
    decreases |events|
  {
    if events == [] then
      0
    else
      var e := events[0];
      (if e.Request? && e.key == key && Allows(c, items, key, e.at) then 1 else 0) + Allowed(c, Apply(c, items, e), events[1..], key)
  }

  ghost predicate Monotone(events: seq<Event>, from: real) {
    (forall k :: 0 <= k < |events| ==> from <= events[k].at)
    && forall j, k :: 0 <= j < k < |events| ==> events[j].at <= events[k].at
  }

  ghost predicate TableOk(c: Config, items: Table, now: real) {
    forall k :: k in items ==> 0.0 <= items[k].tokens <= c.burst && items[k].lastSeen <= now
  }

  // --------------------------------------------------------------------------- the limiter

  class Cell {
    var tokens: real
    var lastSeen: real

    constructor (tokens: real, lastSeen: real)
      ensures this.tokens == tokens && this.lastSeen == lastSeen
    {
      this.tokens, this.lastSeen := tokens, lastSeen;
    }

    method Spend(c: Config, now: real) returns (allowed: bool)
      modifies this
      ensures var level := old(Filled(c, Bucket(tokens, lastSeen), now));
        && allowed == (level >= 1.0)
        && tokens == (if level >= 1.0 then level - 1.0 else level) && lastSeen == now
    {
      var elapsed := now - lastSeen;
      tokens := tokens + Refill(c, elapsed);
      lastSeen := now;
      if tokens > c.burst {
        tokens := c.burst;
      }
      if tokens >= 1.0 {
        tokens := tokens - 1.0;
        return true;
      }
      return false;
    }
  }

  class Limiter {
    const limits: Config
    var items: map<Key, Cell>

    ghost predicate Valid()
      reads this
    {
      forall j, k :: j in items && k in items && items[j] == items[k] ==> j == k
    }

    ghost function Contents(): Table
      reads this, items.Values
    {
      map k | k in items :: Bucket(items[k].tokens, items[k].lastSeen)
    }

    constructor (rps: int, burst: int)
      ensures Valid() && limits == NewConfig(rps, burst) && Contents() == map[] && items == map[]
    {
      limits := NewConfig(rps, burst);
      items := map[];
    }

    method AddToken(key: Key, now: real) returns (allowed: bool)
      requires Valid()
      modifies this`items, items.Values
      ensures Valid() && allowed == Allows(limits, old(Contents()), key, now)
      ensures Contents() == Spend(limits, old(Contents()), key, now)
      ensures forall cell :: cell in items.Values ==> cell in old(items.Values) || fresh(cell)
    {
      hide Filled;
      if key !in items {
        FullBucket(limits, now);
        var cell := new Cell(limits.burst, now);
        items := items[key := cell];
      }
      allowed := items[key].Spend(limits, now);
    }

    method Sweep(now: real)
      requires Valid()
      modifies this`items
      ensures Valid() && Contents() == Evict(old(Contents()), now)
      ensures items.Values <= old(items.Values)
      ensures forall k :: k in items <==> k in old(items) && old(items[k].lastSeen) >= now - 3600.0
    {
      var cutoff := now - HOUR;
      var unseen := items.Keys;
      ghost var before := items;
      while unseen != {}
        invariant unseen <= items.Keys <= before.Keys
        invariant forall k :: k in items ==> items[k] == before[k]
        invariant forall k :: k in before && k !in unseen ==> (k in items <==> before[k].lastSeen >= cutoff)
        decreases |unseen|
      {
        var key :| key in unseen;
        unseen := unseen - {key};
        if items[key].lastSeen < cutoff {
          items := items - {key};
        }
      }
    }
  }

  lemma FullBucket(c: Config, now: real)
    ensures Filled(c, Bucket(c.burst, now), now) == c.burst
  {
  }

  // --------------------------------------------------------------------------- the rate

  lemma ApplyOk(c: Config, items: Table, e: Event, now: real)
    requires Sane(c) && TableOk(c, items, now) && now <= e.at
    ensures TableOk(c, Apply(c, items, e), e.at)
  {
    hide Refill;
    if e.Request? && e.key in items {
      RefillFacts(c, 0.0, e.at - items[e.key].lastSeen);
    }
  }

  /** Between requests a level grows no faster than the rate. */
  lemma LevelGrows(c: Config, items: Table, key: Key, now: real, later: real)
    requires Sane(c) && TableOk(c, items, now) && now <= later
    ensures 0.0 <= Level(c, items, key, now) <= Level(c, items, key, later) <= c.burst
    ensures Level(c, items, key, later) <= Level(c, items, key, now) + Refill(c, later - now)
  {
    hide Refill;
    RefillFacts(c, 0.0, later - now);
    if key in items {
      var seen := items[key].lastSeen;
      RefillFacts(c, 0.0, now - seen);
      RefillFacts(c, now - seen, later - now);
      assert now - seen + (later - now) == later - seen;
    }
  }

  /** A request takes one token, or none, from its own key only. */
  lemma LevelAfterRequest(c: Config, items: Table, key: Key, other: Key, now: real)
    requires Sane(c) && TableOk(c, items, now)
    ensures var level := Level(c, items, other, now);
      Level(c, Spend(c, items, key, now), other, now) == if other == key && level >= 1.0 then level - 1.0 else level
  {
    if other == key {
      LevelGrows(c, items, key, now, now);
      RefillFacts(c, 0.0, 0.0);
    }
    hide Refill;
  }

  /** A bucket that an hour refills is full when it is forgotten. */
  lemma FullWhenForgotten(c: Config, b: Bucket, now: real)
    requires Sane(c) && HourFills(c) && b.tokens >= 0.0 && b.lastSeen < now - HOUR
    ensures b.tokens + Refill(c, now - b.lastSeen) >= c.burst
  {
    hide Refill;
    RefillFacts(c, HOUR, now - b.lastSeen);
  }

  lemma LevelAfterSweep(c: Config, items: Table, key: Key, now: real)
    requires Sane(c) && TableOk(c, items, now) && HourFills(c)
    ensures Level(c, Evict(items, now), key, now) == Level(c, items, key, now)
  {
    hide Refill;
    if key in items && items[key].lastSeen < now - HOUR {
      FullWhenForgotten(c, items[key], now);
    }
  }

  /**
   * From any state, over any run in which time does not go back, a key gets at most what it has plus the rate times
   * the time that passes; sweeps do not matter if an hour refills any bucket.
   */
  lemma {:induction false} RateIsBounded(c: Config, items: Table, events: seq<Event>, key: Key, from: real, to: real)
    requires Sane(c) && TableOk(c, items, from) && Monotone(events, from) && from <= to
    requires forall k :: 0 <= k < |events| ==> events[k].at <= to
    requires HourFills(c) || forall k :: 0 <= k < |events| ==> events[k].Request?
    ensures Allowed(c, items, events, key) as real <= Level(c, items, key, from) + Refill(c, to - from)
    decreases |events|
  {
    hide Refill, Level, Apply, Allowed, TableOk, Sane, HourFills;
    LevelGrows(c, items, key, from, to);
    RefillFacts(c, 0.0, to - from);
    if events == [] {
      AllowedNothing(c, items, key);
    } else {
      var e := events[0];
      var next := Apply(c, items, e);
      LevelGrows(c, items, key, from, e.at);
      ApplyOk(c, items, e, from);
      TableLater(c, items, from, e.at);
      RateIsBounded(c, next, events[1..], key, e.at, to);
      RefillFacts(c, e.at - from, to - e.at);
      assert e.at - from + (to - e.at) == to - from;
      ApplyIs(c, items, e);
      if e.Request? {
        LevelAfterRequest(c, items, e.key, key, e.at);
      } else {
        LevelAfterSweep(c, items, key, e.at);
      }
      AllowedFirst(c, items, events, key);
    }
  }

  lemma AllowedNothing(c: Config, items: Table, key: Key)
    ensures Allowed(c, items, [], key) == 0
  {
  }

  lemma TableLater(c: Config, items: Table, now: real, later: real)
    requires TableOk(c, items, now) && now <= later
    ensures TableOk(c, items, later)
  {
  }

  lemma ApplyIs(c: Config, items: Table, e: Event)
    ensures e.Request? ==> Apply(c, items, e) == Spend(c, items, e.key, e.at)
    ensures e.Sweep? ==> Apply(c, items, e) == Evict(items, e.at)
  {
  }

  lemma AllowedFirst(c: Config, items: Table, events: seq<Event>, key: Key)
    requires events != []
    ensures var e := events[0];
      Allowed(c, items, events, key)
        == (if e.Request? && e.key == key && Level(c, items, key, e.at) >= 1.0 then 1 else 0) + Allowed(c, Apply(c, items, e), events[1..], key)
  {
    hide Level, Apply;
  }

  /** State after a run. */
  function After(c: Config, items: Table, events: seq<Event>): Table
    decreases |events|
  {
    if events == [] then items else After(c, Apply(c, items, events[0]), events[1..])
  }

  lemma {:induction false} AfterOk(c: Config, items: Table, events: seq<Event>, from: real, to: real)
    requires Sane(c) && TableOk(c, items, from) && Monotone(events, from) && from <= to
    requires forall k :: 0 <= k < |events| ==> events[k].at <= to
    ensures TableOk(c, After(c, items, events), to)
    decreases |events|
  {
    if events == [] {
      TableLater(c, items, from, to);
    } else {
      ApplyOk(c, items, events[0], from);
      AfterOk(c, Apply(c, items, events[0]), events[1..], events[0].at, to);
    }
  }

  /** In every window of every run of a limiter, a key gets at most the burst plus the rate times the window. */
  lemma WindowIsBounded(c: Config, before: seq<Event>, window: seq<Event>, key: Key, from: real, to: real)
    requires Sane(c) && from <= to
    requires before != [] ==> Monotone(before, before[0].at) && forall k :: 0 <= k < |before| ==> before[k].at <= from
    requires Monotone(window, from) && forall k :: 0 <= k < |window| ==> window[k].at <= to
    requires HourFills(c) || forall k :: 0 <= k < |window| ==> window[k].Request?
    ensures Allowed(c, After(c, map[], before), window, key) as real <= c.burst + Refill(c, to - from)
  {
    var items := After(c, map[], before);
    if before != [] {
      AfterOk(c, map[], before, before[0].at, from);
    }
    RateIsBounded(c, items, window, key, from, to);
    LevelGrows(c, items, key, from, from);
  }

  // --------------------------------------------------------------------------- forgetting is safe, exactly when

  function WithoutSweeps(events: seq<Event>): seq<Event> {
    if events == [] then [] else (if events[0].Request? then [events[0]] else []) + WithoutSweeps(events[1..])
  }

  lemma WithoutSweepsFirst(events: seq<Event>)
    requires events != []
    ensures WithoutSweeps(events) == (if events[0].Request? then [events[0]] else []) + WithoutSweeps(events[1..])
    ensures events[0].Sweep? ==> WithoutSweeps(events) == WithoutSweeps(events[1..])
  {
  }

  /** Two tables no later request can tell apart. */
  ghost predicate Alike(c: Config, a: Table, b: Table, now: real) {
    && (forall k :: k in a ==> k in b && a[k] == b[k])
    && (forall k :: k in b && k !in a ==> b[k].tokens + Refill(c, now - b[k].lastSeen) >= c.burst)
  }

  lemma AlikeLater(c: Config, a: Table, b: Table, now: real, later: real)
    requires Sane(c) && Alike(c, a, b, now) && now <= later
    ensures Alike(c, a, b, later)
  {
    hide Refill;
    forall k | k in b && k !in a
      ensures b[k].tokens + Refill(c, later - b[k].lastSeen) >= c.burst
    {
      RefillFacts(c, now - b[k].lastSeen, later - b[k].lastSeen);
    }
  }

  lemma AlikeLevels(c: Config, a: Table, b: Table, key: Key, now: real)
    requires Alike(c, a, b, now)
    ensures Level(c, a, key, now) == Level(c, b, key, now)
  {
  }

  lemma AlikeAfterRequest(c: Config, a: Table, b: Table, key: Key, now: real)
    requires Alike(c, a, b, now)
    ensures Alike(c, Spend(c, a, key, now), Spend(c, b, key, now), now)
  {
    AlikeLevels(c, a, b, key, now);
    hide Level, Refill;
  }

  lemma AlikeAfterSweep(c: Config, a: Table, b: Table, now: real)
    requires Sane(c) && HourFills(c) && TableOk(c, b, now) && Alike(c, a, b, now)
    ensures Alike(c, Evict(a, now), b, now)
  {
    forall k | k in b && k !in Evict(a, now)
      ensures b[k].tokens + Refill(c, now - b[k].lastSeen) >= c.burst
    {
      if k in a {
        FullWhenForgotten(c, b[k], now);
      }
    }
  }

  lemma {:induction false} SweepsAreTransparent(c: Config, a: Table, b: Table, events: seq<Event>, from: real)
    requires Sane(c) && HourFills(c) && Monotone(events, from) && TableOk(c, b, from) && Alike(c, a, b, from)
    ensures Decisions(c, a, events) == Decisions(c, b, WithoutSweeps(events))
    decreases |events|
  {
    if events != [] {
      var e := events[0];
      AlikeLater(c, a, b, from, e.at);
      TableLater(c, b, from, e.at);
      hide Alike, Level, Refill, TableOk, Apply, Decisions, HourFills, Sane;
      DecisionsFirst(c, a, events);
      ApplyIs(c, a, e);
      ApplyIs(c, b, e);
      if e.Request? {
        AlikeLevels(c, a, b, e.key, e.at);
        AlikeAfterRequest(c, a, b, e.key, e.at);
        ApplyOk(c, b, e, from);
        SweepsAreTransparent(c, Apply(c, a, e), Apply(c, b, e), events[1..], e.at);
        var later := WithoutSweeps(events[1..]);
        assert WithoutSweeps(events) == [e] + later && ([e] + later)[1..] == later;
        DecisionsFirst(c, b, [e] + later);
      } else {
        AlikeAfterSweep(c, a, b, e.at);
        WithoutSweepsFirst(events);
        SweepsAreTransparent(c, Apply(c, a, e), b, events[1..], e.at);
      }
    }
  }

  lemma DecisionsFirst(c: Config, items: Table, events: seq<Event>)
    requires events != []
    ensures var e := events[0];
      Decisions(c, items, events)
        == (if e.Request? then [Level(c, items, e.key, e.at) >= 1.0] else []) + Decisions(c, Apply(c, items, e), events[1..])
  {
    hide Level, Apply;
  }

  /** n requests of a key at one moment. */
  function Repeat(key: Key, at: real, n: nat): seq<Event> {
    seq(n, _ => Request(key, at))
  }

  lemma {:induction false} RepeatAllowed(c: Config, items: Table, key: Key, at: real, n: nat, rest: seq<Event>)
    requires Sane(c) && TableOk(c, items, at) && n as real <= Level(c, items, key, at)
    ensures var now := After(c, items, Repeat(key, at, n));
      && TableOk(c, now, at) && Level(c, now, key, at) == Level(c, items, key, at) - n as real
      && (n > 0 ==> key in now && now[key].lastSeen == at)
      && Decisions(c, items, Repeat(key, at, n) + rest) == Yes(n) + Decisions(c, now, rest)
      && Allowed(c, items, Repeat(key, at, n) + rest, key) == n + Allowed(c, now, rest, key)
    decreases n
  {
    hide *;
    if n == 0 {
      NoRepeat(key, at, rest);
      AfterNothing(c, items);
      assert Yes(0) + Decisions(c, items, rest) == Decisions(c, items, rest) by { YesFirst(0); }
    } else {
      var request := Request(key, at);
      var next := Spend(c, items, key, at);
      var fewer := Repeat(key, at, n - 1);
      RepeatFirst(key, at, n, rest);
      ApplyIs(c, items, request);
      ApplyOk(c, items, request, at);
      LevelAfterRequest(c, items, key, key, at);
      DecisionsFirst(c, items, [request] + (fewer + rest));
      AllowedFirst(c, items, [request] + (fewer + rest), key);
      AfterFirst(c, items, request, fewer);
      SplitConcat([request], fewer + rest);
      RepeatAllowed(c, next, key, at, n - 1, rest);
      YesFirst(n);
      ConcatAssociates([true], Yes(n - 1), Decisions(c, After(c, next, fewer), rest));
      if n == 1 {
        AfterNothing(c, next);
        NoRepeat(key, at, []);
        SpentNow(c, items, key, at);
      }
    }
  }

  function Yes(n: nat): seq<bool> {
    seq(n, _ => true)
  }

  lemma YesFirst(n: nat)
    ensures n == 0 ==> Yes(n) == []
    ensures n > 0 ==> Yes(n) == [true] + Yes(n - 1)
  {
  }

  lemma NoRepeat(key: Key, at: real, rest: seq<Event>)
    ensures Repeat(key, at, 0) == [] && Repeat(key, at, 0) + rest == rest
  {
  }

  lemma RepeatFirst(key: Key, at: real, n: nat, rest: seq<Event>)
    requires n > 0
    ensures Repeat(key, at, n) == [Request(key, at)] + Repeat(key, at, n - 1)
    ensures Repeat(key, at, n) + rest == [Request(key, at)] + (Repeat(key, at, n - 1) + rest)
  {
  }

  lemma AfterNothing(c: Config, items: Table)
    ensures After(c, items, []) == items
  {
  }

  lemma AfterFirst(c: Config, items: Table, e: Event, rest: seq<Event>)
    ensures After(c, items, [e] + rest) == After(c, Apply(c, items, e), rest)
  {
    hide Apply;
    assert ([e] + rest)[1..] == rest;
  }

  lemma SpentNow(c: Config, items: Table, key: Key, at: real)
    ensures key in Spend(c, items, key, at) && Spend(c, items, key, at)[key].lastSeen == at
  {
    hide Level;
  }

  lemma {:induction false} WithoutSweepsConcat(p: seq<Event>, q: seq<Event>)
    ensures WithoutSweeps(p + q) == WithoutSweeps(p) + WithoutSweeps(q)
  {
    if p == [] {
      assert p + q == q;
    } else {
      WithoutSweepsConcat(p[1..], q);
      assert (p + q)[1..] == p[1..] + q && (p + q)[0] == p[0];
      WithoutSweepsFirst(p);
      WithoutSweepsFirst(p + q);
      hide WithoutSweeps;
      ConcatAssociates(if p[0].Request? then [p[0]] else [], WithoutSweeps(p[1..]), WithoutSweeps(q));
    }
  }

  lemma {:induction false} RepeatHasNoSweeps(key: Key, at: real, n: nat)
    ensures WithoutSweeps(Repeat(key, at, n)) == Repeat(key, at, n)
    decreases n
  {
    if n > 0 {
      RepeatHasNoSweeps(key, at, n - 1);
      assert Repeat(key, at, n)[1..] == Repeat(key, at, n - 1);
    }
  }

  /**
   * Spend the whole burst at time 0; after a little more than an hour, sweep, and ask for an hour's refill and
   * one more.
   */
  function Probe(burst: nat, refill: nat, later: real): seq<Event> {
    Repeat("", 0.0, burst) + ([Sweep(later)] + Repeat("", later, refill + 1))
  }

  lemma DecisionsNothing(c: Config, items: Table)
    ensures Decisions(c, items, []) == [] && Allowed(c, items, [], "") == 0
  {
  }

  /** With the sweep, every request of the probe is let through. */
  lemma ProbeWithSweep(c: Config, burst: nat, refill: nat, later: real)
    requires Sane(c) && c.burst == burst as real && refill < burst && later > HOUR
    ensures Decisions(c, map[], Probe(burst, refill, later)) == Yes(burst + refill + 1)
    ensures Allowed(c, map[], Probe(burst, refill, later), "") == burst + refill + 1
  {
    var tail := Repeat("", later, refill + 1);
    var spent := After(c, map[], Repeat("", 0.0, burst));
    hide Level, Refill, Decisions, Allowed, After, Repeat, Evict, TableOk;
    NothingFiled(c);
    RepeatAllowed(c, map[], "", 0.0, burst, [Sweep(later)] + tail);
    DecisionsFirst(c, spent, [Sweep(later)] + tail);
    AllowedFirst(c, spent, [Sweep(later)] + tail, "");
    assert ([Sweep(later)] + tail)[1..] == tail && tail + [] == tail;
    var swept := Evict(spent, later);
    ApplyIs(c, spent, Sweep(later));
    Forgotten(c, spent, later);
    RepeatAllowed(c, swept, "", later, refill + 1, []);
    DecisionsNothing(c, After(c, swept, tail));
  }

  lemma Forgotten(c: Config, spent: Table, later: real)
    requires Sane(c) && TableOk(c, spent, 0.0) && later > HOUR && "" in spent && spent[""].lastSeen == 0.0
    ensures var swept := Evict(spent, later);
      TableOk(c, swept, later) && Level(c, swept, "", later) == c.burst
  {
    hide Refill;
  }

  /** Without the sweep, the last one is refused. */
  lemma ProbeWithoutSweep(c: Config, burst: nat, refill: nat, later: real)
    requires Sane(c) && c.burst == burst as real && refill < burst && later > HOUR
    requires refill as real <= Refill(c, later) < refill as real + 1.0
    ensures var d := Decisions(c, map[], WithoutSweeps(Probe(burst, refill, later)));
      |d| == burst + refill + 1 && !d[burst + refill]
  {
    hide Level, Refill, Decisions, After, Repeat, WithoutSweeps, TableOk;
    var first, tail := Repeat("", 0.0, burst), Repeat("", later, refill + 1);
    WithoutSweepsConcat(first, [Sweep(later)] + tail);
    WithoutSweepsFirst([Sweep(later)] + tail);
    assert ([Sweep(later)] + tail)[1..] == tail;
    RepeatHasNoSweeps("", 0.0, burst);
    RepeatHasNoSweeps("", later, refill + 1);
    NothingFiled(c);
    RepeatAllowed(c, map[], "", 0.0, burst, tail);
    var spent := After(c, map[], first);
    SpentLevel(c, spent, later);
    TableLater(c, spent, 0.0, later);
    var once := [Request("", later)];
    assert tail == Repeat("", later, refill) + once by { RepeatOnceMore(later, refill); }
    RepeatAllowed(c, spent, "", later, refill, once);
    var dry := After(c, spent, Repeat("", later, refill));
    DecisionsFirst(c, dry, once);
    assert once[1..] == [];
    DecisionsNothing(c, Apply(c, dry, once[0]));
  }

  lemma NothingFiled(c: Config)
    ensures TableOk(c, map[], 0.0) && Level(c, map[], "", 0.0) == c.burst
  {
  }

  lemma RepeatOnceMore(at: real, n: nat)
    ensures Repeat("", at, n + 1) == Repeat("", at, n) + [Request("", at)]
  {
  }

  lemma SpentLevel(c: Config, spent: Table, later: real)
    requires Sane(c) && "" in spent && spent[""].lastSeen == 0.0 && Level(c, spent, "", 0.0) == 0.0
    requires TableOk(c, spent, 0.0) && Refill(c, later) < c.burst
    ensures Level(c, spent, "", later) == Refill(c, later)
  {
    RefillFacts(c, 0.0, 0.0);
    hide Refill;
  }

  /** Sweeps change no answer. */
  ghost predicate Transparent(c: Config) {
    forall events: seq<Event>, from: real :: Monotone(events, from) ==> Decisions(c, map[], events) == Decisions(c, map[], WithoutSweeps(events))
  }

  /** In no run does any key get more than the burst plus the rate times the length of the run. */
  ghost predicate Bounded(c: Config) {
    forall events: seq<Event>, from: real, to: real, key: Key :: Within(events, from, to) ==>
      Allowed(c, map[], events, key) as real <= c.burst + Refill(c, to - from)
  }

  ghost predicate Within(events: seq<Event>, from: real, to: real) {
    from <= to && Monotone(events, from) && forall k :: 0 <= k < |events| ==> events[k].at <= to
  }

  lemma ProbeIsMonotone(burst: nat, refill: nat, later: real)
    requires later >= 0.0
    ensures Within(Probe(burst, refill, later), 0.0, later)
  {
  }

  /**
   * Whatever the configuration, forgetting idle keys is invisible, and the rate is bounded, exactly when an hour
   * refills any bucket.
   */
  lemma ForgettingIsSafeExactly(rps: int, burst: int)
    ensures var c := NewConfig(rps, burst);
      (HourFills(c) <==> Transparent(c)) && (HourFills(c) <==> Bounded(c))
  {
    var c := NewConfig(rps, burst);
    hide Level, Refill, Decisions, Allowed, Monotone;
    if HourFills(c) {
      assert Transparent(c) by { HourFillsIsTransparent(c); }
      assert Bounded(c) by { HourFillsIsBounded(c); }
    } else {
      var r: nat, b: nat := if rps <= 0 then 1 else rps, burst;
      var later := HOUR + 0.5 / r as real;
      ProbeRefill(c, r, later);
      ProbeIsMonotone(b, 3600 * r, later);
      ProbeWithSweep(c, b, 3600 * r, later);
      ProbeWithoutSweep(c, b, 3600 * r, later);
      var probe := Probe(b, 3600 * r, later);
      assert Decisions(c, map[], probe)[b + 3600 * r];
      assert Within(probe, 0.0, later) && later - 0.0 == later;
    }
  }

  lemma ProbeRefill(c: Config, r: nat, later: real)
    requires r >= 1 && c.rps == r as real && later == HOUR + 0.5 / r as real
    ensures Refill(c, later) == (3600 * r) as real + 0.5 && later > HOUR
  {
    assert r as real * (0.5 / r as real) == 0.5;
  }

  lemma HourFillsIsTransparent(c: Config)
    requires Sane(c) && HourFills(c)
    ensures Transparent(c)
  {
    hide Decisions, Monotone, Level;
    forall events: seq<Event>, from: real | Monotone(events, from)
      ensures Decisions(c, map[], events) == Decisions(c, map[], WithoutSweeps(events))
    {
      SweepsAreTransparent(c, map[], map[], events, from);
    }
  }

  lemma HourFillsIsBounded(c: Config)
    requires Sane(c) && HourFills(c)
    ensures Bounded(c)
  {
    hide Allowed, Monotone, Refill;
    forall events: seq<Event>, from: real, to: real, key: Key | Within(events, from, to)
      ensures Allowed(c, map[], events, key) as real <= c.burst + Refill(c, to - from)
    {
      RateIsBounded(c, map[], events, key, from, to);
    }
  }
}
