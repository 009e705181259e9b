/** Which requests the limiter lets through: a bucket refuses a request exactly when some window would be too full. */
module RateLimitDecisions {
  import opened RateLimit

  predicate Mine(e: Event, key: Key) {
    e.Request? && e.key == key
  }

  /** The limiter after the first k events of a run that starts with an empty table. */
  function TableAt(c: Config, events: seq<Event>, k: nat): Table
    requires k <= |events|
  {
    After(c, map[], events[..k])
  }

  /** How many of a key's requests among events i to k - 1 the limiter lets through. */
  function AllowedIn(c: Config, events: seq<Event>, key: Key, i: nat, k: nat): nat
    requires i <= k <= |events|
  {
    Allowed(c, TableAt(c, events, i), events[i..k], key)
  }

  lemma {:induction false} AfterConcat(c: Config, items: Table, events: seq<Event>, e: Event)
    ensures After(c, items, events + [e]) == Apply(c, After(c, items, events), e)
    decreases |events|
  {
    hide Apply;
    if events == [] {
      assert [] + [e] == [e] && [e][1..] == [];
    } else {
      AfterConcat(c, Apply(c, items, events[0]), events[1..], e);
      assert (events + [e])[1..] == events[1..] + [e];
    }
  }

  lemma {:induction false} AllowedConcat(c: Config, items: Table, events: seq<Event>, e: Event, key: Key)
    ensures Allowed(c, items, events + [e], key)
      == Allowed(c, items, events, key) + if Mine(e, key) && Level(c, After(c, items, events), key, e.at) >= 1.0 then 1 else 0
    decreases |events|
  {
    hide Apply, Level;
    if events == [] {
      assert [] + [e] == [e] && [e][1..] == [];
      AllowedNothing(c, Apply(c, items, e), key);
    } else {
      AllowedConcat(c, Apply(c, items, events[0]), events[1..], e, key);
      assert (events + [e])[1..] == events[1..] + [e];
    }
  }

  lemma {:induction false} AfterSplit(c: Config, items: Table, p: seq<Event>, q: seq<Event>)
    ensures After(c, items, p + q) == After(c, After(c, items, p), q)
    decreases |p|
  {
    hide Apply;
    if p == [] {
      assert p + q == q;
    } else {
      AfterSplit(c, Apply(c, items, p[0]), p[1..], q);
      assert (p + q)[1..] == p[1..] + q;
    }
  }

  /** One event more: the table, and what was let through since event i. */
  lemma OneEventMore(c: Config, events: seq<Event>, key: Key, i: nat, k: nat)
    requires i <= k < |events|
    ensures TableAt(c, events, k + 1) == Apply(c, TableAt(c, events, k), events[k])
    ensures AllowedIn(c, events, key, i, k + 1) == AllowedIn(c, events, key, i, k)
      + if Mine(events[k], key) && Level(c, TableAt(c, events, k), key, events[k].at) >= 1.0 then 1 else 0
  {
    hide Apply, Level, After, Allowed;
    AfterConcat(c, map[], events[..k], events[k]);
    assert events[..k + 1] == events[..k] + [events[k]];
    AllowedConcat(c, TableAt(c, events, i), events[i..k], events[k], key);
    assert events[i..k + 1] == events[i..k] + [events[k]];
    AfterSplit(c, map[], events[..i], events[i..k]);
    assert events[..k] == events[..i] + events[i..k];
  }

  lemma NothingIn(c: Config, events: seq<Event>, key: Key, i: nat)
    requires i <= |events|
    ensures AllowedIn(c, events, key, i, i) == 0
  {
    assert events[i..i] == [];
  }

  /** What the bucket of a key holds at a moment: the burst, or what it has had since some earlier request of the key that
    * found it full. */
  ghost predicate FullOrSince(c: Config, events: seq<Event>, key: Key, k: nat, now: real)
    requires k <= |events|
  {
    var level := Level(c, TableAt(c, events, k), key, now);
    || level == c.burst
    || exists i :: 0 <= i < k && Since(c, events, key, i, k, now, level)
  }

  ghost predicate Since(c: Config, events: seq<Event>, key: Key, i: nat, k: nat, now: real, level: real)
    requires i < k <= |events|
  {
    Mine(events[i], key) && level == c.burst + c.rps * (now - events[i].at) - AllowedIn(c, events, key, i, k) as real
  }

  /** A run with the limiter's own sweeps, if an hour refills any bucket, or without. */
  ghost predicate RunOk(c: Config, events: seq<Event>, from: real) {
    Sane(c) && Monotone(events, from) && (HourFills(c) || forall k :: 0 <= k < |events| ==> events[k].Request?)
  }

  lemma TableAtOk(c: Config, events: seq<Event>, from: real, k: nat, now: real)
    requires RunOk(c, events, from) && k <= |events| && from <= now && (k > 0 ==> events[k - 1].at <= now)
    ensures TableOk(c, TableAt(c, events, k), now)
  {
    AfterOk(c, map[], events[..k], from, now);
  }

  /** A request of another key, and a sweep that is allowed, leave a key's level as it is, now and later. */
  lemma OthersLeaveLevel(c: Config, items: Table, e: Event, key: Key, now: real)
    requires Sane(c) && TableOk(c, items, e.at) && e.at <= now && !Mine(e, key) && (e.Sweep? ==> HourFills(c))
    ensures Level(c, Apply(c, items, e), key, now) == Level(c, items, key, now)
  {
    hide Refill, Sane;
    if e.Sweep? && key in items && items[key].lastSeen < e.at - HOUR {
      FullWhenForgotten(c, items[key], e.at);
      RefillFacts(c, e.at - items[key].lastSeen, now - items[key].lastSeen);
    }
  }

  /** After its own request a bucket has what it had less a token that was taken, and what flows in since, up to the burst. */
  lemma OwnLevelAfter(c: Config, items: Table, key: Key, at: real, now: real)
    requires Sane(c) && TableOk(c, items, at) && at <= now
    ensures var level := Level(c, items, key, at);
      var next := (if level >= 1.0 then level - 1.0 else level) + c.rps * (now - at);
      Level(c, Spend(c, items, key, at), key, now) == if next > c.burst then c.burst else next
  {
    hide Level;
    var spent := Spend(c, items, key, at)[key];
    assert spent.lastSeen == at;
    LevelOf(c, Spend(c, items, key, at), key, now);
  }

  lemma LevelOf(c: Config, items: Table, key: Key, now: real)
    requires key in items
    ensures var tokens := items[key].tokens + c.rps * (now - items[key].lastSeen);
      Level(c, items, key, now) == if tokens > c.burst then c.burst else tokens
  {
  }

  lemma {:induction false} BucketRemembers(c: Config, events: seq<Event>, from: real, key: Key, k: nat, now: real)
    requires RunOk(c, events, from) && k <= |events| && from <= now && (k > 0 ==> events[k - 1].at <= now)
    ensures FullOrSince(c, events, key, k, now)
    decreases k
  {
    hide Level, Refill, Apply, AllowedIn, TableAt, Sane, TableOk;
    if k == 0 {
      NothingYet(c, events, key, now);
    } else {
      var e, items := events[k - 1], TableAt(c, events, k - 1);
      TableAtOk(c, events, from, k - 1, e.at);
      OneEventMore(c, events, key, k - 1, k - 1);
      if Mine(e, key) {
        BucketRemembers(c, events, from, key, k - 1, e.at);
        ApplyIs(c, items, e);
        OwnLevelAfter(c, items, key, e.at, now);
        RemembersOwn(c, events, key, k, now);
      } else {
        BucketRemembers(c, events, from, key, k - 1, now);
        OthersLeaveLevel(c, items, e, key, now);
        RemembersOthers(c, events, key, k, now);
      }
    }
  }

  lemma NothingYet(c: Config, events: seq<Event>, key: Key, now: real)
    ensures Level(c, TableAt(c, events, 0), key, now) == c.burst
  {
    assert events[..0] == [];
  }

  lemma RemembersOthers(c: Config, events: seq<Event>, key: Key, k: nat, now: real)
    requires 0 < k <= |events| && FullOrSince(c, events, key, k - 1, now) && !Mine(events[k - 1], key)
    requires Level(c, TableAt(c, events, k), key, now) == Level(c, TableAt(c, events, k - 1), key, now)
    ensures FullOrSince(c, events, key, k, now)
  {
    hide Level, AllowedIn, TableAt;
    var level := Level(c, TableAt(c, events, k), key, now);
    if level != c.burst {
      var i :| 0 <= i < k - 1 && Since(c, events, key, i, k - 1, now, level);
      OneEventMore(c, events, key, i, k - 1);
      assert Since(c, events, key, i, k, now, level);
    }
  }

  lemma RateAdds(rate: real, t: real, u: real)
    ensures rate * t + rate * u == rate * (t + u)
  {
  }

  lemma RemembersOwn(c: Config, events: seq<Event>, key: Key, k: nat, now: real)
    requires 0 < k <= |events| && Mine(events[k - 1], key) && FullOrSince(c, events, key, k - 1, events[k - 1].at)
    requires var at := events[k - 1].at;
      var level := Level(c, TableAt(c, events, k - 1), key, at);
      var next := (if level >= 1.0 then level - 1.0 else level) + c.rps * (now - at);
      Level(c, TableAt(c, events, k), key, now) == if next > c.burst then c.burst else next
    ensures FullOrSince(c, events, key, k, now)
  {
    hide Level, AllowedIn, TableAt;
    var at := events[k - 1].at;
    var taken := if Level(c, TableAt(c, events, k - 1), key, at) >= 1.0 then 1 else 0;
    var level, later := Level(c, TableAt(c, events, k - 1), key, at), Level(c, TableAt(c, events, k), key, now);
    if later != c.burst {
      if level == c.burst {
        NothingIn(c, events, key, k - 1);
        OneEventMore(c, events, key, k - 1, k - 1);
        assert AllowedIn(c, events, key, k - 1, k) == taken;
        assert Since(c, events, key, k - 1, k, now, later);
      } else {
        var i :| 0 <= i < k - 1 && Since(c, events, key, i, k - 1, at, level);
        OneEventMore(c, events, key, i, k - 1);
        assert AllowedIn(c, events, key, i, k) == AllowedIn(c, events, key, i, k - 1) + taken;
        RateAdds(c.rps, at - events[i].at, now - at);
        assert at - events[i].at + (now - at) == now - events[i].at;
        assert Since(c, events, key, i, k, now, later);
      }
    }
  }

  /** Letting request k through keeps every window that ends with it within the burst plus the rate times its length. */
  ghost predicate Fits(c: Config, events: seq<Event>, key: Key, k: nat)
    requires k < |events|
  {
    forall i :: 0 <= i <= k && Mine(events[i], key) ==>
      AllowedIn(c, events, key, i, k) as real + 1.0 <= c.burst + c.rps * (events[k].at - events[i].at)
  }

  /** A request is let through if and only if that overfills no window that ends with it: nothing is let through beyond the
    * rate, and nothing within it is refused. */
  lemma AllowedExactlyWhenItFits(c: Config, events: seq<Event>, from: real, key: Key, k: nat)
    requires RunOk(c, events, from) && k < |events| && Mine(events[k], key)
    ensures Allows(c, TableAt(c, events, k), key, events[k].at) <==> Fits(c, events, key, k)
  {
    hide Level, AllowedIn, TableAt;
    if Level(c, TableAt(c, events, k), key, events[k].at) >= 1.0 {
      forall i | 0 <= i <= k && Mine(events[i], key)
        ensures AllowedIn(c, events, key, i, k) as real + 1.0 <= c.burst + c.rps * (events[k].at - events[i].at)
      {
        AllowedFits(c, events, from, key, i, k);
      }
    } else {
      BucketRemembers(c, events, from, key, k, events[k].at);
      RefusedDoesNotFit(c, events, key, k);
    }
  }

  lemma AllowedFits(c: Config, events: seq<Event>, from: real, key: Key, i: nat, k: nat)
    requires RunOk(c, events, from) && i <= k < |events| && Mine(events[k], key)
    requires Level(c, TableAt(c, events, k), key, events[k].at) >= 1.0
    ensures AllowedIn(c, events, key, i, k) as real + 1.0 <= c.burst + c.rps * (events[k].at - events[i].at)
  {
    hide Level, Allowed, After;
    OneEventMore(c, events, key, i, k);
    MonotoneParts(events, from, i, k);
    hide Monotone;
    WindowIsBounded(c, events[..i], events[i..k + 1], key, events[i].at, events[k].at);
  }

  lemma MonotoneParts(events: seq<Event>, from: real, i: nat, k: nat)
    requires Monotone(events, from) && i <= k < |events|
    ensures events[i].at <= events[k].at && Monotone(events[i..k + 1], events[i].at)
    ensures events[..i] != [] ==> Monotone(events[..i], events[..i][0].at)
    ensures var before := events[..i]; forall j :: 0 <= j < |before| ==> before[j].at <= events[i].at
    ensures var window := events[i..k + 1]; forall j :: 0 <= j < |window| ==> window[j].at <= events[k].at
  {
  }

  lemma RefusedDoesNotFit(c: Config, events: seq<Event>, key: Key, k: nat)
    requires Sane(c) && k < |events| && Mine(events[k], key) && FullOrSince(c, events, key, k, events[k].at)
    requires Level(c, TableAt(c, events, k), key, events[k].at) < 1.0
    ensures !Fits(c, events, key, k)
  {
    hide Level, AllowedIn, TableAt;
    var now := events[k].at;
    var level := Level(c, TableAt(c, events, k), key, now);
    var i :| 0 <= i < k && Since(c, events, key, i, k, now, level);
  }
}
