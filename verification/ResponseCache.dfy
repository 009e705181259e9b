/** The gateway's response cache: least recently used eviction, expiry times, and a sweep. */
module ResponseCache {
  import opened Collections

  type Key = string

  datatype Entry = Entry(statusCode: int, body: string, expiresAt: int)

  const MAX_BODY_BYTES := 1048576
  const DEFAULT_CAPACITY := 10000

  /** order lists the keys, most recently used first. */
  datatype State = State(maxSize: nat, entries: map<Key, Entry>, order: seq<Key>)

  datatype Op =
    | Get(key: Key, now: int)
    | Set(key: Key, entry: Entry)
    | Delete(key: Key)
    | Sweep(now: int)

  // --------------------------------------------------------------------------- subsequences

  /** The members of s that are in keys, in the order of s. */
  function Keep(s: seq<Key>, keys: set<Key>): seq<Key> {
    if s == [] then [] else KeepOne(s[0], keys) + Keep(s[1..], keys)
  }

  function KeepOne(k: Key, keys: set<Key>): seq<Key> {
    if k in keys then [k] else []
  }

  lemma {:induction false} KeepMembers(s: seq<Key>, keys: set<Key>)
    ensures forall k :: k in Keep(s, keys) <==> k in s && k in keys
    ensures NoDuplicates(s) ==> NoDuplicates(Keep(s, keys))
    ensures |Keep(s, keys)| <= |s|
  {
    if s != [] {
      KeepMembers(s[1..], keys);
      assert forall k :: k in s <==> k == s[0] || k in s[1..];
    }
  }

  lemma {:induction false} KeepConcat(s: seq<Key>, t: seq<Key>, keys: set<Key>)
    ensures Keep(s + t, keys) == Keep(s, keys) + Keep(t, keys)
  {
    hide KeepOne;
    if s == [] {
      assert s + t == t;
    } else {
      KeepConcat(s[1..], t, keys);
      assert (s + t)[1..] == s[1..] + t;
      ConcatAssociates(KeepOne(s[0], keys), Keep(s[1..], keys), Keep(t, keys));
    }
  }

  lemma {:induction false} KeepTwice(s: seq<Key>, a: set<Key>, b: set<Key>)
    ensures Keep(Keep(s, a), b) == Keep(s, a * b)
  {
    if s != [] {
      KeepTwice(s[1..], a, b);
      KeepConcat(KeepOne(s[0], a), Keep(s[1..], a), b);
    }
  }

  /** Only the keys that occur in s matter. */
  lemma {:induction false} KeepAgrees(s: seq<Key>, a: set<Key>, b: set<Key>)
    requires forall k :: k in s ==> (k in a <==> k in b)
    ensures Keep(s, a) == Keep(s, b)
  {
    if s != [] {
      assert forall k :: k in s[1..] ==> k in s;
      KeepAgrees(s[1..], a, b);
    }
  }

  lemma {:induction false} KeepAll(s: seq<Key>, a: set<Key>)
    requires forall k :: k in s ==> k in a
    ensures Keep(s, a) == s
  {
    if s != [] {
      assert forall k :: k in s[1..] ==> k in s;
      KeepAll(s[1..], a);
    }
  }

  /** Keeping only a shortens the part in b by no more than the whole. */
  lemma {:induction false} KeepShortensLess(s: seq<Key>, a: set<Key>, b: set<Key>)
    ensures |Keep(s, a)| - |Keep(s, a * b)| <= |s| - |Keep(s, b)|
  {
    if s != [] {
      KeepShortensLess(s[1..], a, b);
    }
  }

  /** Keep after dropping one occurrence by position. */
  lemma {:induction false} KeepSplice(s: seq<Key>, i: nat, keys: set<Key>)
    requires NoDuplicates(s) && i < |s| && forall k :: k in s ==> k in keys
    ensures s[..i] + s[i + 1..] == Keep(s, keys - {s[i]})
  {
    if i == 0 {
      KeepAll(s[1..], keys - {s[0]});
    } else {
      assert s[1..][i - 1] == s[i];
      KeepSplice(s[1..], i - 1, keys);
      assert s[..i] + s[i + 1..] == [s[0]] + (s[1..][..i - 1] + s[1..][i..]);
    }
  }

  // ------------------------------------------------------------------------- the operations

  ghost predicate Valid(s: State) {
    && s.maxSize >= 1
    && |s.order| <= s.maxSize
    && NoDuplicates(s.order)
    && forall k :: k in s.order <==> k in s.entries
  }

  function Empty(maxSize: nat): State {
    State(maxSize, map[], [])
  }

  /** The cache with only the entries of keys left. */
  function Restrict(s: State, keys: set<Key>): State {
    s.(entries := map k | k in s.entries && k in keys :: s.entries[k], order := Keep(s.order, keys))
  }

  function Removed(s: State, key: Key): State {
    Restrict(s, s.entries.Keys - {key})
  }

  function ToFront(s: State, key: Key): State {
    s.(order := [key] + Keep(s.order, s.entries.Keys - {key}))
  }

  /** The keys that eviction spares: if the cache is full, the least recently used one goes. */
  function Spared(s: State): set<Key> {
    if |s.order| < s.maxSize || |s.order| == 0 then s.entries.Keys
    else s.entries.Keys - {s.order[|s.order| - 1]}
  }

  function Evicted(s: State): State {
    Restrict(s, Spared(s))
  }

  function Pushed(s: State, key: Key, entry: Entry): State {
    s.(entries := s.entries[key := entry], order := [key] + s.order)
  }

  function Inserted(s: State, key: Key, entry: Entry): State {
    Pushed(Evicted(Removed(s, key)), key, entry)
  }

  function Unexpired(s: State, now: int): set<Key> {
    set k | k in s.entries && now <= s.entries[k].expiresAt
  }

  function Hit(s: State, key: Key, now: int): Option<Entry> {
    if key in s.entries && now <= s.entries[key].expiresAt then Some(s.entries[key]) else None
  }

  function Apply(s: State, op: Op): State {
    match op
    case Get(key, now) =>
      if key !in s.entries then s
      else if now > s.entries[key].expiresAt then Removed(s, key)
      else ToFront(s, key)
    case Set(key, entry) => if |entry.body| > MAX_BODY_BYTES then s else Inserted(s, key, entry)
    case Delete(key) => Removed(s, key)
    case Sweep(now) => Restrict(s, Unexpired(s, now))
  }

  function Answer(s: State, op: Op): Option<Entry> {
    if op.Get? then Hit(s, op.key, op.now) else None
  }

  /** What each operation answers and does to the entries. */
  lemma ApplyOnFields(s: State, op: Op)
    requires Valid(s)
    ensures var t, answer := Apply(s, op), Answer(s, op);
      match op
      case Get(key, now) =>
        if key in s.entries && now <= s.entries[key].expiresAt then
          answer == Some(s.entries[key]) && t.entries == s.entries && t.order != [] && t.order[0] == key
        else
          answer == None && t.entries == s.entries - {key}
      case Set(key, entry) =>
        && answer == None
        && (|entry.body| > 1048576 ==> t == s)
        && (|entry.body| <= 1048576 ==>
              && key in t.entries && t.entries[key] == entry && t.order != [] && t.order[0] == key
              && forall k :: k in t.entries && k != key ==> k in s.entries && t.entries[k] == s.entries[k])
      case Delete(key) => answer == None && t.entries == s.entries - {key}
      case Sweep(now) =>
        answer == None && t.entries == map k | k in s.entries && s.entries[k].expiresAt >= now :: s.entries[k]
  {
    hide Keep, NoDuplicates;
  }

  lemma RestrictValid(s: State, keys: set<Key>)
    requires Valid(s)
    ensures Valid(Restrict(s, keys))
  {
    KeepMembers(s.order, keys);
  }

  lemma LastIsEvicted(s: State)
    requires Valid(s)
    ensures |s.order| == s.maxSize ==> Evicted(s) == Removed(s, s.order[|s.order| - 1])
  {
    hide Keep, NoDuplicates;
  }

  lemma EvictedHasRoom(s: State)
    requires Valid(s)
    ensures Valid(Evicted(s)) && |Evicted(s).order| < s.maxSize
    ensures |s.order| == s.maxSize ==> Evicted(s).order == s.order[..|s.order| - 1]
    ensures |s.order| < s.maxSize ==> Evicted(s) == s
  {
    hide Keep, NoDuplicates;
    if |s.order| < s.maxSize {
      KeepAll(s.order, s.entries.Keys);
    } else {
      var n := |s.order| - 1;
      RestrictValid(s, s.entries.Keys - {s.order[n]});
      KeepSplice(s.order, n, s.entries.Keys);
      assert s.order[..n] + s.order[n + 1..] == s.order[..n];
    }
  }

  lemma PushedValid(s: State, key: Key, entry: Entry)
    requires Valid(s) && key !in s.entries && |s.order| < s.maxSize
    ensures Valid(Pushed(s, key, entry))
  {
  }

  lemma InsertedValid(s: State, key: Key, entry: Entry)
    requires Valid(s)
    ensures Valid(Inserted(s, key, entry))
    ensures key !in Evicted(Removed(s, key)).entries
  {
    hide Keep, Valid, Pushed;
    RestrictValid(s, s.entries.Keys - {key});
    EvictedHasRoom(Removed(s, key));
    PushedValid(Evicted(Removed(s, key)), key, entry);
  }

  lemma ToFrontValid(s: State, key: Key)
    requires Valid(s) && key in s.entries
    ensures Valid(ToFront(s, key)) && |Removed(s, key).order| == |s.order| - 1
  {
    KeepMembers(s.order, s.entries.Keys - {key});
    var i :| 0 <= i < |s.order| && s.order[i] == key;
    KeepSplice(s.order, i, s.entries.Keys);
  }

  lemma ApplyValid(s: State, op: Op)
    requires Valid(s)
    ensures Valid(Apply(s, op)) && Apply(s, op).maxSize == s.maxSize
  {
    match op
    case Get(key, now) =>
      RestrictValid(s, s.entries.Keys - {key});
      if key in s.entries { ToFrontValid(s, key); }
    case Set(key, entry) => InsertedValid(s, key, entry);
    case Delete(key) => RestrictValid(s, s.entries.Keys - {key});
    case Sweep(now) => RestrictValid(s, Unexpired(s, now));
  }

  // ------------------------------------------------------------------------------ inclusion

  /** The smaller cache holds a part of the larger one: the same entries under its keys, in the
      same order, and no more keys missing than its capacity is smaller. */
  ghost predicate Included(s: State, l: State) {
    && Valid(s) && Valid(l)
    && s.maxSize <= l.maxSize
    && s.order == Keep(l.order, s.entries.Keys)
    && (forall k :: k in s.entries ==> k in l.entries && l.entries[k] == s.entries[k])
    && |l.order| - |s.order| <= l.maxSize - s.maxSize
  }

  /** Restricting both, the larger to a and the smaller to b, if b asks for nothing outside a. */
  lemma RestrictBoth(s: State, l: State, a: set<Key>, b: set<Key>)
    requires Included(s, l) && s.entries.Keys * b <= a
    requires |Keep(l.order, a)| - |Keep(s.order, b)| <= l.maxSize - s.maxSize
    ensures Included(Restrict(s, b), Restrict(l, a))
  {
    hide Keep, NoDuplicates, Valid;
    RestrictValid(s, b);
    RestrictValid(l, a);
    KeepTwice(l.order, s.entries.Keys, b);
    KeepTwice(l.order, a, s.entries.Keys * b);
    assert a * (s.entries.Keys * b) == s.entries.Keys * b == Restrict(s, b).entries.Keys;
  }

  /** Restricting both to the same keys, as far as the smaller has them. */
  lemma RestrictIncluded(s: State, l: State, a: set<Key>, b: set<Key>)
    requires Included(s, l)
    requires forall k :: k in s.entries ==> (k in a <==> k in b)
    ensures Included(Restrict(s, b), Restrict(l, a))
  {
    KeepTwice(l.order, s.entries.Keys, b);
    KeepShortensLess(l.order, a, s.entries.Keys);
    assert a * s.entries.Keys == s.entries.Keys * b;
    RestrictBoth(s, l, a, b);
  }

  /** The key evicted from the larger cache is evicted from the smaller one too, if it is there. */
  lemma LastIsLast(s: State, l: State)
    requires Included(s, l) && |l.order| > 0 && l.order[|l.order| - 1] in s.entries
    ensures |s.order| > 0 && s.order[|s.order| - 1] == l.order[|l.order| - 1]
  {
    hide Valid, NoDuplicates;
    var n := |l.order| - 1;
    var last := l.order[n];
    assert l.order == l.order[..n] + [last];
    KeepConcat(l.order[..n], [last], s.entries.Keys);
    assert Keep([last], s.entries.Keys) == [last];
    hide Keep;
  }

  lemma EvictedIs(s: State)
    ensures Evicted(s) == Restrict(s, Spared(s))
    ensures Evicted(s).order == Keep(s.order, Spared(s))
  {
  }

  lemma SparedIncluded(s: State, l: State)
    requires Included(s, l)
    ensures s.entries.Keys * Spared(s) <= Spared(l)
  {
    if |l.order| == l.maxSize && l.order[|l.order| - 1] in s.entries {
      LastIsLast(s, l);
    }
    hide Keep, NoDuplicates;
  }

  lemma IncludedParts(s: State, l: State)
    requires Included(s, l)
    ensures Valid(s) && Valid(l) && s.maxSize <= l.maxSize && |l.order| - |s.order| <= l.maxSize - s.maxSize
    ensures |s.order| <= s.maxSize && |l.order| <= l.maxSize
  {
    hide Keep, NoDuplicates;
  }

  lemma EvictIncluded(s: State, l: State)
    requires Included(s, l)
    ensures Included(Evicted(s), Evicted(l))
  {
    hide Included, Valid, Evicted, Restrict;
    IncludedParts(s, l);
    EvictedHasRoom(s);
    EvictedHasRoom(l);
    SparedIncluded(s, l);
    EvictedIs(s);
    EvictedIs(l);
    RestrictBoth(s, l, Spared(l), Spared(s));
  }

  lemma PushIncluded(s: State, l: State, key: Key, entry: Entry)
    requires Included(s, l) && key !in s.entries && key !in l.entries
    requires |s.order| < s.maxSize && |l.order| < l.maxSize
    ensures Included(Pushed(s, key, entry), Pushed(l, key, entry))
  {
    assert key !in l.order by { hide Keep; }
    hide Keep, NoDuplicates;
    PushedValid(s, key, entry);
    PushedValid(l, key, entry);
    KeepPushed(l.order, s.entries.Keys, key);
    assert s.entries[key := entry].Keys == s.entries.Keys + {key};
    hide Keep, NoDuplicates, Valid;
  }

  lemma KeepPushed(s: seq<Key>, keys: set<Key>, key: Key)
    requires key !in s
    ensures Keep([key] + s, keys + {key}) == [key] + Keep(s, keys)
  {
    KeepAgrees(s, keys, keys + {key});
    assert ([key] + s)[1..] == s;
  }

  lemma PushOnLarger(s: State, l: State, key: Key, entry: Entry)
    requires Included(s, l) && key !in s.entries && key !in l.entries
    requires |l.order| < l.maxSize && |l.order| + 1 - |s.order| <= l.maxSize - s.maxSize
    ensures Included(s, Pushed(l, key, entry))
  {
    PushedValid(l, key, entry);
    assert ([key] + l.order)[1..] == l.order;
    hide NoDuplicates, Valid;
  }

  lemma InsertIncluded(s: State, l: State, key: Key, entry: Entry)
    requires Included(s, l)
    ensures Included(Inserted(s, key, entry), Inserted(l, key, entry))
  {
    hide Keep, NoDuplicates, Evicted, Restrict, Pushed;
    RestrictIncluded(s, l, l.entries.Keys - {key}, s.entries.Keys - {key});
    EvictIncluded(Removed(s, key), Removed(l, key));
    InsertedValid(s, key, entry);
    InsertedValid(l, key, entry);
    EvictedHasRoom(Removed(s, key));
    EvictedHasRoom(Removed(l, key));
    SizesKept(s, key);
    SizesKept(l, key);
    PushIncluded(Evicted(Removed(s, key)), Evicted(Removed(l, key)), key, entry);
  }

  lemma SizesKept(s: State, key: Key)
    ensures Evicted(Removed(s, key)).maxSize == Removed(s, key).maxSize == s.maxSize
    ensures key !in Removed(s, key).entries
  {
  }

  /** Moving to the front is taking the key out and pushing it again. */
  lemma MovedIsPushed(s: State, key: Key)
    requires Valid(s) && key in s.entries
    ensures ToFront(s, key) == Pushed(Removed(s, key), key, s.entries[key])
    ensures |Removed(s, key).order| == |s.order| - 1
  {
    ToFrontValid(s, key);
    assert Removed(s, key).entries[key := s.entries[key]] == s.entries;
  }

  lemma ToFrontIncluded(s: State, l: State, key: Key)
    requires Included(s, l) && key in l.entries
    ensures Included(if key in s.entries then ToFront(s, key) else s, ToFront(l, key))
  {
    hide Keep, NoDuplicates, ToFront, Restrict, Pushed;
    RestrictIncluded(s, l, l.entries.Keys - {key}, s.entries.Keys - {key});
    SizesKept(s, key);
    SizesKept(l, key);
    MovedIsPushed(l, key);
    if key in s.entries {
      MovedIsPushed(s, key);
      PushIncluded(Removed(s, key), Removed(l, key), key, s.entries[key]);
    } else {
      UntouchedByRemove(s, key);
      PushOnLarger(s, Removed(l, key), key, l.entries[key]);
    }
  }

  lemma StepIncluded(s: State, l: State, op: Op)
    requires Included(s, l)
    ensures Included(Apply(s, op), Apply(l, op))
    ensures Answer(s, op).Some? ==> Answer(l, op) == Answer(s, op)
  {
    match op
    case Get(key, now) => GetIncluded(s, l, key, now);
    case Set(key, entry) => InsertIncluded(s, l, key, entry);
    case Delete(key) => RemoveIncluded(s, l, key);
    case Sweep(now) => RestrictIncluded(s, l, Unexpired(l, now), Unexpired(s, now));
  }

  lemma GetIncluded(s: State, l: State, key: Key, now: int)
    requires Included(s, l)
    ensures Included(Apply(s, Get(key, now)), Apply(l, Get(key, now)))
    ensures Answer(s, Get(key, now)).Some? ==> Answer(l, Get(key, now)) == Answer(s, Get(key, now))
  {
    assert key in s.entries ==> key in l.entries && l.entries[key] == s.entries[key];
    assert Valid(s) && Valid(l);
    hide Included, Valid, ToFront, Restrict;
    if key in l.entries && now <= l.entries[key].expiresAt {
      ToFrontIncluded(s, l, key);
    } else {
      RemoveIncluded(s, l, key);
      if key !in s.entries { UntouchedByRemove(s, key); }
      if key !in l.entries { UntouchedByRemove(l, key); }
    }
  }

  lemma RemoveIncluded(s: State, l: State, key: Key)
    requires Included(s, l)
    ensures Included(Removed(s, key), Removed(l, key))
  {
    hide Valid, Keep, Restrict;
    RestrictIncluded(s, l, l.entries.Keys - {key}, s.entries.Keys - {key});
  }

  lemma UntouchedByRemove(s: State, key: Key)
    requires Valid(s) && key !in s.entries
    ensures Removed(s, key) == s
  {
    KeepAll(s.order, s.entries.Keys - {key});
  }

  // -------------------------------------------------------------------------------- whole runs

  /** The cache of capacity n after the operations of a trace. */
  function After(n: nat, ops: seq<Op>): State {
    if ops == [] then Empty(n) else Apply(After(n, ops[..|ops| - 1]), ops[|ops| - 1])
  }

  lemma {:induction false} RunIncluded(n: nat, m: nat, ops: seq<Op>)
    requires 1 <= n <= m
    ensures Included(After(n, ops), After(m, ops))
  {
    if ops != [] {
      RunIncluded(n, m, ops[..|ops| - 1]);
      hide Included, Apply, Answer;
      StepIncluded(After(n, ops[..|ops| - 1]), After(m, ops[..|ops| - 1]), ops[|ops| - 1]);
    }
  }

  /** No Belady anomaly: along any trace of gets, sets, deletes and sweeps, at any times, every
      hit in a smaller cache is a hit in a larger one, with the same entry. */
  lemma LargerCacheHitsMore(n: nat, m: nat, ops: seq<Op>, op: Op)
    requires 1 <= n <= m
    ensures Answer(After(n, ops), op).Some? ==> Answer(After(m, ops), op) == Answer(After(n, ops), op)
    ensures |After(m, ops).order| - (m - n) <= |After(n, ops).order| <= |After(m, ops).order|
  {
    RunIncluded(n, m, ops);
    StepIncluded(After(n, ops), After(m, ops), op);
    KeepMembers(After(m, ops).order, After(n, ops).entries.Keys);
    RunKeepsCapacity(n, ops);
    RunKeepsCapacity(m, ops);
  }

  lemma {:induction false} RunKeepsCapacity(n: nat, ops: seq<Op>)
    requires n >= 1
    ensures Valid(After(n, ops)) && After(n, ops).maxSize == n
  {
    if ops != [] {
      RunKeepsCapacity(n, ops[..|ops| - 1]);
      ApplyValid(After(n, ops[..|ops| - 1]), ops[|ops| - 1]);
    }
  }

  /** The entry of the last accepted Set of key that no Delete of key followed. */
  function LastSet(ops: seq<Op>, key: Key): Option<Entry> {
    if ops == [] then None else
    var op := ops[|ops| - 1];
    if op.Set? && op.key == key && |op.entry.body| <= 1048576 then Some(op.entry)
    else if op.Delete? && op.key == key then None
    else LastSet(ops[..|ops| - 1], key)
  }

  lemma {:induction false} EntriesAreLastSet(n: nat, ops: seq<Op>, key: Key)
    requires n >= 1 && key in After(n, ops).entries
    ensures LastSet(ops, key) == Some(After(n, ops).entries[key])
  {
    if ops != [] {
      var before, op := After(n, ops[..|ops| - 1]), ops[|ops| - 1];
      EntriesComeFrom(before, op, key);
      if key in before.entries { EntriesAreLastSet(n, ops[..|ops| - 1], key); }
    }
  }

  lemma EntriesComeFrom(s: State, op: Op, key: Key)
    requires key in Apply(s, op).entries
    ensures
      if op.Set? && op.key == key && |op.entry.body| <= 1048576 then Apply(s, op).entries[key] == op.entry
      else !(op.Delete? && op.key == key) && key in s.entries && Apply(s, op).entries[key] == s.entries[key]
  {
    hide Keep;
  }

  /** A hit returns the last accepted Set of the key, never a deleted or an expired one. */
  lemma HitsAreFresh(n: nat, ops: seq<Op>, key: Key, now: int)
    requires n >= 1 && Answer(After(n, ops), Get(key, now)).Some?
    ensures Answer(After(n, ops), Get(key, now)) == LastSet(ops, key)
    ensures now <= LastSet(ops, key).value.expiresAt
  {
    EntriesAreLastSet(n, ops, key);
  }

  // -------------------------------------------------------------------------------- recency

  /** A hit and an accepted Set use a key. */
  predicate Uses(s: State, op: Op, key: Key) {
    (op.Get? && op.key == key && Hit(s, key, op.now).Some?)
    || (op.Set? && op.key == key && |op.entry.body| <= 1048576)
  }

  /** The place in a trace of the last operation that used a key, or -1. */
  function LastUse(n: nat, ops: seq<Op>, key: Key): (at: int)
    ensures -1 <= at < |ops|
  {
    if ops == [] then -1
    else if Uses(After(n, ops[..|ops| - 1]), ops[|ops| - 1], key) then |ops| - 1
    else LastUse(n, ops[..|ops| - 1], key)
  }

  ghost predicate ByLastUse(n: nat, ops: seq<Op>, order: seq<Key>) {
    forall i, j :: 0 <= i < j < |order| ==> LastUse(n, ops, order[i]) > LastUse(n, ops, order[j])
  }

  lemma {:induction false} KeepByLastUse(n: nat, ops: seq<Op>, order: seq<Key>, keys: set<Key>)
    requires ByLastUse(n, ops, order)
    ensures ByLastUse(n, ops, Keep(order, keys))
  {
    hide LastUse;
    if order != [] {
      KeepByLastUse(n, ops, order[1..], keys);
      KeepMembers(order[1..], keys);
      var rest := Keep(order[1..], keys);
      if order[0] in keys {
        forall k | k in rest ensures LastUse(n, ops, order[0]) > LastUse(n, ops, k) {
          var j :| 0 <= j < |order[1..]| && order[1..][j] == k;
          assert order[j + 1] == k;
        }
        FrontByLastUse(n, ops, order[0], rest);
      }
    }
  }

  lemma FrontByLastUse(n: nat, ops: seq<Op>, key: Key, rest: seq<Key>)
    requires ByLastUse(n, ops, rest) && forall k :: k in rest ==> LastUse(n, ops, key) > LastUse(n, ops, k)
    ensures ByLastUse(n, ops, [key] + rest)
  {
    hide LastUse;
    var order := [key] + rest;
    forall i, j | 0 <= i < j < |order| ensures LastUse(n, ops, order[i]) > LastUse(n, ops, order[j]) {
      assert order[j] == rest[j - 1] && order[j] in rest;
    }
  }

  /** An operation leaves alone the order of keys it does not use. */
  lemma UnusedByLastUse(n: nat, ops: seq<Op>, op: Op, order: seq<Key>)
    requires ByLastUse(n, ops, order) && forall k :: k in order ==> !Uses(After(n, ops), op, k)
    ensures ByLastUse(n, ops + [op], order)
    ensures forall k :: k in order ==> LastUse(n, ops + [op], k) == LastUse(n, ops, k)
  {
    assert (ops + [op])[..|ops|] == ops;
    hide Uses;
    forall k | k in order ensures LastUse(n, ops + [op], k) == LastUse(n, ops, k) {
    }
    hide LastUse;
  }

  lemma UsedNow(n: nat, ops: seq<Op>, op: Op, key: Key)
    requires Uses(After(n, ops), op, key)
    ensures LastUse(n, ops + [op], key) == |ops|
  {
    assert (ops + [op])[..|ops|] == ops;
  }

  /** The key that was used comes to the front of what is kept of the others. */
  lemma UsedToFront(n: nat, ops: seq<Op>, op: Op, key: Key, rest: seq<Key>)
    requires Uses(After(n, ops), op, key) && ByLastUse(n, ops, rest) && key !in rest
    requires op.Get? || op.Set?
    ensures ByLastUse(n, ops + [op], [key] + rest)
  {
    UsedNow(n, ops, op, key);
    UnusedByLastUse(n, ops, op, rest);
    hide LastUse, Uses;
    FrontByLastUse(n, ops + [op], key, rest);
  }

  /** Along any trace the cache keeps its keys in the order of their last use. */
  lemma {:induction false} OrderIsByLastUse(n: nat, ops: seq<Op>)
    requires n >= 1
    ensures ByLastUse(n, ops, After(n, ops).order)
  {
    if ops != [] {
      var init, op := ops[..|ops| - 1], ops[|ops| - 1];
      var s := After(n, init);
      OrderIsByLastUse(n, init);
      RunKeepsCapacity(n, init);
      assert ops == init + [op];
      hide LastUse, ByLastUse, Keep, After;
      StepByLastUse(n, init, op, s);
    }
  }

  lemma StepByLastUse(n: nat, ops: seq<Op>, op: Op, s: State)
    requires s == After(n, ops) && Valid(s) && ByLastUse(n, ops, s.order)
    ensures ByLastUse(n, ops + [op], Apply(s, op).order)
  {
    hide LastUse, ByLastUse, Keep, After, NoDuplicates;
    match op
    case Get(key, now) =>
      if key in s.entries && now <= s.entries[key].expiresAt {
        KeepByLastUse(n, ops, s.order, s.entries.Keys - {key});
        KeepMembers(s.order, s.entries.Keys - {key});
        UsedToFront(n, ops, op, key, Keep(s.order, s.entries.Keys - {key}));
      } else {
        KeptByLastUse(n, ops, op, s, s.entries.Keys - {key});
      }
    case Set(key, entry) =>
      if |entry.body| <= 1048576 {
        InsertedByLastUse(n, ops, op, s);
      } else {
        UnusedByLastUse(n, ops, op, s.order);
      }
    case Delete(key) => KeptByLastUse(n, ops, op, s, s.entries.Keys - {key});
    case Sweep(now) => KeptByLastUse(n, ops, op, s, Unexpired(s, now));
  }

  lemma KeptByLastUse(n: nat, ops: seq<Op>, op: Op, s: State, keys: set<Key>)
    requires s == After(n, ops) && ByLastUse(n, ops, s.order) && forall k :: !Uses(s, op, k)
    ensures ByLastUse(n, ops + [op], Keep(s.order, keys)) && ByLastUse(n, ops + [op], s.order)
  {
    hide LastUse, ByLastUse, Keep, After, Uses;
    KeepByLastUse(n, ops, s.order, keys);
    UnusedByLastUse(n, ops, op, Keep(s.order, keys));
    UnusedByLastUse(n, ops, op, s.order);
  }

  lemma InsertedByLastUse(n: nat, ops: seq<Op>, op: Op, s: State)
    requires s == After(n, ops) && Valid(s) && ByLastUse(n, ops, s.order) && op.Set? && |op.entry.body| <= 1048576
    ensures ByLastUse(n, ops + [op], Inserted(s, op.key, op.entry).order)
  {
    hide LastUse, ByLastUse, Keep, After, NoDuplicates;
    var keys := s.entries.Keys - {op.key};
    var removed := Removed(s, op.key);
    KeepByLastUse(n, ops, s.order, keys);
    KeepByLastUse(n, ops, removed.order, Spared(removed));
    KeepMembers(s.order, keys);
    KeepMembers(removed.order, Spared(removed));
    UsedToFront(n, ops, op, op.key, Evicted(removed).order);
  }

  /** Inserting loses no key but the last of the others, and that only when the others fill the cache. */
  lemma InsertLosesLast(s: State, key: Key, entry: Entry, victim: Key)
    requires Valid(s) && victim in s.entries && victim != key && victim !in Inserted(s, key, entry).entries
    ensures var removed := Removed(s, key);
      Valid(removed) && |removed.order| == s.maxSize && removed.order[s.maxSize - 1] == victim
  {
    hide Keep, NoDuplicates;
    RestrictValid(s, s.entries.Keys - {key});
    assert victim in Removed(s, key).entries;
  }

  lemma LastIsLeastRecent(n: nat, ops: seq<Op>, order: seq<Key>, other: Key)
    requires ByLastUse(n, ops, order) && order != [] && other in order && other != order[|order| - 1]
    ensures LastUse(n, ops, order[|order| - 1]) < LastUse(n, ops, other)
  {
    hide LastUse;
    var j :| 0 <= j < |order| && order[j] == other;
  }

  /** A Set throws out another key only if the cache is full with keys other than its own, and
      then no more than that one key. */
  lemma OnlyFullCachesEvict(n: nat, ops: seq<Op>, op: Op, victim: Key)
    requires n >= 1 && op.Set? && victim != op.key
    requires victim in After(n, ops).entries && victim !in After(n, ops + [op]).entries
    ensures |After(n, ops).entries.Keys - {op.key}| == After(n, ops).maxSize
    ensures forall k :: k in After(n, ops).entries && k != victim && k != op.key ==> k in After(n, ops + [op]).entries
  {
    hide *;
    var s := After(n, ops);
    OneMoreSet(n, ops, op);
    RunKeepsCapacity(n, ops);
    InsertLosesLast(s, op.key, op.entry, victim);
    OthersFill(s, op.key);
    forall k | k in s.entries && k != victim && k != op.key ensures k in After(n, ops + [op]).entries {
      if k !in After(n, ops + [op]).entries { InsertLosesLast(s, op.key, op.entry, k); }
    }
  }

  lemma OthersFill(s: State, key: Key)
    requires Valid(s) && |Removed(s, key).order| == s.maxSize
    ensures |s.entries.Keys - {key}| == s.maxSize
  {
    var order, others := Removed(s, key).order, s.entries.Keys - {key};
    RestrictValid(s, others);
    KeepMembers(s.order, others);
    hide Keep;
    MembersCounted(order, others);
  }

  lemma {:induction false} MembersCounted(order: seq<Key>, keys: set<Key>)
    requires NoDuplicates(order) && forall k :: k in order <==> k in keys
    ensures |keys| == |order|
  {
    if order == [] {
      assert keys == {};
    } else {
      assert order[0] !in order[1..];
      MembersCounted(order[1..], keys - {order[0]});
    }
  }

  /** The key that a Set throws out is the one, of the others, whose last use is the longest ago. */
  lemma VictimIsLeastRecentlyUsed(n: nat, ops: seq<Op>, op: Op, victim: Key, other: Key)
    requires n >= 1 && op.Set? && victim != op.key && other != op.key && other != victim
    requires var before, later := After(n, ops).entries, After(n, ops + [op]).entries;
      victim in before && other in before && victim !in later
    ensures LastUse(n, ops, victim) < LastUse(n, ops, other)
  {
    hide *;
    var s := After(n, ops);
    OneMoreSet(n, ops, op);
    RunKeepsCapacity(n, ops);
    InsertLosesLast(s, op.key, op.entry, victim);
    OrderIsByLastUse(n, ops);
    var order := Removed(s, op.key).order;
    OthersByLastUse(n, ops, s, op.key, other);
    LastIsLeastRecent(n, ops, order, other);
  }

  lemma OneMoreSet(n: nat, ops: seq<Op>, op: Op)
    requires op.Set?
    ensures After(n, ops + [op]) == After(n, ops) || After(n, ops + [op]) == Inserted(After(n, ops), op.key, op.entry)
  {
    assert (ops + [op])[..|ops|] == ops;
    hide Inserted;
  }

  lemma OthersByLastUse(n: nat, ops: seq<Op>, s: State, key: Key, other: Key)
    requires Valid(s) && ByLastUse(n, ops, s.order) && other in s.entries && other != key
    ensures ByLastUse(n, ops, Removed(s, key).order) && other in Removed(s, key).order
    ensures Removed(s, key).maxSize == s.maxSize
  {
    hide ByLastUse, Keep, NoDuplicates;
    KeepByLastUse(n, ops, s.order, s.entries.Keys - {key});
    KeepMembers(s.order, s.entries.Keys - {key});
  }

  // ---------------------------------------------------------------------------------- the cache

  class Cache {
    const maxSize: nat
    var entries: map<Key, Entry>
    var lruList: seq<Key>
    var hits: nat
    var misses: nat

    constructor (maxSize: int)
      ensures Valid(Contents()) && hits == 0 && misses == 0
      ensures Contents() == State(if maxSize <= 0 then 10000 else maxSize, map[], [])
    {
      this.maxSize := if maxSize <= 0 then DEFAULT_CAPACITY else maxSize;
      entries, lruList, hits, misses := map[], [], 0, 0;
    }

    ghost function Contents(): State
      reads this
    {
      State(maxSize, entries, lruList)
    }

    /** removeLocked: unlink the key's list element and forget its entry, if there is one. */
    method RemoveLocked(key: Key)
      requires Valid(Contents())
      modifies this`entries, this`lruList
      ensures Valid(Contents()) && Contents() == Removed(old(Contents()), key)
    {
      RestrictValid(Contents(), entries.Keys - {key});
      if key !in entries {
        UntouchedByRemove(Contents(), key);
        return;
      }
      Unlink(key);
      entries := map k | k in entries && k != key :: entries[k];
    }

    /** Unlink the list element of a key that has one. */
    method Unlink(key: Key)
      requires Valid(Contents()) && key in entries
      modifies this`lruList
      ensures lruList == Keep(old(lruList), entries.Keys - {key})
    {
      var i := 0;
      while lruList[i] != key
        invariant 0 <= i < |lruList| && key in lruList[i..]
        decreases |lruList| - i
      {
        assert lruList[i..] == [lruList[i]] + lruList[i + 1..];
        i := i + 1;
      }
      KeepSplice(lruList, i, entries.Keys);
      lruList := lruList[..i] + lruList[i + 1..];
    }

    method Get(key: Key, now: int) returns (answer: Option<Entry>)
      requires Valid(Contents())
      modifies this
      ensures Valid(Contents()) && Contents() == Apply(old(Contents()), Op.Get(key, now))
      ensures answer == Answer(old(Contents()), Op.Get(key, now))
      ensures hits == old(hits) + (if answer.Some? then 1 else 0)
      ensures misses == old(misses) + (if answer.Some? then 0 else 1)
    {
      hide Keep, Restrict, NoDuplicates;
      if key !in entries {
        misses := misses + 1;
        return None;
      }
      if now > entries[key].expiresAt {
        RemoveLocked(key);
        misses := misses + 1;
        return None;
      }
      ToFrontValid(Contents(), key);
      Unlink(key);
      lruList := [key] + lruList;
      hits := hits + 1;
      return Some(entries[key]);
    }

    method Set(key: Key, entry: Entry)
      requires Valid(Contents())
      modifies this`entries, this`lruList
      ensures Valid(Contents()) && Contents() == Apply(old(Contents()), Op.Set(key, entry))
    {
      if |entry.body| > MAX_BODY_BYTES {
        return;
      }
      InsertedValid(Contents(), key, entry);
      hide Keep, Restrict, NoDuplicates, Valid, Evicted, Removed, Spared;
      RemoveLocked(key);
      Evict();
      lruList := [key] + lruList;
      entries := entries[key := entry];
    }

    /** Make room for one more entry. */
    method Evict()
      requires Valid(Contents())
      modifies this`entries, this`lruList
      ensures Valid(Contents()) && Contents() == Evicted(old(Contents()))
    {
      hide Evicted, Removed, NoDuplicates;
      ghost var before := Contents();
      EvictedHasRoom(before);
      LastIsEvicted(before);
      while |lruList| >= maxSize
        invariant Valid(Contents()) && (Contents() == before || (Contents() == Evicted(before) && |lruList| < maxSize))
        decreases |lruList|
      {
        RemoveLocked(lruList[|lruList| - 1]);
      }
    }

    method Delete(key: Key)
      requires Valid(Contents())
      modifies this`entries, this`lruList
      ensures Valid(Contents()) && Contents() == Apply(old(Contents()), Op.Delete(key))
    {
      RemoveLocked(key);
    }

    /** One round of the cleanup loop. */
    method Visit(key: Key, now: int, ghost s: State, ghost kept: set<Key>) returns (ghost still: set<Key>)
      requires Valid(Contents()) && Valid(s) && key in kept && kept <= s.entries.Keys
      requires Contents() == Restrict(s, kept)
      modifies this`entries, this`lruList
      ensures Valid(Contents()) && Contents() == Restrict(s, still)
      ensures still == if now > s.entries[key].expiresAt then kept - {key} else kept
    {
      hide Restrict, Valid;
      still := kept;
      RestrictLooksUp(s, kept);
      if now > entries[key].expiresAt {
        RemoveLocked(key);
        RestrictTwice(s, kept, kept - {key});
        still := kept - {key};
      }
    }

    /** The body of the cleanup loop: visit the keys in any order, removing the expired ones. */
    method Sweep(now: int)
      requires Valid(Contents())
      modifies this`entries, this`lruList
      ensures Valid(Contents()) && Contents() == Apply(old(Contents()), Op.Sweep(now))
    {
      ghost var s := Contents();
      ghost var kept := entries.Keys;
      var todo := entries.Keys;
      RestrictLooksUp(s, kept);
      hide Keep, NoDuplicates, Restrict, Valid, Unexpired;
      while todo != {}
        invariant todo <= kept <= s.entries.Keys && Valid(Contents())
        invariant Contents() == Restrict(s, kept)
        invariant forall k :: k in s.entries && k !in todo ==> (k in kept <==> now <= s.entries[k].expiresAt)
        decreases todo
      {
        var key :| key in todo;
        todo := todo - {key};
        kept := Visit(key, now, s, kept);
      }
      KeptIsUnexpired(s, now, kept);
    }
  }

  lemma KeptIsUnexpired(s: State, now: int, kept: set<Key>)
    requires kept <= s.entries.Keys
    requires forall k :: k in s.entries ==> (k in kept <==> now <= s.entries[k].expiresAt)
    ensures kept == Unexpired(s, now)
  {
  }

  lemma RestrictLooksUp(s: State, keys: set<Key>)
    requires Valid(s) && keys <= s.entries.Keys
    ensures Restrict(s, keys).entries.Keys == keys
    ensures forall k :: k in keys ==> Restrict(s, keys).entries[k] == s.entries[k]
    ensures Restrict(s, s.entries.Keys) == s
  {
    hide Keep, NoDuplicates;
    KeepAll(s.order, s.entries.Keys);
    hide Valid;
    assert (map k | k in s.entries && k in s.entries.Keys :: s.entries[k]) == s.entries;
  }

  lemma RestrictTwice(s: State, a: set<Key>, b: set<Key>)
    requires b <= a <= s.entries.Keys
    ensures Restrict(Restrict(s, a), b) == Restrict(s, b)
    ensures Restrict(s, a).entries.Keys == a
  {
    KeepTwice(s.order, a, b);
    assert a * b == b;
  }
}
