/** What the response cache is sure to keep: an entry whose key is among the last maxSize keys used. */
module ResponseCacheRecency {
  import opened Collections
  import opened ResponseCache

  /** The key an operation uses, if it uses one. */
  function UsedKey(s: State, op: Op): set<Key> {
    if (op.Get? || op.Set?) && Uses(s, op, op.key) then {op.key} else {}
  }

  /** The keys that the operations from place `from` on use. */
  function UsedFrom(n: nat, ops: seq<Op>, from: nat): set<Key> {
    if |ops| <= from then {} else
    var init := ops[..|ops| - 1];
    UsedFrom(n, init, from) + UsedKey(After(n, init), ops[|ops| - 1])
  }

  lemma {:induction false} UsedLater(n: nat, ops: seq<Op>, from: nat, key: Key)
    requires LastUse(n, ops, key) >= from
    ensures key in UsedFrom(n, ops, from)
  {
    hide After;
    if LastUse(n, ops, key) < |ops| - 1 {
      UsedLater(n, ops[..|ops| - 1], from, key);
    }
  }

  /** From place `from` on nobody deletes the key, and nobody reads it or sweeps after its entry's time is over. */
  ghost predicate LeftAlone(ops: seq<Op>, key: Key, from: nat, expiresAt: int) {
    forall j :: from <= j < |ops| ==>
      match ops[j]
      case Get(k, now) => k == key ==> now <= expiresAt
      case Set(_, _) => true
      case Delete(k) => k != key
      case Sweep(now) => now <= expiresAt
  }

  /** How a key can leave the cache. */
  lemma LeavesOnlySo(s: State, op: Op, key: Key)
    requires Valid(s) && key in s.entries && key !in Apply(s, op).entries
    ensures match op
      case Get(k, now) => k == key && now > s.entries[key].expiresAt
      case Set(k, entry) => k != key && |entry.body| <= 1048576
      case Delete(k) => k == key
      case Sweep(now) => now > s.entries[key].expiresAt
  {
    hide Keep;
  }

  lemma UseKeeps(s: State, op: Op, key: Key)
    requires Valid(s) && Uses(s, op, key)
    ensures key in Apply(s, op).entries
  {
    hide Keep;
  }

  /** An eviction that took the key would have seen as many other keys used since. */
  lemma EvictionNeedsOthers(n: nat, ops: seq<Op>, op: Op, key: Key)
    requires n >= 1 && op.Set? && op.key != key && LastUse(n, ops, key) >= 0
    requires key in After(n, ops).entries && key !in After(n, ops + [op]).entries && |op.entry.body| <= 1048576
    ensures |UsedFrom(n, ops + [op], LastUse(n, ops, key) + 1)| >= n
  {
    hide *;
    var from := LastUse(n, ops, key) + 1;
    OnlyFullCachesEvict(n, ops, op, key);
    RunKeepsCapacity(n, ops);
    var others := After(n, ops).entries.Keys - {op.key} - {key};
    OneMoreUsed(n, ops, op, from);
    forall o | o in others ensures o in UsedFrom(n, ops + [op], from) {
      VictimIsLeastRecentlyUsed(n, ops, op, key, o);
      UsedLater(n, ops, from, o);
    }
    assert others + {op.key} <= UsedFrom(n, ops + [op], from);
    SubsetIsSmaller(others + {op.key}, UsedFrom(n, ops + [op], from));
  }

  lemma OneMoreUsed(n: nat, ops: seq<Op>, op: Op, from: nat)
    requires from <= |ops|
    ensures UsedFrom(n, ops, from) <= UsedFrom(n, ops + [op], from)
    ensures op.Set? && |op.entry.body| <= 1048576 ==> op.key in UsedFrom(n, ops + [op], from)
  {
    hide After;
    assert (ops + [op])[..|ops|] == ops;
  }

  lemma {:induction false} SubsetIsSmaller(a: set<Key>, b: set<Key>)
    requires a <= b
    ensures |a| <= |b|
  {
    if a != {} {
      var x :| x in a;
      SubsetIsSmaller(a - {x}, b - {x});
    }
  }

  /** A cache of n places keeps a key, with the entry last set, as long as fewer than n other keys are used after it and
    * nothing deletes it or finds it expired. */
  lemma {:induction false} RecentIsKept(n: nat, ops: seq<Op>, key: Key, e: Entry)
    requires n >= 1 && LastUse(n, ops, key) >= 0 && LastSet(ops, key) == Some(e)
    requires |UsedFrom(n, ops, LastUse(n, ops, key) + 1)| < n
    requires LeftAlone(ops, key, LastUse(n, ops, key) + 1, e.expiresAt)
    ensures key in After(n, ops).entries && After(n, ops).entries[key] == e
    ensures forall now :: now <= e.expiresAt ==> Answer(After(n, ops), Get(key, now)) == Some(e)
  {
    var at, init, op := LastUse(n, ops, key), ops[..|ops| - 1], ops[|ops| - 1];
    RunKeepsCapacity(n, init);
    hide Valid, Inserted, Removed, Restrict, ToFront, UsedFrom, Apply;
    if at == |ops| - 1 {
      UseKeeps(After(n, init), op, key);
    } else {
      assert ops == init + [op];
      UsedEarlier(n, init, op, key);
      RecentIsKept(n, init, key, e);
      StillThere(n, init, op, key);
    }
    EntriesAreLastSet(n, ops, key);
  }

  lemma UsedEarlier(n: nat, init: seq<Op>, op: Op, key: Key)
    requires 0 <= LastUse(n, init + [op], key) < |init|
    requires var ops, at := init + [op], LastUse(n, init + [op], key);
      |UsedFrom(n, ops, at + 1)| < n && LastSet(ops, key).Some? && LeftAlone(ops, key, at + 1, LastSet(ops, key).value.expiresAt)
    ensures var at := LastUse(n, init + [op], key);
      && LastUse(n, init, key) == at && LastSet(init, key) == LastSet(init + [op], key)
      && |UsedFrom(n, init, at + 1)| < n && LeftAlone(init, key, at + 1, LastSet(init, key).value.expiresAt)
      && !Uses(After(n, init), op, key)
  {
    hide After, UsedFrom;
    var ops := init + [op];
    assert ops[..|ops| - 1] == init && ops[|ops| - 1] == op;
    OneMoreUsed(n, init, op, LastUse(n, ops, key) + 1);
    SubsetIsSmaller(UsedFrom(n, init, LastUse(n, ops, key) + 1), UsedFrom(n, ops, LastUse(n, ops, key) + 1));
    assert forall j :: 0 <= j < |init| ==> ops[j] == init[j];
  }

  lemma StillThere(n: nat, init: seq<Op>, op: Op, key: Key)
    requires n >= 1 && key in After(n, init).entries && 0 <= LastUse(n, init, key)
    requires !Uses(After(n, init), op, key) && |UsedFrom(n, init + [op], LastUse(n, init, key) + 1)| < n
    requires LeftAlone([op], key, 0, After(n, init).entries[key].expiresAt)
    ensures key in After(n, init + [op]).entries
  {
    RunKeepsCapacity(n, init);
    assert (init + [op])[..|init|] == init;
    var s := After(n, init);
    hide UsedFrom, LastUse, Apply, Valid;
    if key !in Apply(s, op).entries {
      LeavesOnlySo(s, op, key);
      assert LeftAlone([op], key, 0, s.entries[key].expiresAt) && [op][0] == op;
      EvictionNeedsOthers(n, init, op, key);
    }
  }
}
