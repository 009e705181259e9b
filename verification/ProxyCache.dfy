/** The gateway's proxy cache: an array-backed recency list with its inverse index, and the accounting of sizes. */
module ProxyCaching {
  import opened Collections

  type Key = string

  const MEGABYTE := 1048576
  const DEFAULT_MEGABYTES := 512
  const SLOT_BYTES := 65536
  const MAX_SLOTS := 65536
  const TWO_TO_THE_44 := 0x1000_0000_0000
  const TWO_TO_THE_64 := 0x1_0000_0000_0000_0000

  datatype Entry = Entry(data: seq<bv8>, timestamp: int, ttl: int, size: nat)

  type Entries = map<Key, Entry>

  predicate Expired(e: Entry, now: int) {
    e.ttl > 0 && now - e.timestamp > e.ttl
  }

  lemma ExpiredOnFields(now: int)
    ensures forall e: Entry :: Expired(e, now) <==> e.ttl > 0 && now > e.timestamp + e.ttl
  {
  }

  // --------------------------------------------------------------------------- the recency list

  /** The list after a new key has come in, the oldest going if there is no room. */
  function Pushed(list: seq<Key>, key: Key, capacity: nat): seq<Key> {
    if key in list then [key] + Without(list, key)
    else [key] + if |list| >= capacity && list != [] then list[..|list| - 1] else list
  }

  /** index gives every key its place, and nothing else. */
  ghost predicate Inverse(list: seq<Key>, index: map<Key, nat>) {
    && (forall i :: 0 <= i < |list| ==> list[i] in index && index[list[i]] == i)
    && forall k :: k in index ==> index[k] < |list| && list[index[k]] == k
  }

  lemma InverseIsUnique(list: seq<Key>, index: map<Key, nat>)
    requires Inverse(list, index)
    ensures NoDuplicates(list) && forall k :: k in index <==> k in list
  {
  }

  class LruCache {
    const capacity: nat
    var list: seq<Key>
    var index: map<Key, nat>

    ghost predicate Valid()
      reads this
    {
      Inverse(list, index) && |list| <= capacity && capacity >= 1
    }

    constructor (capacity: nat)
      requires capacity >= 1
      ensures Valid() && list == [] && this.capacity == capacity
    {
      this.capacity := capacity;
      list, index := [], map[];
    }

    /** Give every listed key its place again. */
    method Reindex()
      requires NoDuplicates(list) && forall k :: k in index ==> k in list
      modifies this`index
      ensures Inverse(list, index)
    {
      for i := 0 to |list|
        invariant forall k :: k in index ==> k in list
        invariant forall j :: 0 <= j < i ==> list[j] in index && index[list[j]] == j
      {
        index := index[list[i] := i];
      }
      forall k | k in index ensures index[k] < |list| && list[index[k]] == k {
        var j :| 0 <= j < |list| && list[j] == k;
      }
    }

    method Touch(key: Key)
      requires Valid()
      modifies this
      ensures Valid() && list == if key in old(list) then [key] + Without(old(list), key) else old(list)
    {
      InverseIsUnique(list, index);
      ghost var before := list;
      hide Inverse, NoDuplicates;
      if key in index {
        var at := index[key];
        PlaceOf(list, index, key);
        if at > 0 {
          list := list[..at] + list[at + 1..];
          list := [key] + list;
          Prepended(before, key);
          Reindex();
        }
      }
    }

    method Add(key: Key)
      requires Valid()
      modifies this
      ensures Valid() && list == Pushed(old(list), key, capacity)
    {
      InverseIsUnique(list, index);
      if key in index {
        Touch(key);
        return;
      }
      hide Inverse;
      if |list| >= capacity {
        var evict := list[|list| - 1];
        index := index - {evict};
        list := list[..|list| - 1];
      }
      list := [key] + list;
      Reindex();
    }

    method Remove(key: Key)
      requires Valid()
      modifies this
      ensures Valid() && list == Without(old(list), key)
    {
      hide Inverse, NoDuplicates, Without;
      if key in index {
        PlaceOf(list, index, key);
        AfterRemoval(list, index, key);
        var at := index[key];
        list := list[..at] + list[at + 1..];
        index := index - {key};
        Reindex();
      } else {
        NotListed(list, index, key);
      }
    }
  }

  lemma PlaceOf(list: seq<Key>, index: map<Key, nat>, key: Key)
    requires Inverse(list, index) && key in index
    ensures index[key] < |list| && list[index[key]] == key
    ensures Without(list, key) == list[..index[key]] + list[index[key] + 1..]
    ensures |Without(list, key)| == |list| - 1
    ensures index[key] == 0 ==> list == [key] + Without(list, key)
  {
    hide *;
    InverseAt(list, index, key);
    InverseIsInjective(list, index);
    WithoutAt(list, index[key]);
    FirstAndRest(list);
  }

  lemma InverseIsInjective(list: seq<Key>, index: map<Key, nat>)
    requires Inverse(list, index)
    ensures NoDuplicates(list)
  {
  }

  lemma FirstAndRest(list: seq<Key>)
    ensures list != [] ==> list == [list[0]] + (list[..0] + list[1..])
  {
  }

  lemma InverseAt(list: seq<Key>, index: map<Key, nat>, key: Key)
    requires Inverse(list, index) && key in index
    ensures index[key] < |list| && list[index[key]] == key
  {
  }

  lemma AfterRemoval(list: seq<Key>, index: map<Key, nat>, key: Key)
    requires Inverse(list, index)
    ensures NoDuplicates(Without(list, key)) && forall k :: k in index - {key} ==> k in Without(list, key)
  {
    hide *;
    InverseIsUnique(list, index);
    WithoutMembers(list, key);
  }

  lemma NotListed(list: seq<Key>, index: map<Key, nat>, key: Key)
    requires Inverse(list, index) && key !in index
    ensures Without(list, key) == list
  {
    hide *;
    InverseIsUnique(list, index);
    WithoutMembers(list, key);
  }

  lemma Prepended(list: seq<Key>, key: Key)
    requires NoDuplicates(list)
    ensures NoDuplicates([key] + Without(list, key))
    ensures forall k :: k in [key] + Without(list, key) <==> k in list || k == key
  {
    WithoutMembers(list, key);
  }

  /** The list goes from the key used last to the one not used for longest. */
  ghost predicate ByRecency(list: seq<Key>, lastUse: map<Key, int>) {
    && (forall k :: k in list ==> k in lastUse)
    && forall i, j :: 0 <= i < j < |list| ==> lastUse[list[i]] > lastUse[list[j]]
  }

  lemma SpliceByRecency(list: seq<Key>, i: nat, lastUse: map<Key, int>)
    requires ByRecency(list, lastUse) && i < |list|
    ensures ByRecency(list[..i] + list[i + 1..], lastUse)
  {
    var rest := list[..i] + list[i + 1..];
    assert forall j :: 0 <= j < |rest| ==> rest[j] == list[if j < i then j else j + 1];
  }

  lemma WithoutByRecency(list: seq<Key>, key: Key, lastUse: map<Key, int>)
    requires ByRecency(list, lastUse) && NoDuplicates(list)
    ensures ByRecency(Without(list, key), lastUse)
  {
    hide *;
    if key in list {
      var i :| 0 <= i < |list| && list[i] == key;
      WithoutAt(list, i);
      SpliceByRecency(list, i, lastUse);
    } else {
      WithoutMembers(list, key);
    }
  }

  /** Using a key keeps that order, and the key that goes for a new one is the one not used for longest. */
  lemma PushedByRecency(list: seq<Key>, key: Key, capacity: nat, lastUse: map<Key, int>, now: int)
    requires ByRecency(list, lastUse) && forall k :: k in list ==> lastUse[k] < now
    ensures ByRecency(Pushed(list, key, capacity), lastUse[key := now])
    ensures forall k, o :: k in list && k !in Pushed(list, key, capacity) && o in list && o != k ==> lastUse[k] < lastUse[o]
  {
    assert NoDuplicates(list);
    WithoutByRecency(list, key, lastUse);
    WithoutMembers(list, key);
    var rest := if key in list then Without(list, key)
                else if |list| >= capacity && list != [] then list[..|list| - 1] else list;
    hide Without, NoDuplicates;
    assert Pushed(list, key, capacity) == [key] + rest && key !in rest;
    FrontByRecency(rest, key, lastUse, now);
    forall k, o | k in list && k !in [key] + rest && o in list && o != k ensures lastUse[k] < lastUse[o] {
      if key !in list {
        LastByRecency(list, k, o, lastUse);
      }
    }
  }

  lemma FrontByRecency(rest: seq<Key>, key: Key, lastUse: map<Key, int>, now: int)
    requires ByRecency(rest, lastUse) && key !in rest && forall k :: k in rest ==> lastUse[k] < now
    ensures ByRecency([key] + rest, lastUse[key := now])
  {
    var all := [key] + rest;
    assert forall j :: 1 <= j < |all| ==> all[j] == rest[j - 1] && all[j] in rest;
  }

  lemma LastByRecency(list: seq<Key>, k: Key, o: Key, lastUse: map<Key, int>)
    requires ByRecency(list, lastUse) && k in list && o in list && o != k && k !in list[..|list| - 1]
    ensures lastUse[k] < lastUse[o]
  {
    assert list == list[..|list| - 1] + [list[|list| - 1]];
    assert k == list[|list| - 1];
    var j :| 0 <= j < |list| && list[j] == o;
  }

  // --------------------------------------------------------------------------- limits

  /** A 64-bit product as the program has it. */
  function Signed64(n: int): int {
    var low := n % TWO_TO_THE_64;
    if low >= TWO_TO_THE_64 / 2 then low - TWO_TO_THE_64 else low
  }

  /** The limit in bytes; zero and less mean the default. */
  function SizeLimit(megabytes: int): int {
    var size := Signed64(megabytes * MEGABYTE);
    if size <= 0 then DEFAULT_MEGABYTES * MEGABYTE else size
  }

  /** The list has a place for every 64 KiB, up to a bound. */
  function Slots(limit: int): nat
    requires limit >= 0
  {
    if limit / SLOT_BYTES > MAX_SLOTS then MAX_SLOTS else limit / SLOT_BYTES
  }

  /** Even when the product wraps, the limit is at least a megabyte; so there are 16 to 65536 places, each for many bytes. */
  lemma LimitIsWholeMegabytes(megabytes: int)
    ensures SizeLimit(megabytes) >= MEGABYTE && 16 <= Slots(SizeLimit(megabytes)) <= MAX_SLOTS
    ensures Slots(SizeLimit(megabytes)) < SizeLimit(megabytes)
  {
    WrapKeepsMegabytes(megabytes);
  }

  /** The limit is the configured number of megabytes, cut to 44 bits and read as a signed number, or 512 if that is not
    * positive; and the list has sixteen places for every megabyte up to 65536. */
  lemma LimitOnFields(megabytes: int)
    ensures var cut := megabytes % 0x1000_0000_0000;
      var known := if 0 < cut < 0x800_0000_0000 then cut else 512;
      && SizeLimit(megabytes) == known * 1048576
      && Slots(SizeLimit(megabytes)) == if known > 4096 then 65536 else 16 * known
  {
    assert megabytes * MEGABYTE % TWO_TO_THE_64 == MEGABYTE * (megabytes % TWO_TO_THE_44);
  }

  lemma WrapKeepsMegabytes(megabytes: int)
    ensures Signed64(megabytes * MEGABYTE) > 0 ==> Signed64(megabytes * MEGABYTE) >= MEGABYTE
  {
    assert megabytes * MEGABYTE % TWO_TO_THE_64 == MEGABYTE * (megabytes % TWO_TO_THE_44);
  }

  // --------------------------------------------------------------------------- sizes

  /** The sizes of all entries together. */
  ghost function Total(entries: Entries): nat {
    if entries == map[] then 0 else var k :| k in entries; entries[k].size + Total(entries - {k})
  }

  lemma {:induction false} TotalRemove(entries: Entries, key: Key)
    requires key in entries
    ensures Total(entries) == entries[key].size + Total(entries - {key})
    decreases |entries|
  {
    var k :| k in entries && Total(entries) == entries[k].size + Total(entries - {k});
    if k != key {
      TotalRemove(entries - {k}, key);
      TotalRemove(entries - {key}, k);
      assert entries - {k} - {key} == entries - {key} - {k};
    }
  }

  lemma TotalAdd(entries: Entries, key: Key, e: Entry)
    requires key !in entries
    ensures Total(entries[key := e]) == Total(entries) + e.size
  {
    TotalRemove(entries[key := e], key);
    assert entries[key := e] - {key} == entries;
  }

  ghost predicate AllListedFiled(list: seq<Key>, entries: Entries) {
    forall k :: k in list ==> k in entries
  }

  /** No entry is without a place in the list. */
  ghost predicate NoOrphans(list: seq<Key>, entries: Entries) {
    forall k :: k in entries ==> k in list
  }

  // --------------------------------------------------------------------------- eviction

  datatype State = State(entries: Entries, list: seq<Key>, used: int)

  ghost predicate Accounted(s: State) {
    s.used == Total(s.entries) && AllListedFiled(s.list, s.entries) && NoDuplicates(s.list)
  }

  /** Take out a key: its entry, its place, and what it used. */
  function Dropped(s: State, key: Key): State {
    if key in s.entries then
      State(s.entries - {key}, Without(s.list, key), s.used - s.entries[key].size)
    else
      State(s.entries, Without(s.list, key), s.used)
  }

  /** Take out the least recently used keys until there is room, or the list is empty. */
  function Evicted(s: State, needed: nat, limit: int): State
    decreases |s.list|
  {
    if s.used + needed <= limit || s.entries == map[] || s.list == [] then
      s
    else
      var last := s.list[|s.list| - 1];
      var next := Dropped(s, last);
      if |next.list| < |s.list| then Evicted(next, needed, limit) else s
  }

  /** The state with the key taken out, and room made for the new entry. */
  function Cleared(s: State, key: Key, e: Entry, limit: int): State {
    var cleared := if key in s.entries then Dropped(s, key) else s;
    if cleared.used + e.size > limit then Evicted(cleared, e.size, limit) else cleared
  }

  function Stored(s: State, key: Key, e: Entry, limit: int, capacity: nat): State {
    var roomy := Cleared(s, key, e, limit);
    State(roomy.entries[key := e], Pushed(roomy.list, key, capacity), roomy.used + e.size)
  }

  lemma DroppedIsAccounted(s: State, key: Key)
    requires Accounted(s)
    ensures Accounted(Dropped(s, key))
    ensures NoOrphans(s.list, s.entries) ==> NoOrphans(Dropped(s, key).list, Dropped(s, key).entries)
  {
    WithoutMembers(s.list, key);
    if key in s.entries {
      TotalRemove(s.entries, key);
    }
  }

  lemma DropLast(s: State)
    requires NoDuplicates(s.list) && s.list != []
    ensures Dropped(s, s.list[|s.list| - 1]).list == s.list[..|s.list| - 1]
  {
    WithoutAt(s.list, |s.list| - 1);
  }

  lemma NothingListed(s: State)
    requires Accounted(s)
    ensures s.list != [] ==> s.entries != map[]
  {
    if s.list != [] {
      assert s.list[0] in s.list;
    }
  }

  /** Eviction makes room, or leaves an empty list; sizes and entries stay accounted for. */
  lemma {:induction false} EvictionMakesRoom(s: State, needed: nat, limit: int)
    requires Accounted(s)
    ensures var t := Evicted(s, needed, limit);
      Accounted(t) && t.list <= s.list && t.used <= s.used && (t.used + needed <= limit || t.list == [])
    ensures NoOrphans(s.list, s.entries) ==> NoOrphans(Evicted(s, needed, limit).list, Evicted(s, needed, limit).entries)
    decreases |s.list|
  {
    hide Accounted, NoOrphans;
    if s.used + needed > limit && s.list != [] {
      if s.entries == map[] {
        NothingListed(s);
      } else {
        var last := s.list[|s.list| - 1];
        assert NoDuplicates(s.list) by { AccountedList(s); }
        DropLast(s);
        DroppedIsAccounted(s, last);
        EvictionMakesRoom(Dropped(s, last), needed, limit);
      }
    }
  }

  lemma AccountedList(s: State)
    requires Accounted(s)
    ensures NoDuplicates(s.list)
  {
  }

  /** It takes keys off the end of the list only while there is no room. */
  lemma {:induction false} EvictionIsNeeded(s: State, needed: nat, limit: int)
    requires Accounted(s)
    ensures var t := Evicted(s, needed, limit);
      && t.list <= s.list && (t.list == s.list ==> t == s)
      && (t.list != s.list ==>
            var last := s.list[|t.list|];
            last in s.entries && t.used + s.entries[last].size + needed > limit)
    decreases |s.list|
  {
    if s.used + needed > limit && s.entries != map[] && s.list != [] {
      var last := s.list[|s.list| - 1];
      DropLast(s);
      DroppedIsAccounted(s, last);
      assert last in s.entries;
      hide Accounted, NoOrphans, NoDuplicates;
      EvictionIsNeeded(Dropped(s, last), needed, limit);
    }
  }

  /** And it takes out the entries of those keys and no others. */
  lemma {:induction false} EvictionTakesTail(s: State, needed: nat, limit: int)
    requires Accounted(s)
    ensures var t := Evicted(s, needed, limit);
      && t.list <= s.list
      && (forall k :: k in t.entries <==> k in s.entries && k !in s.list[|t.list|..])
      && (forall k :: k in t.entries ==> t.entries[k] == s.entries[k])
    decreases |s.list|
  {
    hide *;
    if s.used + needed > limit && s.entries != map[] && s.list != [] {
      var last := s.list[|s.list| - 1];
      OneEviction(s, needed, limit);
      EvictionTakesTail(Dropped(s, last), needed, limit);
      TailWithLast(s.list, |Evicted(s, needed, limit).list|);
    } else {
      NoEviction(s, needed, limit);
    }
  }

  lemma OneEviction(s: State, needed: nat, limit: int)
    requires Accounted(s) && s.used + needed > limit && s.entries != map[] && s.list != []
    ensures var last := s.list[|s.list| - 1];
      var next := Dropped(s, last);
      && Accounted(next) && Evicted(s, needed, limit) == Evicted(next, needed, limit)
      && last in s.entries && next.entries == s.entries - {last} && next.list == s.list[..|s.list| - 1]
  {
    hide Evicted, NoOrphans;
    AccountedList(s);
    DropLast(s);
    DroppedIsAccounted(s, s.list[|s.list| - 1]);
    EvictedNext(s, needed, limit);
  }

  lemma EvictedNext(s: State, needed: nat, limit: int)
    requires s.used + needed > limit && s.entries != map[] && s.list != []
    requires |Dropped(s, s.list[|s.list| - 1]).list| < |s.list|
    ensures Evicted(s, needed, limit) == Evicted(Dropped(s, s.list[|s.list| - 1]), needed, limit)
  {
    hide Dropped;
  }

  lemma NoEviction(s: State, needed: nat, limit: int)
    requires s.used + needed <= limit || s.entries == map[] || s.list == []
    ensures Evicted(s, needed, limit) == s
  {
  }

  lemma TailWithLast(list: seq<Key>, n: nat)
    requires n < |list|
    ensures forall k :: k in list[n..] <==> k in list[..|list| - 1][n..] || k == list[|list| - 1]
  {
    assert list[n..] == list[..|list| - 1][n..] + [list[|list| - 1]];
  }

  lemma KeysOnlyLeave(s: State, needed: nat, limit: int)
    requires Accounted(s)
    ensures forall k :: k in Evicted(s, needed, limit).entries ==> k in s.entries
  {
    EvictionTakesTail(s, needed, limit);
  }

  lemma PushedIsAccounted(s: State, key: Key, e: Entry, capacity: nat)
    requires Accounted(s) && key !in s.entries
    ensures Accounted(State(s.entries[key := e], Pushed(s.list, key, capacity), s.used + e.size))
  {
    TotalAdd(s.entries, key, e);
    assert key !in s.list;
  }

  lemma ClearedIsAccounted(s: State, key: Key, e: Entry, limit: int)
    requires Accounted(s)
    ensures var t := Cleared(s, key, e, limit);
      && Accounted(t) && key !in t.entries && (t.used + e.size <= limit || t.list == [])
      && (NoOrphans(s.list, s.entries) ==> NoOrphans(t.list, t.entries))
  {
    DroppedIsAccounted(s, key);
    hide Accounted, NoOrphans;
    var cleared := if key in s.entries then Dropped(s, key) else s;
    EvictionMakesRoom(cleared, e.size, limit);
    KeysOnlyLeave(cleared, e.size, limit);
  }

  /** Storing keeps the books: the used size is the sum of the entries' sizes, and every listed key has an entry. */
  lemma StoredIsAccounted(s: State, key: Key, e: Entry, limit: int, capacity: nat)
    requires Accounted(s)
    ensures Accounted(Stored(s, key, e, limit, capacity))
  {
    ClearedIsAccounted(s, key, e, limit);
    hide Accounted, Cleared;
    PushedIsAccounted(Cleared(s, key, e, limit), key, e, capacity);
  }

  /** A store puts the entry in and its key in front; of the others it changes none, adds none, and loses none while the
    * sizes fit. */
  lemma StoredOnFields(s: State, key: Key, e: Entry, limit: int, capacity: nat)
    requires Accounted(s)
    ensures var t := Stored(s, key, e, limit, capacity);
      && key in t.entries && t.entries[key] == e && t.list != [] && t.list[0] == key
      && (forall k :: k in t.entries && k != key ==> k in s.entries && t.entries[k] == s.entries[k])
      && (forall k :: k in t.list && k != key ==> k in s.list)
      && (s.used + e.size <= limit ==> forall k :: k in s.entries ==> k in t.entries)
  {
    ClearedOnFields(s, key, e, limit);
    hide Accounted, Cleared, Pushed;
    PushedOnFields(Cleared(s, key, e, limit).list, key, capacity);
  }

  lemma ClearedOnFields(s: State, key: Key, e: Entry, limit: int)
    requires Accounted(s)
    ensures var t := Cleared(s, key, e, limit);
      && (forall k :: k in t.entries ==> k in s.entries && k != key && t.entries[k] == s.entries[k])
      && (forall k :: k in t.list ==> k in s.list)
      && (s.used + e.size <= limit ==> t.entries == s.entries - {key})
  {
    var cleared := if key in s.entries then Dropped(s, key) else s;
    DroppedIsAccounted(s, key);
    SubsetOfWithout(s.list, key);
    EvictionTakesTail(cleared, e.size, limit);
    hide Accounted, NoOrphans, Evicted, Without;
    assert forall k :: k in Evicted(cleared, e.size, limit).list ==> k in cleared.list;
  }

  lemma PushedOnFields(list: seq<Key>, key: Key, capacity: nat)
    ensures Pushed(list, key, capacity) != [] && Pushed(list, key, capacity)[0] == key
    ensures forall k :: k in Pushed(list, key, capacity) && k != key ==> k in list
  {
    if key in list {
      var i :| 0 <= i < |list| && list[i] == key;
      SubsetOfWithout(list, key);
    }
  }

  lemma {:induction false} SubsetOfWithout(list: seq<Key>, key: Key)
    ensures forall k :: k in Without(list, key) ==> k in list
  {
    if list != [] { SubsetOfWithout(list[1..], key); }
  }

  lemma PushOrphans(s: State, key: Key, e: Entry, capacity: nat)
    requires Accounted(s) && NoOrphans(s.list, s.entries) && key !in s.entries && capacity >= 1
    ensures NoOrphans(Pushed(s.list, key, capacity), s.entries[key := e]) <==> |s.list| < capacity
  {
    assert key !in s.list;
    if |s.list| >= capacity {
      var last := s.list[|s.list| - 1];
      assert last in s.list && last in s.entries[key := e];
      LastIsGone(s.list, key);
    }
  }

  /** The list is full when the new key comes, exactly if it was, the key is new, and the sizes ask for no eviction. */
  lemma StillFull(s: State, key: Key, e: Entry, limit: int, capacity: nat)
    requires Accounted(s) && NoOrphans(s.list, s.entries) && 1 <= capacity && |s.list| <= capacity
    ensures |Cleared(s, key, e, limit).list| >= capacity
      <==> key !in s.entries && |s.list| == capacity && s.used + e.size <= limit
  {
    hide Accounted, NoDuplicates;
    AccountedList(s);
    DroppedIsAccounted(s, key);
    if key in s.entries {
      assert key in s.list;
      hide NoOrphans;
      WithoutIsShorter(s.list, key);
      EvictionMakesRoom(Dropped(s, key), e.size, limit);
    } else {
      hide NoOrphans, Evicted, Dropped;
      NothingListed(s);
      if s.used + e.size > limit && s.list != [] {
        OneEviction(s, e.size, limit);
        EvictionMakesRoom(Dropped(s, s.list[|s.list| - 1]), e.size, limit);
      } else {
        NoEviction(s, e.size, limit);
      }
    }
  }

  lemma WithoutIsShorter(list: seq<Key>, key: Key)
    requires NoDuplicates(list) && key in list
    ensures |Without(list, key)| < |list|
  {
    var i :| 0 <= i < |list| && list[i] == key;
    WithoutAt(list, i);
  }

  /**
   * If every entry was listed, then after a store some entry is not, exactly when the key is new, the list was full,
   * and the sizes ask for no eviction: the entry of the key that falls off the list stays behind. An entry that fits
   * the limit keeps the used size within it.
   */
  lemma OrphansAppearExactly(s: State, key: Key, e: Entry, limit: int, capacity: nat)
    requires Accounted(s) && NoOrphans(s.list, s.entries) && 1 <= capacity && |s.list| <= capacity
    ensures var t := Stored(s, key, e, limit, capacity);
      && (!NoOrphans(t.list, t.entries) <==> key !in s.entries && |s.list| == capacity && s.used + e.size <= limit)
      && (e.size <= limit ==> t.used <= limit)
  {
    ClearedIsAccounted(s, key, e, limit);
    StillFull(s, key, e, limit, capacity);
    var roomy := Cleared(s, key, e, limit);
    hide Cleared;
    PushOrphans(roomy, key, e, capacity);
    NothingLeft(roomy);
  }

  /** The entries that nothing lists, the one of the key apart. */
  function Unlisted(s: State, key: Key): Entries {
    map k | k in s.entries && k !in s.list && k != key :: s.entries[k]
  }

  lemma {:induction false} TotalGrows(a: Entries, b: Entries)
    requires forall k :: k in a ==> k in b && b[k] == a[k]
    ensures Total(a) <= Total(b)
    decreases |a|
  {
    if a != map[] {
      var k :| k in a;
      TotalRemove(a, k);
      TotalRemove(b, k);
      TotalGrows(a - {k}, b - {k});
    }
  }

  lemma UnlistedApart(s: State, key: Key)
    requires Accounted(s)
    ensures var cleared := if key in s.entries then Dropped(s, key) else s;
      && Accounted(cleared)
      && Unlisted(s, key) == map k | k in cleared.entries && k !in cleared.list :: cleared.entries[k]
  {
    WithoutMembers(s.list, key);
    DroppedIsAccounted(s, key);
    hide NoOrphans, NoDuplicates, Without, Total;
  }

  /** Eviction leaves every unlisted entry, and no other entry once it has emptied the list. */
  lemma UnlistedStay(s: State, needed: nat, limit: int)
    requires Accounted(s)
    ensures var t, u := Evicted(s, needed, limit), map k | k in s.entries && k !in s.list :: s.entries[k];
      && (forall k :: k in u ==> k in t.entries && t.entries[k] == u[k])
      && (t.list == [] ==> t.entries == u)
  {
    EvictionTakesTail(s, needed, limit);
    hide *;
    var t := Evicted(s, needed, limit);
    assert forall k :: k in s.list[|t.list|..] ==> k in s.list;
    assert t.list == [] ==> s.list[|t.list|..] == s.list;
  }

  lemma ClearedHasRoom(s: State, key: Key, e: Entry, limit: int)
    requires Accounted(s)
    ensures var t, u := Cleared(s, key, e, limit), Unlisted(s, key);
      && (forall k :: k in u ==> k in t.entries && t.entries[k] == u[k])
      && (t.used + e.size > limit ==> t.entries == u)
  {
    UnlistedApart(s, key);
    ClearedIsAccounted(s, key, e, limit);
    hide Accounted, NoOrphans, NoDuplicates, Evicted, Dropped, Unlisted;
    UnlistedStay(if key in s.entries then Dropped(s, key) else s, e.size, limit);
  }

  /**
   * A store ends within the limit exactly if the new entry fits beside what eviction cannot reach: the entries that
   * nothing lists.
   */
  lemma StoreFitsExactly(s: State, key: Key, e: Entry, limit: int, capacity: nat)
    requires Accounted(s)
    ensures Stored(s, key, e, limit, capacity).used <= limit <==> Total(Unlisted(s, key)) + e.size <= limit
  {
    ClearedIsAccounted(s, key, e, limit);
    ClearedHasRoom(s, key, e, limit);
    hide Cleared, NoOrphans, NoDuplicates, Total, Unlisted;
    TotalGrows(Unlisted(s, key), Cleared(s, key, e, limit).entries);
  }

  /** The cache after n different keys have been stored, each with one byte. */
  function Filled(n: nat, limit: int, capacity: nat): State {
    if n == 0 then
      State(map[], [], 0)
    else
      Stored(Filled(n - 1, limit, capacity), NthKey(n - 1), Entry([0], 0, 1, 1), limit, capacity)
  }

  function NthKey(n: nat): (key: Key)
    ensures |key| == n
  {
    seq(n, _ => 'a')
  }

  lemma {:induction false} FilledUp(n: nat, limit: int, capacity: nat)
    requires n <= capacity && n < limit
    ensures var s := Filled(n, limit, capacity);
      && Accounted(s) && NoOrphans(s.list, s.entries) && |s.list| == s.used == n
      && forall k :: k in s.entries ==> |k| < n
  {
    hide Accounted, Evicted, Dropped;
    if n == 0 {
      EmptyIsAccounted();
    } else {
      FilledUp(n - 1, limit, capacity);
      var s, e := Filled(n - 1, limit, capacity), Entry([0], 0, 1, 1);
      StoredIsAccounted(s, NthKey(n - 1), e, limit, capacity);
      NotListedYet(s, NthKey(n - 1));
    }
  }

  lemma EmptyIsAccounted()
    ensures Accounted(State(map[], [], 0))
  {
  }

  lemma NotListedYet(s: State, key: Key)
    requires Accounted(s) && key !in s.entries
    ensures key !in s.list
  {
  }

  /** Whatever the limit, a run of stores that fills the list and goes on leaves an entry behind that nothing lists. */
  lemma OrphansAreReached(limit: int)
    requires limit >= MEGABYTE
    ensures var s := Filled(Slots(limit) + 1, limit, Slots(limit));
      Accounted(s) && exists k :: k in s.entries && k !in s.list
  {
    var n := Slots(limit);
    FilledUp(n, limit, n);
    hide Accounted, Stored;
    StoredIsAccounted(Filled(n, limit, n), NthKey(n), Entry([0], 0, 1, 1), limit, n);
    OrphansAppearExactly(Filled(n, limit, n), NthKey(n), Entry([0], 0, 1, 1), limit, n);
  }

  lemma NothingLeft(s: State)
    requires Accounted(s) && NoOrphans(s.list, s.entries)
    ensures s.list == [] ==> s.used == 0
  {
    if s.list == [] {
      assert s.entries == map[];
    }
  }

  lemma LastIsGone(list: seq<Key>, key: Key)
    requires NoDuplicates(list) && list != [] && key !in list
    ensures list[|list| - 1] !in [key] + list[..|list| - 1]
  {
  }

  // --------------------------------------------------------------------------- the cache

  class ProxyCache {
    var entries: Entries
    const lru: LruCache
    const maxSize: int
    var usedSize: int

    ghost predicate Valid()
      reads this, lru
    {
      lru.Valid() && Accounted(Contents())
    }

    ghost function Contents(): State
      reads this, lru
    {
      State(entries, lru.list, usedSize)
    }

    constructor (megabytes: int)
      ensures Valid() && Contents() == State(map[], [], 0) && fresh(lru)
      ensures maxSize == SizeLimit(megabytes) && lru.capacity == Slots(maxSize)
    {
      var size := Signed64(megabytes * MEGABYTE);
      LimitIsWholeMegabytes(megabytes);
      if size <= 0 {
        size := DEFAULT_MEGABYTES * MEGABYTE;
      }
      var slots := size / SLOT_BYTES;
      if slots > MAX_SLOTS {
        slots := MAX_SLOTS;
      }
      maxSize := size;
      entries, usedSize := map[], 0;
      lru := new LruCache(slots);
    }

    method EvictLocked(needed: nat)
      requires Valid()
      modifies this`entries, this`usedSize, lru
      ensures Valid() && Contents() == Evicted(old(Contents()), needed, maxSize)
    {
      hide Accounted, Inverse;
      EvictionMakesRoom(Contents(), needed, maxSize);
      while usedSize + needed > maxSize && |entries| > 0
        invariant lru.Valid() && Accounted(Contents())
        invariant Evicted(Contents(), needed, maxSize) == Evicted(old(Contents()), needed, maxSize)
        decreases |lru.list|
      {
        if |lru.list| == 0 {
          break;
        }
        var key := lru.list[|lru.list| - 1];
        assert NoDuplicates(lru.list) by { AccountedList(Contents()); }
        DropLast(Contents());
        DroppedIsAccounted(Contents(), key);
        Drop(key);
      }
    }

    /** What evictLocked, Invalidate, Sweep and Store do to one key. */
    method Drop(key: Key)
      requires lru.Valid()
      modifies this`entries, this`usedSize, lru
      ensures lru.Valid() && Contents() == Dropped(old(Contents()), key)
    {
      if key in entries {
        usedSize := usedSize - entries[key].size;
      }
      entries := entries - {key};
      lru.Remove(key);
    }

    method Invalidate(key: Key)
      requires Valid()
      modifies this`entries, this`usedSize, lru
      ensures Valid() && Contents() == Dropped(old(Contents()), key)
    {
      DroppedIsAccounted(Contents(), key);
      hide Accounted;
      Drop(key);
    }

    method Push(key: Key, e: Entry)
      requires lru.Valid()
      modifies this`entries, this`usedSize, lru
      ensures lru.Valid()
      ensures Contents() == State(old(entries)[key := e], Pushed(old(lru.list), key, lru.capacity), old(usedSize) + e.size)
    {
      entries := entries[key := e];
      lru.Add(key);
      usedSize := usedSize + e.size;
    }

    /** The part of Store under the lock. */
    method Store(key: Key, e: Entry)
      requires Valid()
      modifies this`entries, this`usedSize, lru
      ensures Valid() && Contents() == Stored(old(Contents()), key, e, maxSize, lru.capacity)
    {
      hide Accounted, Evicted, Dropped, Pushed, NoOrphans;
      StoredIsAccounted(Contents(), key, e, maxSize, lru.capacity);
      DroppedIsAccounted(Contents(), key);
      if key in entries {
        Drop(key);
      }
      if usedSize + e.size > maxSize {
        EvictLocked(e.size);
      }
      Push(key, e);
    }

    /** The first locked region of a lookup, which only reads. */
    method Find(key: Key) returns (found: Option<Entry>)
      requires Valid()
      ensures found == if key in entries then Some(entries[key]) else None
    {
      if key in entries {
        return Some(entries[key]);
      }
      return None;
    }

    /**
     * The second region, with the entry that the first one read, in whatever state the calls in between have left: an
     * expired entry costs the key the entry it has by now, an entry that is served moves the key to the front if it
     * is still listed, and nothing else changes.
     */
    method Settle(key: Key, e: Entry, bypass: bool, now: int) returns (served: bool)
      requires Valid()
      modifies this`entries, this`usedSize, lru
      ensures Valid() && served == (!Expired(e, now) && !bypass)
      ensures served <==> !bypass && (e.ttl <= 0 || now <= e.timestamp + e.ttl)
      ensures Contents() == Settled(old(Contents()), key, e, bypass, now)
    {
      TouchedIsAccounted(Contents(), key);
      hide Accounted;
      if Expired(e, now) {
        Invalidate(key);
        return false;
      }
      if bypass {
        return false;
      }
      lru.Touch(key);
      return true;
    }

    /** What a request finds, if nothing comes in between: nothing that is expired, and nothing it must bypass. */
    method Lookup(key: Key, bypass: bool, now: int) returns (found: Option<Entry>)
      requires Valid()
      modifies this`entries, this`usedSize, lru
      ensures Valid()
      ensures found == if key in old(entries) && !Expired(old(entries)[key], now) && !bypass
        then Some(old(entries)[key]) else None
      ensures found.Some? ==> !bypass && (found.value.ttl <= 0 || now <= found.value.timestamp + found.value.ttl)
      ensures found.None? && key in old(entries) && !bypass ==>
        old(entries)[key].ttl > 0 && now > old(entries)[key].timestamp + old(entries)[key].ttl
      ensures key in old(entries) && Expired(old(entries)[key], now) ==> Contents() == Dropped(old(Contents()), key)
      ensures !(key in old(entries) && Expired(old(entries)[key], now)) ==>
        entries == old(entries) && usedSize == old(usedSize)
      ensures found.Some? ==> lru.list == if key in old(lru.list) then [key] + Without(old(lru.list), key) else old(lru.list)
      ensures found.None? && !(key in old(entries) && Expired(old(entries)[key], now)) ==> lru.list == old(lru.list)
    {
      hide Accounted, Dropped;
      var e := Find(key);
      if e.None? {
        return None;
      }
      var served := Settle(key, e.value, bypass, now);
      return if served then e else None;
    }

    /** Everything expired goes, and nothing else; what stays keeps its order. */
    method Sweep(now: int)
      requires Valid()
      modifies this`entries, this`usedSize, lru
      ensures Valid()
      ensures entries == map k | k in old(entries) && !Expired(old(entries)[k], now) :: old(entries)[k]
      ensures forall k :: k in entries ==> entries[k].ttl <= 0 || now <= entries[k].timestamp + entries[k].ttl
      ensures forall k :: k in old(entries) && k !in entries ==>
        old(entries)[k].ttl > 0 && now > old(entries)[k].timestamp + old(entries)[k].ttl
      ensures lru.list == Kept(old(lru.list), set k | k in old(entries) && Expired(old(entries)[k], now))
    {
      hide Accounted, Expired, Kept, Dropped;
      ghost var before := Contents();
      ghost var gone: set<Key> := {};
      NothingGone(before.list);
      var unseen := entries.Keys;
      while unseen != {}
        invariant Valid() && unseen <= entries.Keys
        invariant entries == before.entries - gone && lru.list == Kept(before.list, gone)
        invariant forall k :: k in gone <==> k in before.entries && k !in unseen && Expired(before.entries[k], now)
        decreases |unseen|
      {
        var key :| key in unseen;
        unseen := unseen - {key};
        if Expired(entries[key], now) {
          DroppedIsAccounted(Contents(), key);
          OneMoreGone(before, gone, key);
          DroppedKey(Contents(), key);
          Drop(key);
          gone := gone + {key};
        }
      }
      assert gone == set k | k in before.entries && Expired(before.entries[k], now);
      ExpiredOnFields(now);
    }
  }

  lemma DroppedKey(s: State, key: Key)
    ensures Dropped(s, key).entries == s.entries - {key} && Dropped(s, key).list == Without(s.list, key)
  {
  }

  /** The list without some keys, the others in the same order. */
  function Kept(list: seq<Key>, gone: set<Key>): seq<Key> {
    if list == [] then [] else Kept(list[..|list| - 1], gone) + if list[|list| - 1] in gone then [] else [list[|list| - 1]]
  }

  lemma {:induction false} NothingGone(list: seq<Key>)
    ensures Kept(list, {}) == list
  {
    if list != [] {
      NothingGone(list[..|list| - 1]);
    }
  }

  lemma {:induction false} KeptMembers(list: seq<Key>, gone: set<Key>)
    ensures forall k :: k in Kept(list, gone) <==> k in list && k !in gone
  {
    if list != [] {
      KeptMembers(list[..|list| - 1], gone);
      assert forall k :: k in list <==> k in list[..|list| - 1] || k == list[|list| - 1];
    }
  }

  lemma {:induction false} KeptWithout(list: seq<Key>, gone: set<Key>, key: Key)
    requires NoDuplicates(list)
    ensures Without(Kept(list, gone), key) == Kept(list, gone + {key})
  {
    if list != [] {
      var init, last := list[..|list| - 1], list[|list| - 1];
      KeptWithout(init, gone, key);
      KeptMembers(init, gone);
      KeptMembers(init, gone + {key});
      if last !in gone {
        WithoutLast(Kept(init, gone), last, key);
      } else {
        assert Kept(init, gone) + [] == Kept(init, gone);
      }
    }
  }

  lemma {:induction false} WithoutLast(list: seq<Key>, last: Key, key: Key)
    requires last !in list
    ensures Without(list + [last], key) == Without(list, key) + if last == key then [] else [last]
  {
    if list == [] {
      assert list + [last] == [last];
    } else {
      assert (list + [last])[1..] == list[1..] + [last];
      if list[0] != key {
        WithoutLast(list[1..], last, key);
      }
    }
  }

  lemma OneMoreGone(s: State, gone: set<Key>, key: Key)
    requires Accounted(s)
    ensures Without(Kept(s.list, gone), key) == Kept(s.list, gone + {key})
  {
    KeptWithout(s.list, gone, key);
  }

  /** What the second region of a lookup makes of the state. */
  function Settled(s: State, key: Key, e: Entry, bypass: bool, now: int): State {
    if Expired(e, now) then Dropped(s, key)
    else if bypass || key !in s.list then s
    else s.(list := [key] + Without(s.list, key))
  }

  /** A lookup with others in between can throw out a fresh entry, and it can serve one that is gone; but the books
    * stay balanced, and no entry but the key's own is lost. */
  lemma SettledIsAccounted(s: State, key: Key, e: Entry, bypass: bool, now: int)
    requires Accounted(s)
    ensures Accounted(Settled(s, key, e, bypass, now))
    ensures forall k :: k in s.entries && k != key ==>
      k in Settled(s, key, e, bypass, now).entries && Settled(s, key, e, bypass, now).entries[k] == s.entries[k]
    ensures key in s.entries && key !in Settled(s, key, e, bypass, now).entries <==> key in s.entries && Expired(e, now)
  {
    TouchedIsAccounted(s, key);
    DroppedIsAccounted(s, key);
    hide Accounted;
  }

  lemma TouchedIsAccounted(s: State, key: Key)
    requires Accounted(s)
    ensures key in s.list ==> Accounted(s.(list := [key] + Without(s.list, key)))
  {
    WithoutMembers(s.list, key);
  }

  /** A lookup reads an expired entry, a new one is stored, and the lookup then throws out the new one. */
  method NewEntryIsLost(key: Key, stale: Entry, late: Entry, now: int) returns (c: ProxyCache, ghost before: Entries)
    requires Expired(stale, now) && !Expired(late, now)
    ensures key in before && before[key] == late && c.Valid() && c.entries == before - {key}
  {
    hide Accounted, Cleared;
    c := new ProxyCache(1);
    c.Store(key, stale);
    var found := c.Find(key);
    c.Store(key, late);
    before := c.entries;
    var _ := c.Settle(key, found.value, false, now);
  }
}
