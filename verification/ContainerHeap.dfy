/** The standard library's container/heap over a slice of item pointers, where each item also
    stores its position. Only positions are written; the slice itself is passed and returned. */
module ContainerHeap {
  class Slot<T> {
    var value: T
    var index: int

    constructor (value: T)
      ensures this.value == value
    {
      this.value := value;
      index := 0;
    }
  }

  type Order<!T(!new)> = (T, T) -> bool

  ghost predicate StrictWeak<T(!new)>(less: Order<T>) {
    && (forall a, b :: less(a, b) ==> !less(b, a))
    && (forall a, b, c :: less(a, b) && less(b, c) ==> less(a, c))
    && (forall a, b, c :: !less(a, b) && !less(b, c) ==> !less(a, c))
  }

  // ----------------------------------------------------------------- order on the value level

  function Parent(i: int): int {
    (i - 1) / 2
  }

  ghost predicate InOrder<T(!new)>(v: seq<T>, less: Order<T>, i: int) {
    0 < i < |v| ==> !less(v[i], v[Parent(i)])
  }

  /** The first n values form a heap. */
  ghost predicate Heap<T(!new)>(v: seq<T>, less: Order<T>, n: int) {
    forall i :: 0 < i < n ==> InOrder(v, less, i)
  }

  /** The children of i are in order with the parent of i. */
  ghost predicate Bridged<T(!new)>(v: seq<T>, less: Order<T>, i: int, n: int) {
    forall k :: 0 < k < n <= |v| && Parent(k) == i && 0 < i < |v| ==> !less(v[k], v[Parent(i)])
  }

  /** A heap of n but for the value at j, which may be too small for its parent. */
  ghost predicate UpReady<T(!new)>(v: seq<T>, less: Order<T>, j: int, n: int) {
    && (forall i :: 0 < i < n && i != j ==> InOrder(v, less, i))
    && Bridged(v, less, j, n)
  }

  /** A heap of n but for the value at i, which may be too large for its children, and, until
      it has been moved once, too small for its parent. */
  ghost predicate DownReady<T(!new)>(v: seq<T>, less: Order<T>, i: int, n: int, moved: bool) {
    && (forall k :: 0 < k < n && Parent(k) != i && (k != i || moved) ==> InOrder(v, less, k))
    && Bridged(v, less, i, n)
  }

  function Swapped<T>(v: seq<T>, i: nat, j: nat): (r: seq<T>)
    requires i < |v| && j < |v|
    ensures |r| == |v|
  {
    v[i := v[j]][j := v[i]]
  }

  lemma UpStep<T(!new)>(v: seq<T>, less: Order<T>, j: nat, n: nat)
    requires StrictWeak(less) && n <= |v| && 0 < j < n
    requires UpReady(v, less, j, n) && less(v[j], v[Parent(j)])
    ensures UpReady(Swapped(v, Parent(j), j), less, Parent(j), n)
  {
    var p := Parent(j);
    var w := Swapped(v, p, j);
    forall i | 0 < i < n && i != p ensures InOrder(w, less, i) {
      assert InOrder(v, less, i) || i == j;
    }
    forall k | 0 < k < n && Parent(k) == p && 0 < p ensures !less(w[k], w[Parent(p)]) {
      assert InOrder(v, less, p);
      assert k == j || InOrder(v, less, k);
    }
  }

  lemma DownStep<T(!new)>(v: seq<T>, less: Order<T>, i: nat, c: nat, n: nat, moved: bool)
    requires StrictWeak(less) && n <= |v| && i < c < n && Parent(c) == i
    requires DownReady(v, less, i, n, moved) && less(v[c], v[i])
    requires forall k :: 0 < k < n && Parent(k) == i ==> !less(v[k], v[c])
    ensures DownReady(Swapped(v, i, c), less, c, n, true)
  {
    var w := Swapped(v, i, c);
    forall k | 0 < k < n && Parent(k) != c ensures InOrder(w, less, k) {
      assert Parent(k) == i || k == i || InOrder(v, less, k);
    }
    forall k | 0 < k < n && Parent(k) == c ensures !less(w[k], w[Parent(c)]) {
      assert InOrder(v, less, k);
    }
  }

  lemma {:induction false} RootIsLeast<T(!new)>(v: seq<T>, less: Order<T>, n: nat, k: nat)
    requires StrictWeak(less) && n <= |v| && k < n && Heap(v, less, n)
    ensures !less(v[k], v[0])
  {
    if k > 0 {
      RootIsLeast(v, less, n, Parent(k));
      assert InOrder(v, less, k);
    }
  }

  // ---------------------------------------------------------------------- slices of item slots

  ghost function Values<T(!new)>(q: seq<Slot<T>>): (v: seq<T>)
    reads q`value
    ensures |v| == |q| && forall i :: 0 <= i < |q| ==> v[i] == q[i].value
  {
    if q == [] then [] else [q[0].value] + Values(q[1..])
  }

  /** Every item stores its own position; in particular no item is in the slice twice. */
  ghost predicate Indexed<T(!new)>(q: seq<Slot<T>>)
    reads q`index
  {
    forall i :: 0 <= i < |q| ==> q[i].index == i
  }

  /** r holds exactly the items of q, each storing its position. */
  ghost predicate Rearranged<T(!new)>(q: seq<Slot<T>>, r: seq<Slot<T>>)
    reads r`index
  {
    |r| == |q| && multiset(r) == multiset(q) && Indexed(r) && forall i :: 0 <= i < |r| ==> r[i] in q
  }

  lemma SwappedItems<T(!new)>(q: seq<Slot<T>>, i: nat, j: nat)
    requires i < |q| && j < |q|
    ensures multiset(Swapped(q, i, j)) == multiset(q)
    ensures Values(Swapped(q, i, j)) == Swapped(Values(q), i, j)
  {
    hide Values, Swapped;
    SwappedMembers(q, i, j);
    SwappedValues(q, i, j);
  }

  lemma SwappedValues<T(!new)>(q: seq<Slot<T>>, i: nat, j: nat)
    requires i < |q| && j < |q|
    ensures Values(Swapped(q, i, j)) == Swapped(Values(q), i, j)
  {
    hide Values;
    var r, v := Swapped(q, i, j), Values(q);
    assert forall k :: 0 <= k < |q| ==> Values(r)[k] == Swapped(v, i, j)[k];
  }

  lemma SwappedMembers<T>(q: seq<T>, i: nat, j: nat)
    requires i < |q| && j < |q|
    ensures multiset(Swapped(q, i, j)) == multiset(q)
  {
    var r := q[i := q[j]];
    assert multiset(r) == multiset(q) - multiset{q[i]} + multiset{q[j]};
    assert multiset(r[j := q[i]]) == multiset(r) - multiset{r[j]} + multiset{q[i]};
  }

  method Swap<T(!new)>(q: seq<Slot<T>>, i: nat, j: nat) returns (r: seq<Slot<T>>)
    requires i < |q| && j < |q| && Indexed(q)
    modifies {q[i], q[j]}`index
    ensures r == Swapped(q, i, j) && Indexed(r)
  {
    r := q[i := q[j]][j := q[i]];
    r[i].index := i;
    r[j].index := j;
  }

  /** Swap two items of a rearrangement r of q, both below position n. */
  method SwapWithin<T(!new)>(ghost q: seq<Slot<T>>, r: seq<Slot<T>>, i: nat, j: nat,
          ghost n: nat) returns (r': seq<Slot<T>>)
    requires Rearranged(q, r) && i < n <= |r| && j < n && r[n..] == q[n..]
    modifies {r[i], r[j]}`index
    ensures Rearranged(q, r') && r'[n..] == q[n..]
    ensures Values(r') == Swapped(Values(r), i, j)
  {
    hide Values, Swapped;
    SwappedItems(r, i, j);
    SwappedWithin(q, r, i, j, n);
    r' := Swap(r, i, j);
  }

  lemma SwappedWithin<T>(q: seq<T>, r: seq<T>, i: nat, j: nat, n: nat)
    requires |r| == |q| && i < n <= |r| && j < n && r[n..] == q[n..]
    requires forall k :: 0 <= k < |r| ==> r[k] in q
    ensures Swapped(r, i, j)[n..] == q[n..]
    ensures forall k :: 0 <= k < |r| ==> Swapped(r, i, j)[k] in q
  {
  }

  lemma InTheSlice<T(!new)>(q: seq<Slot<T>>, r: seq<Slot<T>>, i: nat)
    requires Rearranged(q, r) && i < |r|
    ensures r[i] in q && |r| == |q| && multiset(r) == multiset(q) && r[i].index == i
  {
  }

  /** Sift up within the first n items. */
  method Up<T(!new)>(q: seq<Slot<T>>, less: Order<T>, at: nat, ghost n: nat) returns (r: seq<Slot<T>>)
    requires StrictWeak(less) && at < n <= |q| && Indexed(q) && UpReady(Values(q), less, at, n)
    modifies (set s | s in q)`index
    ensures Rearranged(q, r) && n <= |r| && r[n..] == q[n..]
    ensures Heap(Values(r), less, n)
  {
    r := q;
    var j: nat := at;
    hide StrictWeak, UpReady, Bridged, Swapped, Values, Indexed, InOrder, Heap;
    assert Rearranged(q, q);
    hide Rearranged;
    while j > 0
      invariant j < n <= |r| && Rearranged(q, r) && r[n..] == q[n..]
      invariant UpReady(Values(r), less, j, n)
    {
      var i := Parent(j);
      InTheSlice(q, r, i);
      InTheSlice(q, r, j);
      if !less(r[j].value, r[i].value) {
        UpDone(Values(r), less, j, n);
        return;
      }
      UpStep(Values(r), less, j, n);
      r := SwapWithin(q, r, i, j, n);
      j := i;
    }
    UpDone(Values(r), less, 0, n);
  }

  lemma UpDone<T(!new)>(v: seq<T>, less: Order<T>, j: nat, n: nat)
    requires j < n <= |v| && UpReady(v, less, j, n) && (j > 0 ==> !less(v[j], v[Parent(j)]))
    ensures Heap(v, less, n)
  {
  }

  /** The child that down compares with: the left one unless the right one is smaller. */
  lemma SmallestChild<T(!new)>(v: seq<T>, less: Order<T>, i: nat, j: nat, n: nat)
    requires StrictWeak(less) && n <= |v| && 2 * i + 1 < n
    requires j == if 2 * i + 2 < n && less(v[2 * i + 2], v[2 * i + 1]) then 2 * i + 2 else 2 * i + 1
    ensures Parent(j) == i && i < j < n
    ensures forall k :: 0 < k < n && Parent(k) == i ==> !less(v[k], v[j])
    ensures !less(v[j], v[i]) ==> forall k :: 0 < k < n && Parent(k) == i ==> InOrder(v, less, k)
  {
    forall k | 0 < k < n && Parent(k) == i ensures k == 2 * i + 1 || k == 2 * i + 2 {}
  }

  lemma NoChild<T(!new)>(v: seq<T>, less: Order<T>, i: nat, n: nat)
    requires n <= |v| && 2 * i + 1 >= n
    ensures forall k :: 0 < k < n && Parent(k) == i ==> InOrder(v, less, k)
  {
  }

  method LesserChild<T(!new)>(r: seq<Slot<T>>, less: Order<T>, i: nat, n: nat) returns (j: nat)
    requires StrictWeak(less) && n <= |r| && 2 * i + 1 < n
    ensures Parent(j) == i && i < j < n
    ensures forall k :: 0 < k < n && Parent(k) == i ==> !less(Values(r)[k], Values(r)[j])
    ensures !less(Values(r)[j], Values(r)[i]) ==> forall k :: 0 < k < n && Parent(k) == i ==> InOrder(Values(r), less, k)
  {
    var j1 := 2 * i + 1;
    j := j1;
    if j1 + 1 < n && less(r[j1 + 1].value, r[j1].value) {
      j := j1 + 1;
    }
    SmallestChild(Values(r), less, i, j, n);
  }

  /** One round of down: swap with the lesser child, if that child sorts first. */
  method DownRound<T(!new)>(ghost q: seq<Slot<T>>, r: seq<Slot<T>>, less: Order<T>, i: nat, n: nat, ghost moved: bool)
      returns (r': seq<Slot<T>>, j: nat, swapped: bool)
    requires StrictWeak(less) && Rearranged(q, r) && i < n <= |r| && r[n..] == q[n..]
    requires DownReady(Values(r), less, i, n, moved)
    modifies (set s | s in r)`index
    ensures Rearranged(q, r') && n <= |r'| && r'[n..] == q[n..]
    ensures swapped ==> i < j < n && DownReady(Values(r'), less, j, n, true)
    ensures !swapped ==> r' == r && Settled(Values(r), less, i, n)
  {
    hide StrictWeak, DownReady, Bridged, Swapped, Rearranged, InOrder, Values, Indexed;
    r', j, swapped := r, 2 * i + 1, false;
    if j >= n {
      NoChild(Values(r), less, i, n);
      return;
    }
    j := LesserChild(r, less, i, n);
    if !less(r[j].value, r[i].value) {
      return;
    }
    DownStep(Values(r), less, i, j, n, moved);
    r' := SwapWithin(q, r, i, j, n);
    swapped := true;
  }

  /** The children of i are in order. */
  ghost predicate Settled<T(!new)>(v: seq<T>, less: Order<T>, i: int, n: int) {
    forall k :: 0 < k < n && Parent(k) == i ==> InOrder(v, less, k)
  }

  /** Sift down within the first n items; returns whether the item at position `at` moved. */
  method Down<T(!new)>(q: seq<Slot<T>>, less: Order<T>, at: nat, n: nat) returns (r: seq<Slot<T>>, moved: bool)
    requires StrictWeak(less) && at < n <= |q| && Indexed(q) && DownReady(Values(q), less, at, n, false)
    modifies (set s | s in q)`index
    ensures Rearranged(q, r) && n <= |r| && r[n..] == q[n..]
    ensures moved ==> Heap(Values(r), less, n)
    ensures !moved ==> r == q && UpReady(Values(r), less, at, n)
  {
    hide StrictWeak, DownReady, UpReady, Values, Indexed, Heap, Settled, Rearranged;
    r, moved := q, false;
    var i: nat := at;
    SameOrder(q);
    var swapped := true;
    while swapped
      invariant i < n <= |r| && Rearranged(q, r) && r[n..] == q[n..]
      invariant DownReady(Values(r), less, i, n, moved) && (swapped || Settled(Values(r), less, i, n))
      invariant moved == (i > at) && (!moved ==> r == q && i == at)
      decreases n - i, swapped
    {
      var j;
      StaysWithin(q, r);
      r, j, swapped := DownRound(q, r, less, i, n, moved);
      if swapped {
        i, moved := j, true;
      }
    }
    DownDone(Values(r), less, i, n, moved);
  }

  lemma SameOrder<T(!new)>(q: seq<Slot<T>>)
    requires Indexed(q)
    ensures Rearranged(q, q)
  {
  }

  lemma StaysWithin<T(!new)>(q: seq<Slot<T>>, r: seq<Slot<T>>)
    requires Rearranged(q, r)
    ensures |r| == |q| && forall s :: s in r ==> s in q
  {
  }

  lemma DownDone<T(!new)>(v: seq<T>, less: Order<T>, i: nat, n: nat, moved: bool)
    requires i < n <= |v| && DownReady(v, less, i, n, moved)
    requires Settled(v, less, i, n)
    ensures moved ==> Heap(v, less, n)
    ensures UpReady(v, less, i, n)
  {
  }

  /** A heap of items: each stores its position, and no item sorts before its parent. */
  ghost predicate IsHeap<T(!new)>(q: seq<Slot<T>>, less: Order<T>)
    reads q
  {
    Indexed(q) && Heap(Values(q), less, |q|)
  }

  lemma PushReady<T(!new)>(v: seq<T>, less: Order<T>, x: T)
    requires Heap(v, less, |v|)
    ensures UpReady(v + [x], less, |v|, |v| + 1)
  {
    forall i | 0 < i < |v| ensures InOrder(v + [x], less, i) {
      assert InOrder(v, less, i);
    }
  }

  lemma AfterPush<T(!new)>(q: seq<Slot<T>>, r: seq<Slot<T>>, x: Slot<T>)
    requires multiset(r) == multiset(q) + multiset{x}
    ensures forall s :: s in r <==> s in q || s == x
  {
    assert forall s :: s in r <==> s in multiset(r);
    assert forall s :: s in q <==> s in multiset(q);
  }

  lemma AfterRemove<T(!new)>(q: seq<Slot<T>>, r: seq<Slot<T>>, x: Slot<T>)
    requires multiset(r) + multiset{x} == multiset(q) && Distinct(q)
    ensures x in q && forall s :: s in r <==> s in q && s != x
  {
    DistinctCounts(q, x);
    assert multiset(q)[x] == multiset(r)[x] + 1;
    assert forall s :: s in r <==> s in multiset(r);
    assert forall s :: s in q <==> s in multiset(q);
  }

  ghost predicate Distinct<T(!new)>(q: seq<Slot<T>>) {
    forall i, j :: 0 <= i < j < |q| ==> q[i] != q[j]
  }

  lemma {:induction false} DistinctCounts<T(!new)>(q: seq<Slot<T>>, x: Slot<T>)
    requires Distinct(q)
    ensures multiset(q)[x] <= 1
  {
    if q != [] {
      DistinctCounts(q[1..], x);
      assert q == [q[0]] + q[1..];
      if q[0] == x { assert x !in q[1..]; }
    }
  }

  lemma IndexedIsDistinct<T(!new)>(q: seq<Slot<T>>)
    requires Indexed(q)
    ensures Distinct(q)
  {
  }

  /** heap.Push */
  method Push<T(!new)>(q: seq<Slot<T>>, less: Order<T>, x: Slot<T>) returns (r: seq<Slot<T>>)
    requires StrictWeak(less) && IsHeap(q, less) && x !in q
    modifies (set s | s in q)`index, x`index
    ensures IsHeap(r, less) && multiset(r) == multiset(q) + multiset{x}
    ensures forall s :: s in r <==> s in q || s == x
  {
    x.index := |q|;
    assert Values(q + [x]) == Values(q) + [x.value];
    PushReady(Values(q), less, x.value);
    hide Heap, UpReady;
    r := Up(q + [x], less, |q|, |q| + 1);
    AfterPush(q, r, x);
  }

  lemma RemoveReady<T(!new)>(v: seq<T>, less: Order<T>, i: nat, n: nat)
    requires StrictWeak(less) && |v| == n + 1 && i < n && Heap(v, less, n + 1)
    ensures DownReady(Swapped(v, i, n), less, i, n, false)
  {
    var w := Swapped(v, i, n);
    forall k | 0 < k < n && Parent(k) != i && k != i ensures InOrder(w, less, k) {
      assert InOrder(v, less, k);
    }
    forall k | 0 < k < n && Parent(k) == i && 0 < i ensures !less(w[k], w[Parent(i)]) {
      assert InOrder(v, less, k) && InOrder(v, less, i);
    }
  }

  lemma HeapPrefix<T(!new)>(v: seq<T>, less: Order<T>, n: nat)
    requires n <= |v| && Heap(v, less, n)
    ensures Heap(v[..n], less, n)
  {
    forall k | 0 < k < n ensures InOrder(v[..n], less, k) {
      assert InOrder(v, less, k);
    }
  }

  /** Cut off the last item of a rearrangement of q whose other items form a heap. */
  method CutLast<T(!new)>(ghost q: seq<Slot<T>>, r: seq<Slot<T>>, less: Order<T>) returns (x: Slot<T>, s: seq<Slot<T>>)
    requires Rearranged(q, r) && |r| > 0 && Heap(Values(r), less, |r| - 1) && Distinct(q)
    modifies {r[|r| - 1]}`index
    ensures x == r[|r| - 1] && x.index == -1
    ensures IsHeap(s, less) && multiset(s) + multiset{x} == multiset(q)
    ensures forall y :: y in s <==> y in q && y != x
  {
    hide Heap, Rearranged, Values, Distinct;
    x, s := r[|r| - 1], r[..|r| - 1];
    WithoutLast(q, r, less);
    StillIndexed(q, r);
    x.index := -1;
  }

  lemma WithoutLast<T(!new)>(q: seq<Slot<T>>, r: seq<Slot<T>>, less: Order<T>)
    requires Rearranged(q, r) && |r| > 0 && Heap(Values(r), less, |r| - 1) && Distinct(q)
    ensures var x, s := r[|r| - 1], r[..|r| - 1];
      && Heap(Values(s), less, |s|) && multiset(s) + multiset{x} == multiset(q)
      && forall y :: y in s <==> y in q && y != x
  {
    var n := |r| - 1;
    HeapPrefix(Values(r), less, n);
    assert Values(r)[..n] == Values(r[..n]);
    hide Heap, Values;
    assert r == r[..n] + [r[n]];
    AfterRemove(q, r[..n], r[n]);
  }

  lemma StillIndexed<T(!new)>(q: seq<Slot<T>>, r: seq<Slot<T>>)
    requires Rearranged(q, r) && |r| > 0
    ensures Indexed(r[..|r| - 1]) && r[|r| - 1] !in r[..|r| - 1]
  {
  }

  /** heap.Remove: take out the item at position i, whatever its place in the order. */
  method Remove<T(!new)>(q: seq<Slot<T>>, less: Order<T>, i: nat) returns (x: Slot<T>, r: seq<Slot<T>>)
    requires StrictWeak(less) && IsHeap(q, less) && i < |q|
    modifies (set s | s in q)`index
    ensures x == q[i] && x.index == -1
    ensures IsHeap(r, less) && multiset(r) + multiset{x} == multiset(q)
    ensures forall s :: s in r <==> s in q && s != x
  {
    IndexedIsDistinct(q);
    r := MoveToEnd(q, less, i);
    hide IsHeap, Heap, Values, StrictWeak, Distinct, Indexed;
    x, r := CutLast(q, r, less);
  }

  lemma SameItems<T(!new)>(q: seq<Slot<T>>, r: seq<Slot<T>>)
    requires multiset(r) == multiset(q)
    ensures (set s | s in r) == (set s | s in q)
    ensures forall i :: 0 <= i < |r| ==> r[i] in q
  {
    assert forall s :: s in r <==> s in multiset(r);
    assert forall s :: s in q <==> s in multiset(q);
  }

  /** Down, and up if that moved nothing. */
  method Resift<T(!new)>(q: seq<Slot<T>>, less: Order<T>, i: nat, n: nat) returns (r: seq<Slot<T>>)
    requires StrictWeak(less) && Indexed(q) && i < n <= |q| && DownReady(Values(q), less, i, n, false)
    modifies (set s | s in q)`index
    ensures Rearranged(q, r) && n <= |r| && r[n..] == q[n..] && Heap(Values(r), less, n)
  {
    hide StrictWeak, DownReady, UpReady, Values, Heap;
    var moved;
    r, moved := Down(q, less, i, n);
    if !moved {
      r := Up(r, less, i, n);
    }
  }

  lemma OneLess<T(!new)>(v: seq<T>, less: Order<T>, n: nat)
    requires Heap(v, less, n + 1)
    ensures Heap(v, less, n)
  {
  }

  /** Bring the item at position i to the end and make the others a heap. */
  method MoveToEnd<T(!new)>(q: seq<Slot<T>>, less: Order<T>, i: nat) returns (r: seq<Slot<T>>)
    requires StrictWeak(less) && IsHeap(q, less) && i < |q|
    modifies (set s | s in q)`index
    ensures Rearranged(q, r) && r[|q| - 1] == q[i] && Heap(Values(r), less, |q| - 1)
  {
    hide StrictWeak, Heap, DownReady, UpReady, Values;
    var n := |q| - 1;
    r := q;
    OneLess(Values(q), less, n);
    if n != i {
      RemoveReady(Values(q), less, i, n);
      SwappedItems(q, i, n);
      r := Swap(q, i, n);
      ghost var swapped := r;
      SameItems(q, swapped);
      r := Resift(r, less, i, n);
      SameItems(q, r);
      assert r[n] == r[n..][0] == swapped[n];
    }
  }

  /** heap.Pop: take out the root, which no item sorts before. */
  method Pop<T(!new)>(q: seq<Slot<T>>, less: Order<T>) returns (x: Slot<T>, r: seq<Slot<T>>)
    requires StrictWeak(less) && IsHeap(q, less) && |q| > 0
    modifies (set s | s in q)`index
    ensures x in q && x.index == -1 && forall s :: s in q ==> !less(s.value, x.value)
    ensures IsHeap(r, less) && multiset(r) + multiset{x} == multiset(q)
    ensures forall s :: s in r <==> s in q && s != x
  {
    forall k | 0 <= k < |q| ensures !less(Values(q)[k], Values(q)[0]) {
      RootIsLeast(Values(q), less, |q|, k);
    }
    x, r := Remove(q, less, 0);
  }

  lemma ValuesConcat<T(!new)>(q: seq<Slot<T>>, r: seq<Slot<T>>)
    ensures Values(q + r) == Values(q) + Values(r)
  {
    hide Values;
  }

  lemma FirstElsewhere<T>(q: seq<T>, r: seq<T>) returns (k: nat)
    requires multiset(r) == multiset(q) && q != []
    ensures k < |r| && r[k] == q[0] && multiset(r[..k] + r[k + 1..]) == multiset(q[1..])
  {
    assert q[0] in multiset(r);
    k :| 0 <= k < |r| && r[k] == q[0];
    assert q == [q[0]] + q[1..];
    assert r == r[..k] + [q[0]] + r[k + 1..];
    WithoutOne(multiset{q[0]}, multiset(q[1..]), multiset(r[..k] + r[k + 1..]));
  }

  lemma WithoutOne<T>(x: multiset<T>, b: multiset<T>, c: multiset<T>)
    requires x + b == x + c
    ensures b == c
  {
    assert c == x + c - x == x + b - x == b;
  }

  /** The same items hold the same values. */
  lemma {:induction false} SameValues<T(!new)>(q: seq<Slot<T>>, r: seq<Slot<T>>)
    requires multiset(r) == multiset(q)
    ensures multiset(Values(r)) == multiset(Values(q))
  {
    hide Values;
    if q != [] {
      var k := FirstElsewhere(q, r);
      var x, rest, a, b := q[0], q[1..], r[..k], r[k + 1..];
      assert q == [x] + rest && r == a + [x] + b;
      SameValues(rest, a + b);
      ValuesConcat(a, b);
      ValuesConcat(a, [x]);
      ValuesConcat(a + [x], b);
      ValuesConcat([x], rest);
      SameWithOne(Values(a), Values([x]), Values(b), Values(rest));
    } else {
      assert |r| == |multiset(r)| == 0;
      assert r == q;
    }
  }

  lemma SameWithOne<T>(a: seq<T>, x: seq<T>, b: seq<T>, rest: seq<T>)
    requires multiset(a + b) == multiset(rest)
    ensures multiset(a + x + b) == multiset(x + rest)
  {
    assert multiset(a + x + b) == multiset(a) + multiset(x) + multiset(b);
    assert multiset(a + b) == multiset(a) + multiset(b);
  }

  lemma SplitValues<T(!new)>(q: seq<Slot<T>>, r: seq<Slot<T>>, x: Slot<T>)
    requires multiset(r) + multiset{x} == multiset(q)
    ensures multiset(Values(r)) + multiset{x.value} == multiset(Values(q))
  {
    SameValues(q, r + [x]);
    ValuesConcat(r, [x]);
    assert Values([x]) == [x.value];
  }
}
