/** What several components share: options, lists without duplicates, and facts about concatenation. */
module Collections {
  datatype Option<T> = None | Some(value: T)

  ghost predicate NoDuplicates<T(!new)>(s: seq<T>) {
    forall i, j :: 0 <= i < j < |s| ==> s[i] != s[j]
  }

  function Members<T(!new)>(s: seq<T>): (m: set<T>)
    ensures forall x :: x in m <==> x in s
  {
    set x | x in s
  }

  lemma MembersConcat<T(!new)>(s: seq<T>, t: seq<T>)
    ensures Members(s + t) == Members(s) + Members(t)
  {
  }

  /** The list without the first occurrence of c. */
  function Without<T(==)>(s: seq<T>, c: T): (r: seq<T>) {
    if s == [] then [] else if s[0] == c then s[1..] else [s[0]] + Without(s[1..], c)
  }

  lemma {:induction false} WithoutMembers<T(!new)>(s: seq<T>, c: T)
    requires NoDuplicates(s)
    ensures NoDuplicates(Without(s, c))
    ensures forall x :: x in Without(s, c) <==> x in s && x != c
    ensures c !in s ==> Without(s, c) == s
  {
    if s != [] {
      WithoutMembers(s[1..], c);
      if s[0] == c {
        assert forall x :: x in s[1..] ==> x in s && x != c;
        assert forall x :: x in s && x != c ==> x in s[1..];
      } else {
        assert forall x :: x in s <==> x == s[0] || x in s[1..];
        assert s[0] !in s[1..];
      }
    }
  }

  lemma {:induction false} WithoutAt<T(!new)>(s: seq<T>, i: nat)
    requires i < |s| && NoDuplicates(s)
    ensures Without(s, s[i]) == s[..i] + s[i + 1..]
  {
    if i > 0 {
      assert s[1..][i - 1] == s[i];
      WithoutAt(s[1..], i - 1);
      assert s[..i] == [s[0]] + s[1..][..i - 1];
      assert s[1..][i..] == s[i + 1..];
    }
  }

  /** The parts one after another. */
  function Flatten<T>(parts: seq<seq<T>>): seq<T> {
    if parts == [] then [] else Flatten(parts[..|parts| - 1]) + parts[|parts| - 1]
  }

  /** The last n members, or all of them if there are no more. */
  function Last<T>(s: seq<T>, n: nat): (t: seq<T>)
    ensures |t| == if |s| > n then n else |s|
  {
    if |s| > n then s[|s| - n..] else s
  }

  function Min(a: nat, b: nat): nat {
    if a < b then a else b
  }

  lemma ConcatAssociates<T>(a: seq<T>, b: seq<T>, c: seq<T>)
    ensures (a + b) + c == a + (b + c)
  {
  }

  lemma SplitConcat<T>(a: seq<T>, b: seq<T>)
    ensures (a + b)[..|a|] == a && (a + b)[|a|..] == b
  {
  }

  lemma PrefixConcat<T>(a: seq<T>, b: seq<T>, c: seq<T>)
    requires b <= c
    ensures a + b <= a + c
  {
  }
}
