/** Bytes, and big-endian numbers of a fixed width. */
module Bytes {
  type byte = bv8

  function Pow256(k: nat): (p: nat)
    ensures p > 0
  {
    if k == 0 then 1 else 256 * Pow256(k - 1)
  }

  /** The low k bytes of n, most significant first. */
  function Encode(n: nat, k: nat): (s: seq<byte>)
    ensures |s| == k
  {
    if k == 0 then [] else Encode(n / 256, k - 1) + [(n % 256) as byte]
  }

  function Decode(s: seq<byte>): nat {
    if s == [] then 0 else Decode(s[..|s| - 1]) * 256 + s[|s| - 1] as nat
  }

  lemma NextByte(b: byte)
    requires b < 255
    ensures (b + 1) as nat == b as nat + 1
  {
  }

  /** Every number below 256 is the value of a byte. */
  lemma {:induction false} ByteWith(n: nat) returns (b: byte)
    requires n < 256
    ensures b as nat == n
  {
    if n == 0 {
      b := 0;
    } else {
      var less := ByteWith(n - 1);
      NextByte(less);
      b := less + 1;
    }
  }

  lemma ByteRoundTrip(n: nat)
    requires n < 256
    ensures (n as byte) as nat == n
  {
    var b := ByteWith(n);
    assert b as nat as byte == b;
  }

  lemma {:induction false} DecodeEncode(n: nat, k: nat)
    requires n < Pow256(k)
    ensures Decode(Encode(n, k)) == n
  {
    if k > 0 {
      DecodeEncode(n / 256, k - 1);
      ByteRoundTrip(n % 256);
      assert Encode(n, k)[..k - 1] == Encode(n / 256, k - 1);
    }
  }

  lemma {:induction false} DecodeBound(s: seq<byte>)
    ensures Decode(s) < Pow256(|s|)
  {
    if s != [] {
      DecodeBound(s[..|s| - 1]);
    }
  }

  lemma {:induction false} EncodeDecode(s: seq<byte>)
    ensures Encode(Decode(s), |s|) == s
  {
    if s != [] {
      var l, b := s[..|s| - 1], s[|s| - 1];
      EncodeDecode(l);
      assert Decode(s) / 256 == Decode(l) && Decode(s) % 256 == b as nat;
      assert s == l + [b];
    }
  }

  // ------------------------------------------------------------------------- the order of the bytes

  /** Byte i of an encoding is the digit of n to base 256 that has k - 1 - i digits below it. */
  lemma {:induction false} EncodeAt(n: nat, k: nat, i: nat)
    requires i < k
    ensures Encode(n, k)[i] as nat == n / Pow256(k - 1 - i) % 256
  {
    if i == k - 1 {
      ByteRoundTrip(n % 256);
    } else {
      EncodeAt(n / 256, k - 1, i);
      DivideTwice(n, 256, Pow256(k - 2 - i));
    }
  }

  lemma DivideTwice(n: nat, a: nat, b: nat)
    requires a > 0 && b > 0
    ensures a * b > 0 && n / a / b == n / (a * b)
  {
    var m := n / a;
    QuotientOfQuotient(n, a, b, m, m / b, m % b, n % a);
  }

  lemma QuotientOfQuotient(n: nat, a: nat, b: nat, m: nat, q: nat, r: nat, t: nat)
    requires n == m * a + t && t < a && m == q * b + r && r < b
    ensures a * b > 0 && n / (a * b) == q
  {
    Regroup(a, b, q, r, t);
    DivisionIs(a * b, n, q, r * a + t);
  }

  lemma Regroup(a: nat, b: nat, q: nat, r: nat, t: nat)
    requires r < b && t < a
    ensures r * a + t < a * b && a * b > 0
    ensures (q * b + r) * a + t == q * (a * b) + (r * a + t)
  {
    ProductGrows(a, r + 1, b);
    assert (q * b + r) * a == q * b * a + r * a;
    assert q * b * a == q * (a * b);
  }

  /** Quotient and remainder are the only ones. */
  lemma DivisionIs(size: nat, x: nat, quotient: nat, rest: nat)
    requires rest < size && x == quotient * size + rest
    ensures x / size == quotient && x % size == rest
  {
    var q := x / size;
    assert x == q * size + x % size;
    if q < quotient {
      ProductGrows(size, q + 1, quotient);
    } else if q > quotient {
      ProductGrows(size, quotient + 1, q);
    }
  }

  lemma ProductGrows(size: nat, a: nat, b: nat)
    requires a <= b
    ensures a * size <= b * size && a * size == (a - 1) * size + size
  {
  }

  /** The first byte counts most. */
  lemma {:induction false} DecodeFirst(b: byte, s: seq<byte>)
    ensures Decode([b] + s) == b as nat * Pow256(|s|) + Decode(s)
  {
    if s == [] {
      assert [b] + s == [b] && [b][..0] == [];
    } else {
      var init := s[..|s| - 1];
      DecodeFirst(b, init);
      assert ([b] + s)[..|s|] == [b] + init;
      Shifted(b as nat, Pow256(|init|), Decode(init));
    }
  }

  lemma Shifted(b: nat, p: nat, d: nat)
    ensures (b * p + d) * 256 == b * (256 * p) + d * 256
  {
  }

  lemma DecodeTwo(s: seq<byte>)
    requires |s| == 2
    ensures Decode(s) == 256 * s[0] as nat + s[1] as nat
  {
    var first := s[..1];
    assert first[..0] == [] && Decode(first) == s[0] as nat;
    assert s[..|s| - 1] == first;
  }

  /** A number of 2 k bytes from its upper and its lower half. */
  lemma {:induction false} DecodeConcat(s: seq<byte>, t: seq<byte>)
    ensures Decode(s + t) == Decode(s) * Pow256(|t|) + Decode(t)
    decreases |t|
  {
    if t == [] {
      assert s + t == s;
    } else {
      var init := t[..|t| - 1];
      DecodeConcat(s, init);
      assert (s + t)[..|s + t| - 1] == s + init;
      Shifted(Decode(s), Pow256(|init|), Decode(init));
    }
  }

  lemma DecodeFour(s: seq<byte>)
    requires |s| == 4
    ensures Decode(s) == 0x100_0000 * s[0] as nat + 0x1_0000 * s[1] as nat + 0x100 * s[2] as nat + s[3] as nat
  {
    var l, r := s[..2], s[2..];
    DecodeTwo(l);
    DecodeTwo(r);
    DecodeConcat(l, r);
    assert s == l + r && Pow256(2) == 0x1_0000;
    hide Decode, Pow256;
    assert Decode(s) == Decode(l) * 0x1_0000 + Decode(r);
  }

  lemma DecodeEight(s: seq<byte>)
    requires |s| == 8
    ensures Decode(s) ==
      0x100_0000_0000_0000 * s[0] as nat + 0x1_0000_0000_0000 * s[1] as nat
      + 0x100_0000_0000 * s[2] as nat + 0x1_0000_0000 * s[3] as nat
      + 0x100_0000 * s[4] as nat + 0x1_0000 * s[5] as nat + 0x100 * s[6] as nat + s[7] as nat
  {
    var l, r := s[..4], s[4..];
    assert Pow256(4) == 0x1_0000_0000 by { assert Pow256(2) == 0x1_0000; }
    assert s == l + r;
    hide Decode, Pow256;
    DecodeFour(l);
    DecodeFour(r);
    DecodeConcat(l, r);
    assert Decode(s) == Decode(l) * 0x1_0000_0000 + Decode(r);
  }

  lemma Powers()
    ensures Pow256(0) == 1 && Pow256(1) == 0x100 && Pow256(2) == 0x1_0000 && Pow256(3) == 0x100_0000
    ensures Pow256(4) == 0x1_0000_0000 && Pow256(5) == 0x100_0000_0000
    ensures Pow256(6) == 0x1_0000_0000_0000 && Pow256(7) == 0x100_0000_0000_0000
  {
    assert Pow256(2) == 0x1_0000;
    assert Pow256(4) == 0x1_0000_0000;
    assert Pow256(6) == 0x1_0000_0000_0000;
  }
}
