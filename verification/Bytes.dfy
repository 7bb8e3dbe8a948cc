/** Octet strings as numbers in the little-endian layout of the host:
    what copying the octets over an unsigned integer yields. */
module Bytes {
  import opened LexOrder

  type byte = n: nat | n < 256

  function Pow256(k: nat): (r: nat)
    ensures r >= 1
  {
    if k == 0 then 1 else 256 * Pow256(k - 1)
  }

  lemma PowersOf256()
    ensures Pow256(0) == 1 && Pow256(1) == 0x100 && Pow256(2) == 0x1_0000 && Pow256(3) == 0x100_0000
    ensures Pow256(4) == 0x1_0000_0000 && Pow256(5) == 0x100_0000_0000 && Pow256(6) == 0x1_0000_0000_0000
  {
    assert Pow256(2) == 256 * Pow256(1) && Pow256(3) == 256 * Pow256(2) && Pow256(4) == 256 * Pow256(3);
    assert Pow256(5) == 256 * Pow256(4);
  }

  function LeValue(b: seq<byte>): nat {
    if b == [] then 0 else b[0] + 256 * LeValue(b[1..])
  }

  function LeBytes(n: nat, k: nat): (b: seq<byte>)
    ensures |b| == k
  {
    if k == 0 then [] else [n % 256] + LeBytes(n / 256, k - 1)
  }

  function Reverse<T>(s: seq<T>): (r: seq<T>)
    ensures |r| == |s| && forall i :: 0 <= i < |s| ==> r[i] == s[|s| - 1 - i]
  {
    seq(|s|, i requires 0 <= i < |s| => s[|s| - 1 - i])
  }

  lemma ReverseTwice<T>(s: seq<T>)
    ensures Reverse(Reverse(s)) == s
  {
  }

  lemma {:induction false} LeValueBound(b: seq<byte>)
    ensures LeValue(b) < Pow256(|b|)
  {
    if b == [] {
    } else {
      LeValueBound(b[1..]);
    }
  }

  /** Taking |b| octets of any number congruent to LeValue(b) gives b back:
      what lies above the octets (`top`) does not matter. */
  lemma {:induction false} LeBytesOfValue(b: seq<byte>, top: nat)
    ensures LeBytes(LeValue(b) + top * Pow256(|b|), |b|) == b
  {
    if b == [] {
    } else {
      var P := Pow256(|b| - 1);
      var n := LeValue(b) + top * Pow256(|b|);
      assert top * Pow256(|b|) == 256 * (top * P);
      assert n == b[0] + 256 * (LeValue(b[1..]) + top * P);
      assert n % 256 == b[0] && n / 256 == LeValue(b[1..]) + top * P;
      LeBytesOfValue(b[1..], top);
    }
  }

  lemma {:induction false} MulGap(m: nat, a: nat, b: nat)
    requires a < b
    ensures m * a + m <= m * b
  {
    var d: nat := b - a - 1;
    assert b == a + 1 + d;
    assert m * (a + 1 + d) == m * a + m + m * d;
    assert 0 <= m * d;
  }

  lemma DivisionUnique(m: nat, a: nat, r: nat, b: nat, t: nat)
    requires r < m && t < m && m * a + r == m * b + t
    ensures a == b && r == t
  {
    if a < b {
      MulGap(m, a, b);
    } else if b < a {
      MulGap(m, b, a);
    }
  }

  lemma ModUnique(n: nat, m: nat, a: nat, r: nat)
    requires m >= 1 && n == m * a + r && r < m
    ensures n % m == r && n / m == a
  {
    DivisionUnique(m, a, r, n / m, n % m);
  }

  lemma SplitMod(n: nat, P: nat)
    requires P >= 1
    ensures n % (256 * P) == n % 256 + 256 * ((n / 256) % P)
    ensures n / (256 * P) == (n / 256) / P
  {
    var q := n / 256;
    var c, a := q % P, q / P;
    assert q == P * a + c;
    var low := n % 256 + 256 * c;
    assert n == 256 * q + n % 256;
    assert 256 * (P * a) == (256 * P) * a;
    assert n == (256 * P) * a + low;
    assert 0 <= low < 256 * P;
    ModUnique(n, 256 * P, a, low);
  }

  lemma {:induction false} LeValueOfBytes(n: nat, k: nat)
    ensures LeValue(LeBytes(n, k)) == n % Pow256(k)
  {
    if k == 0 {
      assert n % 1 == 0;
    } else {
      LeValueOfBytes(n / 256, k - 1);
      SplitMod(n, Pow256(k - 1));
      assert LeBytes(n, k)[1..] == LeBytes(n / 256, k - 1);
    }
  }

  /** The top digit decides; equal top digits leave it to the rest. */
  lemma TopDigitDecides(P: nat, u: nat, x: nat, v: nat, y: nat)
    requires u < P && v < P
    ensures u + P * x < v + P * y <==> x < y || (x == y && u < v)
    ensures u + P * x == v + P * y <==> x == y && u == v
  {
    if x < y {
      MulGap(P, x, y);
    } else if y < x {
      MulGap(P, y, x);
    }
  }

  /** Octet i is the number shifted right by i octets and masked. */
  lemma {:induction false} LeBytesAt(n: nat, k: nat, i: nat)
    requires i < k
    ensures LeBytes(n, k)[i] == (n / Pow256(i)) % 256
  {
    if i == 0 {
    } else {
      LeBytesAt(n / 256, k - 1, i - 1);
      SplitMod(n, Pow256(i - 1));
    }
  }

  lemma {:induction false} LeValueSnoc(b: seq<byte>, x: byte)
    ensures LeValue(b + [x]) == LeValue(b) + Pow256(|b|) * x
  {
    if b == [] {
      assert (b + [x])[1..] == [];
    } else {
      LeValueSnoc(b[1..], x);
      assert (b + [x])[1..] == b[1..] + [x];
      assert 256 * (Pow256(|b| - 1) * x) == Pow256(|b|) * x;
    }
  }

  /** Numeric order is lexicographic order read from the top octet down. */
  lemma {:induction false} LeValueOrder(a: seq<byte>, b: seq<byte>)
    requires |a| == |b|
    ensures LeValue(a) < LeValue(b) <==> Less(Reverse(a), Reverse(b))
    ensures LeValue(a) == LeValue(b) ==> a == b
    decreases |a|
  {
    if a == [] {
    } else {
      var n := |a| - 1;
      var a', b' := a[..n], b[..n];
      assert a == a' + [a[n]] && b == b' + [b[n]];
      LeValueSnoc(a', a[n]);
      LeValueSnoc(b', b[n]);
      LeValueBound(a');
      LeValueBound(b');
      LeValueOrder(a', b');
      assert Reverse(a)[1..] == Reverse(a') && Reverse(b)[1..] == Reverse(b');
      TopDigitDecides(Pow256(n), LeValue(a'), a[n], LeValue(b'), b[n]);
    }
  }
}
