/** Text assembled from groups and single-character separators, and the digits
    of the two address notations. */
module Text {
  import opened Bytes

  /** g0 s0 g1 s1 ... gn, with one separator fewer than groups. */
  function Interleave(groups: seq<string>, seps: seq<char>): (r: string)
    requires |groups| == |seps| + 1
  {
    if seps == [] then groups[0]
    else groups[0] + [seps[0]] + Interleave(groups[1..], seps[1..])
  }

  /** `fmt::join` with a one-character separator. */
  function Join(groups: seq<string>, sep: char): (r: string)
    requires groups != []
  {
    Interleave(groups, seq(|groups| - 1, _ => sep))
  }

  lemma JoinRest(groups: seq<string>, sep: char)
    requires |groups| > 1
    ensures Join(groups, sep) == groups[0] + [sep] + Join(groups[1..], sep)
  {
    assert seq(|groups| - 1, _ => sep)[1..] == seq(|groups| - 2, _ => sep);
  }

  lemma JoinFour(g: seq<string>, sep: char)
    requires |g| == 4
    ensures Join(g, sep) == g[0] + [sep] + g[1] + [sep] + g[2] + [sep] + g[3]
  {
    JoinRest(g, sep);
    JoinRest(g[1..], sep);
    JoinRest(g[2..], sep);
    assert g[1..][1..] == g[2..] && g[2..][1..] == g[3..];
    assert Join(g[3..], sep) == g[3];
  }

  lemma JoinSix(g: seq<string>, sep: char)
    requires |g| == 6
    ensures Join(g, sep) == g[0] + [sep] + g[1] + [sep] + (g[2] + [sep] + g[3] + [sep] + g[4] + [sep] + g[5])
  {
    JoinRest(g, sep);
    JoinRest(g[1..], sep);
    JoinFour(g[2..], sep);
    assert g[1..][1..] == g[2..];
  }

  lemma FirstGroup(p: string, x: string, q: string, y: string, sep: char)
    requires sep !in p && sep !in q
    requires p + [sep] + x == q + [sep] + y
    ensures p == q && x == y
  {
    var whole := p + [sep] + x;
    assert whole[|p|] == sep && whole[|q|] == sep;
    assert |p| == |q|;
    assert p == whole[..|p|] == q;
    assert x == whole[|p| + 1..] == y;
  }

  /** Joined text determines its groups when no group contains the separator. */
  lemma {:induction false} JoinInjective(ps: seq<string>, qs: seq<string>, sep: char)
    requires |ps| == |qs| > 0
    requires forall i :: 0 <= i < |ps| ==> sep !in ps[i] && sep !in qs[i]
    requires Join(ps, sep) == Join(qs, sep)
    ensures ps == qs
  {
    if |ps| > 1 {
      var seps := seq(|ps| - 1, _ => sep);
      assert seps[1..] == seq(|ps| - 2, _ => sep);
      assert Join(ps, sep) == ps[0] + [sep] + Join(ps[1..], sep);
      assert Join(qs, sep) == qs[0] + [sep] + Join(qs[1..], sep);
      FirstGroup(ps[0], Join(ps[1..], sep), qs[0], Join(qs[1..], sep), sep);
      JoinInjective(ps[1..], qs[1..], sep);
    }
    assert ps == [ps[0]] + ps[1..] && qs == [qs[0]] + qs[1..];
  }

  function Decimal(n: nat): (r: string)
    ensures r != []
  {
    if n < 10 then ["0123456789"[n]] else Decimal(n / 10) + ["0123456789"[n % 10]]
  }

  lemma {:induction false} DecimalHasOnlyDigits(n: nat)
    ensures forall c | c in Decimal(n) :: c in "0123456789"
  {
    if n >= 10 {
      DecimalHasOnlyDigits(n / 10);
    }
  }

  predicate AllDigits(s: string) {
    forall i :: 0 <= i < |s| ==> '0' <= s[i] <= '9'
  }

  function DecimalValue(s: string): nat
    requires AllDigits(s)
  {
    if s == [] then 0 else 10 * DecimalValue(s[..|s| - 1]) + (s[|s| - 1] - '0') as nat
  }

  /** The decimal numeral of n: only digits, none of them a leading zero. */
  ghost predicate Numeral(s: string, n: nat) {
    s != [] && AllDigits(s) && DecimalValue(s) == n && (|s| > 1 ==> s[0] != '0')
  }

  lemma DigitValue(d: nat)
    requires d < 10
    ensures var c := "0123456789"[d]; '0' <= c <= '9' && (c - '0') as nat == d
  {
  }

  lemma NextDigit(s: string, n: nat, d: nat)
    requires d < 10 && (if s == [] then n == 0 else n > 0 && Numeral(s, n))
    ensures Numeral(s + ["0123456789"[d]], 10 * n + d)
  {
    var t := s + ["0123456789"[d]];
    DigitValue(d);
    assert t[..|t| - 1] == s;
    if |s| == 1 {
      assert s[..0] == [] && DecimalValue(s) == (s[0] - '0') as nat;
    }
  }

  lemma {:induction false} DecimalIsNumeral(n: nat)
    ensures Numeral(Decimal(n), n)
  {
    if n < 10 {
      assert [] + ["0123456789"[n]] == ["0123456789"[n]];
      NextDigit([], 0, n);
    } else {
      DecimalIsNumeral(n / 10);
      NextDigit(Decimal(n / 10), n / 10, n % 10);
    }
  }

  lemma DecimalInjective(m: nat, n: nat)
    requires Decimal(m) == Decimal(n)
    ensures m == n
  {
    DecimalIsNumeral(m);
    DecimalIsNumeral(n);
  }

  predicate IsHex(c: char) {
    '0' <= c <= '9' || 'a' <= c <= 'f' || 'A' <= c <= 'F'
  }

  function HexDigit(c: char): (d: nat)
    requires IsHex(c)
    ensures d < 16
  {
    if c <= '9' then (c - '0') as nat
    else if c <= 'F' then (c - 'A') as nat + 10
    else (c - 'a') as nat + 10
  }

  /** Hex digits of either case, and what they are worth. */
  lemma HexDigits(c: char)
    ensures IsHex(c) <==> c in "0123456789ABCDEF" || c in "0123456789abcdef"
    ensures forall d :: 0 <= d < 16 ==>
              && IsHex("0123456789ABCDEF"[d]) && HexDigit("0123456789ABCDEF"[d]) == d
              && IsHex("0123456789abcdef"[d]) && HexDigit("0123456789abcdef"[d]) == d
  {
    assert '0' <= c <= '9' || 'A' <= c <= 'F' ==> c == "0123456789ABCDEF"[HexDigit(c)];
    assert 'a' <= c <= 'f' ==> c == "0123456789abcdef"[HexDigit(c)];
  }

  predicate AllHex(s: string) {
    forall i :: 0 <= i < |s| ==> IsHex(s[i])
  }

  function HexValue(s: string): nat
    requires AllHex(s)
  {
    if s == [] then 0 else 16 * HexValue(s[..|s| - 1]) + HexDigit(s[|s| - 1])
  }

  lemma HexValueReads(s: string, c: char)
    requires AllHex(s) && IsHex(c)
    ensures HexValue([]) == 0 && HexValue(s + [c]) == 16 * HexValue(s) + HexDigit(c)
  {
    assert (s + [c])[..|s|] == s;
  }

  function UpperHex(d: nat): (c: char)
    requires d < 16
    ensures IsHex(c) && HexDigit(c) == d
  {
    if d < 10 then '0' + d as char else 'A' + (d - 10) as char
  }

  /** `{:02X}` of one octet. */
  function Hex2(b: byte): (r: string)
    ensures |r| == 2 && AllHex(r)
  {
    [UpperHex(b / 16), UpperHex(b % 16)]
  }

  /** Two upper-case digits, the more significant first. */
  lemma Hex2Reads(b: byte)
    ensures Hex2(b) == ["0123456789ABCDEF"[b / 16], "0123456789ABCDEF"[b % 16]]
  {
  }

  lemma Hex2Value(b: byte)
    ensures HexValue(Hex2(b)) == b
  {
    var r := Hex2(b);
    assert r[..1] == [r[0]] && r[..1][..0] == [];
    assert HexValue(r[..1]) == 16 * HexValue(r[..1][..0]) + HexDigit(r[0]);
  }
}
