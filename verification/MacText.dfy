/** MAC addresses as text: the printer and the `sscanf` parser.

    `sscanf` itself is the C library's; its directives are modelled after
    section 7.21.6.2 of ISO/IEC 9899:2011, with numbers read as `strtoul` reads
    them and stored modulo 256. */
module MacText {
  import opened Wrappers
  import opened Bytes
  import opened ByteOrder
  import opened Text
  import opened MacAddress

  const ULONG_MAX: nat := 0xFFFF_FFFF_FFFF_FFFF

  function Groups(m: Mac): (g: seq<string>) {
    seq(6, i requires 0 <= i < 6 => Hex2(m[5 - i]))
  }

  function ToString(m: Mac): string {
    Join(Groups(m), ':')
  }

  /** The text up to the first NUL, which is all a C function sees. */
  function CString(s: string): (c: string)
    ensures '\0' !in c
  {
    if s == [] || s[0] == '\0' then [] else [s[0]] + CString(s[1..])
  }

  predicate IsSpace(c: char) {
    c == ' ' || c == '\t' || c == '\n' || c == '\r' || c == '\U{0B}' || c == '\U{0C}'
  }

  function SkipSpace(s: string): string {
    if s != [] && IsSpace(s[0]) then SkipSpace(s[1..]) else s
  }

  function HexSpan(s: string): (n: nat)
    ensures n <= |s| && AllHex(s[..n])
  {
    if s != [] && IsHex(s[0]) then
      var n := 1 + HexSpan(s[1..]);
      assert s[..n] == [s[0]] + s[1..][..n - 1];
      n
    else 0
  }

  /** What `strtoul` makes of sign and magnitude: a negated value is reduced
      modulo 2^64, an unrepresentable one becomes ULONG_MAX. */
  function UnsignedLong(negative: bool, magnitude: nat): (n: nat)
    ensures n <= ULONG_MAX
  {
    if magnitude > ULONG_MAX then ULONG_MAX
    else if negative && magnitude > 0 then ULONG_MAX + 1 - magnitude
    else magnitude
  }

  /** One or more hex digits; the octet they leave, and the rest. */
  function ScanDigits(negative: bool, digits: string): Option<(byte, string)> {
    var n := HexSpan(digits);
    if n == 0 then None else Some((UnsignedLong(negative, HexValue(digits[..n])) % 256, digits[n..]))
  }

  predicate HasPrefix(s: string) {
    |s| >= 2 && s[0] == '0' && (s[1] == 'x' || s[1] == 'X')
  }

  predicate HasSign(s: string) {
    s != [] && (s[0] == '+' || s[0] == '-')
  }

  function ScanMagnitude(negative: bool, s: string): Option<(byte, string)> {
    ScanDigits(negative, if HasPrefix(s) then s[2..] else s)
  }

  /** `%hhx`: optional space, sign and 0x prefix, then one or more hex digits. */
  function ScanHex(s: string): Option<(byte, string)> {
    var unspaced := SkipSpace(s);
    if HasSign(unspaced) then ScanMagnitude(unspaced[0] == '-', unspaced[1..]) else ScanMagnitude(false, unspaced)
  }

  predicate IsSeparator(c: char) {
    c == '-' || c == ':' || c == ' '
  }

  /** k `%hhx` directives with `%*1[-: ]` between them: the octets and the rest. */
  function ScanGroups(s: string, k: nat): (r: Option<(seq<byte>, string)>)
    requires k > 0
    ensures r.Some? ==> |r.value.0| == k
    decreases k
  {
    match ScanHex(s)
    case None => None
    case Some((octet, rest)) =>
      if k == 1 then Some(([octet], rest))
      else if rest == [] || !IsSeparator(rest[0]) then None
      else match ScanGroups(rest[1..], k - 1)
           case None => None
           case Some((octets, final)) => Some(([octet] + octets, final))
  }

  /** `parse(string_view)`: six octets and nothing after them. */
  function ParseText(mac: string): Result<Mac, ErrorType> {
    match ScanGroups(CString(mac), 6)
    case Some((octets, rest)) =>
      if rest == [] then Success(Reordered(octets, HOST_ORDER, NETWORK_ORDER)) else Failure(InvalidArgument)
    case None => Failure(InvalidArgument)
  }

  /** A group the standard gives a plain reading: hex digits, representable. */
  predicate PlainGroup(g: string) {
    g != [] && AllHex(g) && HexValue(g) <= ULONG_MAX
  }

  predicate PlainGroups(groups: seq<string>) {
    forall i :: 0 <= i < |groups| ==> PlainGroup(groups[i])
  }

  /** Text that cannot extend the number before it. */
  predicate EndsNumber(t: string) {
    t == [] || !(IsHex(t[0]) || t[0] == 'x' || t[0] == 'X')
  }

  lemma {:induction false} HexSpanOfGroup(g: string, t: string)
    requires AllHex(g) && EndsNumber(t)
    ensures HexSpan(g + t) == |g|
  {
    if g == [] {
      assert g + t == t;
    } else {
      assert (g + t)[1..] == g[1..] + t;
      HexSpanOfGroup(g[1..], t);
    }
  }

  /** A plain group is neither spaced, signed nor prefixed. */
  lemma GroupStart(g: string, t: string)
    requires PlainGroup(g) && EndsNumber(t)
    ensures var s := g + t;
            && s != [] && IsHex(s[0]) && SkipSpace(s) == s
            && (|s| >= 2 ==> s[1] != 'x' && s[1] != 'X')
  {
    hide HexValue;
    if |g| == 1 && t != [] {
      assert (g + t)[1] == t[0];
    }
  }

  lemma ScanHexOfGroup(g: string, t: string)
    requires PlainGroup(g) && EndsNumber(t)
    ensures ScanHex(g + t) == Some((HexValue(g) % 256, t))
  {
    hide HexValue, HexSpan, SkipSpace;
    HexSpanOfGroup(g, t);
    GroupStart(g, t);
    assert (g + t)[..|g|] == g && (g + t)[|g|..] == t;
  }

  function Octets(groups: seq<string>): (r: seq<byte>)
    requires PlainGroups(groups)
    ensures |r| == |groups|
  {
    seq(|groups|, i requires 0 <= i < |groups| => HexValue(groups[i]) % 256)
  }

  lemma ScanGroupsStep(g: string, sep: char, tail: string, k: nat, octets: seq<byte>, t: string)
    requires PlainGroup(g) && IsSeparator(sep) && k > 0
    requires ScanGroups(tail, k) == Some((octets, t))
    ensures ScanGroups(g + [sep] + tail, k + 1) == Some(([HexValue(g) % 256] + octets, t))
  {
    var rest := [sep] + tail;
    assert g + [sep] + tail == g + rest && rest[1..] == tail;
    ScanHexOfGroup(g, rest);
  }

  lemma ScanLastGroup(g: string, t: string)
    requires PlainGroup(g) && EndsNumber(t)
    ensures ScanGroups(g + t, 1) == Some(([HexValue(g) % 256], t))
  {
    ScanHexOfGroup(g, t);
  }

  lemma OctetsCons(groups: seq<string>)
    requires groups != [] && PlainGroups(groups)
    ensures PlainGroups(groups[1..])
    ensures Octets(groups) == [HexValue(groups[0]) % 256] + Octets(groups[1..])
    ensures |groups| == 1 ==> Octets(groups) == [HexValue(groups[0]) % 256]
  {
    assert forall i :: 0 <= i < |groups| - 1 ==> groups[1..][i] == groups[i + 1];
  }

  lemma {:induction false} ScanInterleaved(groups: seq<string>, seps: seq<char>, t: string)
    requires |groups| == |seps| + 1 && EndsNumber(t)
    requires PlainGroups(groups)
    requires forall i :: 0 <= i < |seps| ==> IsSeparator(seps[i])
    ensures ScanGroups(Interleave(groups, seps) + t, |groups|) == Some((Octets(groups), t))
    decreases |seps|
  {
    hide ScanGroups, ScanHex, HexValue, Octets, PlainGroup;
    OctetsCons(groups);
    if seps == [] {
      ScanLastGroup(groups[0], t);
    } else {
      ScanInterleaved(groups[1..], seps[1..], t);
      var tail := Interleave(groups[1..], seps[1..]) + t;
      ScanGroupsStep(groups[0], seps[0], tail, |seps|, Octets(groups[1..]), t);
      assert Interleave(groups, seps) + t == groups[0] + [seps[0]] + tail;
    }
  }

  lemma {:induction false} CStringAppend(s: string, t: string)
    requires '\0' !in s
    ensures CString(s + t) == s + CString(t)
  {
    if s == [] {
      assert s + t == t;
    } else {
      assert (s + t)[1..] == s[1..] + t;
      CStringAppend(s[1..], t);
    }
  }

  lemma {:induction false} InterleaveHasNoNul(groups: seq<string>, seps: seq<char>)
    requires |groups| == |seps| + 1
    requires forall i :: 0 <= i < |groups| ==> '\0' !in groups[i]
    requires '\0' !in seps
    ensures '\0' !in Interleave(groups, seps)
  {
    if seps == [] {
    } else {
      InterleaveHasNoNul(groups[1..], seps[1..]);
    }
  }

  lemma OctetAt(groups: seq<string>, i: nat)
    requires PlainGroups(groups) && i < |groups|
    ensures Octets(groups)[i] == HexValue(groups[i]) % 256
  {
  }

  lemma ParseGroups(groups: seq<string>, seps: seq<char>, t: string)
    requires |groups| == 6 && |seps| == 5 && EndsNumber(t)
    requires PlainGroups(groups)
    requires forall i :: 0 <= i < |seps| ==> IsSeparator(seps[i])
    ensures ParseText(Interleave(groups, seps) + t) ==
            if t == [] || t[0] == '\0'
            then Success(Reordered(Octets(groups), HOST_ORDER, NETWORK_ORDER))
            else Failure(InvalidArgument)
  {
    InterleaveHasNoNul(groups, seps);
    CStringAppend(Interleave(groups, seps), t);
    ScanInterleaved(groups, seps, CString(t));
  }

  /** Six plain groups with any mix of separators parse to their values modulo 256,
      the last group first; what follows them must be nothing, or the parse fails. */
  lemma ParseSixGroups(groups: seq<string>, seps: seq<char>, t: string)
    requires |groups| == 6 && |seps| == 5 && EndsNumber(t)
    requires PlainGroups(groups)
    requires forall i :: 0 <= i < |seps| ==> seps[i] == '-' || seps[i] == ':' || seps[i] == ' '
    ensures var r := ParseText(Interleave(groups, seps) + t);
            if t == [] || t[0] == '\0'
            then r.Success? && forall i :: 0 <= i < 6 ==> r.value[i] == HexValue(groups[5 - i]) % 256
            else r == Failure(InvalidArgument)
  {
    hide ParseText, Interleave, HexValue, Octets;
    ParseGroups(groups, seps, t);
    forall i | 0 <= i < 6 ensures Reverse(Octets(groups))[i] == HexValue(groups[5 - i]) % 256 {
      OctetAt(groups, 5 - i);
    }
  }

  /** Text in which no further group can start. */
  predicate StopsScan(t: string) {
    t == [] || !(t[0] == '-' || t[0] == ':' || t[0] == ' ' || IsHex(t[0]) || t[0] == 'x' || t[0] == 'X')
  }

  lemma {:induction false} ScanTooFew(groups: seq<string>, seps: seq<char>, t: string, k: nat)
    requires |groups| == |seps| + 1 && k > |groups| && StopsScan(t)
    requires PlainGroups(groups)
    requires forall i :: 0 <= i < |seps| ==> IsSeparator(seps[i])
    ensures ScanGroups(Interleave(groups, seps) + t, k) == None
    decreases |seps|
  {
    hide ScanHex, HexValue, PlainGroup;
    if seps == [] {
      ScanHexOfGroup(groups[0], t);
    } else {
      var rest := [seps[0]] + (Interleave(groups[1..], seps[1..]) + t);
      ScanTooFew(groups[1..], seps[1..], t, k - 1);
      assert Interleave(groups, seps) + t == groups[0] + rest;
      ScanHexOfGroup(groups[0], rest);
      assert rest[1..] == Interleave(groups[1..], seps[1..]) + t;
    }
  }

  /** One to five groups are not enough, and no other separator is taken. */
  lemma ParseTooFew(groups: seq<string>, seps: seq<char>, t: string)
    requires |groups| == |seps| + 1 && |groups| < 6 && StopsScan(t)
    requires PlainGroups(groups)
    requires forall i :: 0 <= i < |seps| ==> IsSeparator(seps[i])
    ensures ParseText(Interleave(groups, seps) + t) == Failure(InvalidArgument)
  {
    InterleaveHasNoNul(groups, seps);
    CStringAppend(Interleave(groups, seps), t);
    ScanTooFew(groups, seps, CString(t), 6);
  }

  lemma {:induction false} SkipSpaces(space: string, s: string)
    requires forall i :: 0 <= i < |space| ==> IsSpace(space[i])
    requires s == [] || !IsSpace(s[0])
    ensures SkipSpace(space + s) == s
  {
    if space == [] {
      assert space + s == s;
    } else {
      assert (space + s)[1..] == space[1..] + s;
      SkipSpaces(space[1..], s);
    }
  }

  /** What a signed number becomes modulo 256. */
  function OctetOf(negative: bool, v: nat): byte {
    if v >= 0x1_0000_0000_0000_0000 then 255 else if negative then (256 - v % 256) % 256 else v % 256
  }

  lemma UnsignedOctet(negative: bool, v: nat)
    ensures UnsignedLong(negative, v) % 256 == OctetOf(negative, v)
  {
    if negative && 0 < v <= ULONG_MAX {
      assert v == 256 * (v / 256) + v % 256;
      assert ULONG_MAX + 1 - v == 256 - v % 256 + 256 * (0xFF_FFFF_FFFF_FFFF - v / 256);
    }
  }

  lemma ScanDigitsOfGroup(negative: bool, g: string, t: string)
    requires g != [] && AllHex(g) && EndsNumber(t)
    ensures ScanDigits(negative, g + t) == Some((OctetOf(negative, HexValue(g)), t))
  {
    hide HexValue, HexSpan, UnsignedLong;
    HexSpanOfGroup(g, t);
    UnsignedOctet(negative, HexValue(g));
    assert (g + t)[..|g|] == g && (g + t)[|g|..] == t;
  }

  lemma HexStart(s: string)
    requires s != [] && IsHex(s[0])
    ensures !HasSign(s) && !IsSpace(s[0])
  {
  }

  lemma NoPrefix(g: string, t: string)
    requires g != [] && AllHex(g) && EndsNumber(t)
    ensures !HasPrefix(g + t) && IsHex((g + t)[0])
  {
    var s := g + t;
    assert s[0] == g[0] && IsHex(g[0]);
    if |s| > 1 {
      assert s[1] == if |g| == 1 then t[0] else g[1];
    }
  }

  lemma ScanPrefixedGroup(negative: bool, prefix: string, g: string, t: string)
    requires prefix == "" || prefix == "0x" || prefix == "0X"
    requires g != [] && AllHex(g) && EndsNumber(t)
    ensures var s := prefix + (g + t);
            && ScanMagnitude(negative, s) == Some((OctetOf(negative, HexValue(g)), t))
            && !HasSign(s) && !IsSpace(s[0])
  {
    hide HexValue, ScanDigits, OctetOf, HasSign, IsSpace;
    ScanDigitsOfGroup(negative, g, t);
    NoPrefix(g, t);
    var digits := g + t;
    if prefix == "" {
      assert prefix + digits == digits;
    } else {
      assert (prefix + digits)[2..] == digits;
    }
    HexStart(prefix + digits);
  }

  /** A group may have space before it, a sign and a 0x prefix; a negative one is
      negated modulo 256, and one beyond 64 bits reads as 255. */
  lemma ScanSpelledGroup(space: string, sign: string, prefix: string, g: string, t: string)
    requires forall i :: 0 <= i < |space| ==> IsSpace(space[i])
    requires sign == "" || sign == "+" || sign == "-"
    requires prefix == "" || prefix == "0x" || prefix == "0X"
    requires g != [] && AllHex(g) && EndsNumber(t)
    ensures var v := HexValue(g);
            ScanHex(space + (sign + (prefix + (g + t)))) ==
            Some((if v >= 0x1_0000_0000_0000_0000 then 255
                  else if sign == "-" then (256 - v % 256) % 256
                  else v % 256, t))
  {
    hide HexValue, SkipSpace, ScanMagnitude;
    var body := prefix + (g + t);
    ScanPrefixedGroup(sign == "-", prefix, g, t);
    SkipSpaces(space, sign + body);
    if sign == "" {
      assert sign + body == body;
    } else {
      assert (sign + body)[1..] == body;
    }
  }

  lemma NoDigitsNoScan(s: string)
    requires SkipSpace(s) == [] || !(SkipSpace(s)[0] == '+' || SkipSpace(s)[0] == '-' || IsHex(SkipSpace(s)[0]))
    ensures ScanHex(s) == None
  {
    hide SkipSpace, IsSpace;
  }

  /** Text that starts, after space, with neither sign nor digit does not parse. */
  lemma NoDigitsNoGroup(s: string)
    requires var u := SkipSpace(CString(s)); u == [] || !(u[0] == '+' || u[0] == '-' || IsHex(u[0]))
    ensures ParseText(s) == Failure(InvalidArgument)
  {
    hide ScanHex, SkipSpace, CString;
    NoDigitsNoScan(CString(s));
  }

  lemma PrintedGroups(m: Mac)
    ensures PlainGroups(Groups(m)) && Octets(Groups(m)) == Reverse(m)
  {
    var g := Groups(m);
    forall i | 0 <= i < 6 ensures PlainGroup(g[i]) && HexValue(g[i]) % 256 == m[5 - i] {
      Hex2Value(m[5 - i]);
      assert g[i] == Hex2(m[5 - i]);
    }
  }

  /** The printed form: for each octet, most significant first, two upper-case
      digits, with colons between them. */
  lemma ToStringReads(m: Mac)
    ensures |ToBytes(m, LittleEndian)| == 6
    ensures var h, d := ToBytes(m, LittleEndian), (n: byte) => ["0123456789ABCDEF"[n / 16], "0123456789ABCDEF"[n % 16]];
            ToString(m) == d(h[0]) + ":" + d(h[1]) + ":" + (d(h[2]) + ":" + d(h[3]) + ":" + d(h[4]) + ":" + d(h[5]))
  {
    hide Hex2, Join, ToBytes;
    StoredOctets(m, m);
    forall b: byte {
      Hex2Reads(b);
    }
    JoinSix(Groups(m), ':');
  }

  /** Printing and parsing undo each other, so printing is injective. */
  lemma PrintParseRoundTrip(m: Mac)
    ensures ParseText(ToString(m)) == Success(m)
  {
    PrintedGroups(m);
    ParseGroups(Groups(m), seq(5, _ => ':'), []);
    assert ToString(m) + [] == ToString(m);
    ReverseTwice(m);
  }
}
