/** MAC addresses. `toInt` copies six octets into an eight-octet integer that
    is never initialised, so its top sixteen bits are whatever was there: they
    are the parameter `top` below, chosen afresh at every call. */
module MacAddress {
  import opened Wrappers
  import opened LexOrder
  import opened Bytes
  import opened ByteOrder

  type Mac = b: seq<byte> | |b| == 6 witness [0, 0, 0, 0, 0, 0]

  const SPACE: nat := 0x1_0000_0000_0000
  const WORD: nat := 0x1_0000_0000_0000_0000

  type Top = t: nat | t < 0x1_0000

  /** The address as a 48-bit number. */
  function Value(m: Mac): (n: nat) {
    LeValue(m)
  }

  function ToInt(m: Mac, top: Top): (n: nat) {
    Value(m) + top * SPACE
  }

  function OfInt(n: nat): (m: Mac) {
    LeBytes(n, 6)
  }

  /** `parse(uint64)`: six shifts and masks into a local array. */
  method ParseInt(number: nat) returns (m: Mac)
    ensures m == OfInt(number)
  {
    var mac := new byte[6];
    mac[0] := number % 0x100;
    mac[1] := (number / 0x100) % 0x100;
    mac[2] := (number / 0x1_0000) % 0x100;
    mac[3] := (number / 0x100_0000) % 0x100;
    mac[4] := (number / 0x1_0000_0000) % 0x100;
    mac[5] := (number / 0x100_0000_0000) % 0x100;
    m := mac[..];
    PowersOf256();
    forall i | 0 <= i < 6 ensures m[i] == OfInt(number)[i] {
      LeBytesAt(number, 6, i);
    }
  }

  function ParseBytes(bytes: seq<byte>, order: Order): (r: Result<Mac, ErrorType>) {
    if |bytes| != 6 then Failure(InvalidArgument)
    else
      ReorderedInverse(bytes, order, NETWORK_ORDER);
      Success(Reordered(bytes, order, NETWORK_ORDER))
  }

  function ToBytes(m: Mac, order: Order): (r: seq<byte>) {
    Reordered(m, NETWORK_ORDER, order)
  }

  /** The stored octets are what big-endian input and output read; little-endian
      ones mirror them. */
  lemma StoredOctets(bytes: seq<byte>, m: Mac)
    ensures ToBytes(m, BigEndian) == m
    ensures |ToBytes(m, LittleEndian)| == 6 && forall i :: 0 <= i < 6 ==> ToBytes(m, LittleEndian)[i] == m[5 - i]
    ensures |bytes| == 6 ==> ParseBytes(bytes, BigEndian) == Success(bytes)
    ensures |bytes| == 6 ==>
              && ParseBytes(bytes, LittleEndian).Success?
              && forall i :: 0 <= i < 6 ==> ParseBytes(bytes, LittleEndian).value[i] == bytes[5 - i]
    ensures |bytes| != 6 ==> forall order :: ParseBytes(bytes, order) == Failure(InvalidArgument)
  {
    forall i | 0 <= i < 6 {
      ReorderedAt(m, BigEndian, LittleEndian, i);
    }
    forall i | 0 <= i < |bytes| {
      ReorderedAt(bytes, LittleEndian, BigEndian, i);
    }
  }

  /** Whatever the top sixteen bits hold, integer and address round-trip. */
  lemma IntRoundTrip(m: Mac, top: Top, n: nat)
    ensures Value(m) < SPACE && ToInt(m, top) < WORD
    ensures OfInt(ToInt(m, top)) == m
    ensures Value(OfInt(n)) == n % SPACE
  {
    PowersOf256();
    LeValueBound(m);
    LeBytesOfValue(m, top);
    LeValueOfBytes(n, 6);
  }

  lemma BytesRoundTrip(bytes: seq<byte>, order: Order, m: Mac)
    ensures ParseBytes(bytes, order).Success? <==> |bytes| == 6
    ensures |bytes| == 6 ==> ToBytes(ParseBytes(bytes, order).value, order) == bytes
    ensures ParseBytes(ToBytes(m, order), order) == Success(m)
  {
    if |bytes| == 6 {
      ReorderedInverse(bytes, order, NETWORK_ORDER);
    }
    ReorderedInverse(m, NETWORK_ORDER, order);
  }

  /** `operator++(int)`: the successor modulo 2^48 whatever `top` is. The sum is
      taken in 64 bits, so with every bit of `top` set it may overflow. */
  method PostIncrement(m: Mac, top: Top) returns (prev: Mac, next: Mac)
    ensures prev == m
    ensures Value(next) == (Value(m) + 1) % SPACE
  {
    prev := m;
    var sum := (ToInt(m, top) + 1) % WORD;
    next := ParseInt(sum);
    IntRoundTrip(m, top, sum);
    if Value(m) + 1 < SPACE {
      ModUnique(sum, SPACE, top, Value(m) + 1);
    } else if top + 1 < 0x1_0000 {
      ModUnique(sum, SPACE, top + 1, 0);
    }
  }

  /** `operator<`: each operand is converted on its own, with its own top bits. */
  predicate LessThan(a: Mac, topA: Top, b: Mac, topB: Top) {
    ToInt(a, topA) < ToInt(b, topB)
  }

  /** With equal top bits the comparison is a strict total order, the
      lexicographic order of the host-order octets. */
  lemma OrderWithEqualTops(a: Mac, b: Mac, top: Top)
    ensures LessThan(a, top, b, top) <==> Less(ToBytes(a, HOST_ORDER), ToBytes(b, HOST_ORDER))
    ensures LessThan(a, top, b, top) || a == b || LessThan(b, top, a, top)
  {
    LeValueOrder(a, b);
  }

  /** The comparison is right for every pair of addresses exactly when both
      conversions find the same top bits. */
  lemma OrderNeedsEqualTops(topA: Top, topB: Top)
    ensures (forall a: Mac, b: Mac :: LessThan(a, topA, b, topB) <==> Value(a) < Value(b)) <==> topA == topB
  {
    var zero, one := OfInt(0), OfInt(1);
    IntRoundTrip(zero, topA, 0);
    IntRoundTrip(one, topB, 1);
    assert Value(zero) == 0 && Value(one) == 1;
    if topA < topB {
      assert LessThan(zero, topA, zero, topB);
    } else if topB < topA {
      IntRoundTrip(one, topB, 1);
      assert !LessThan(zero, topA, one, topB);
    }
  }
}
