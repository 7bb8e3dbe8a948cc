/** IPv4 addresses. The stored octets are least significant first: the code
    labels that layout network order, and copies it over a host integer. */
module IPv4Address {
  import opened Wrappers
  import opened LexOrder
  import opened Bytes
  import opened ByteOrder

  type IPv4 = b: seq<byte> | |b| == 4 witness [0, 0, 0, 0]

  const SPACE: nat := 0x1_0000_0000

  function ToInt(a: IPv4): (n: nat) {
    LeValue(a)
  }

  function OfInt(n: nat): (a: IPv4) {
    LeBytes(n, 4)
  }

  /** `parse(uint32)`: four shifts and masks into a local array. */
  method ParseInt(number: nat) returns (a: IPv4)
    ensures a == OfInt(number)
  {
    var ip := new byte[4];
    ip[0] := number % 0x100;
    ip[1] := (number / 0x100) % 0x100;
    ip[2] := (number / 0x1_0000) % 0x100;
    ip[3] := (number / 0x100_0000) % 0x100;
    a := ip[..];
    PowersOf256();
    forall i | 0 <= i < 4 ensures a[i] == OfInt(number)[i] {
      LeBytesAt(number, 4, i);
    }
  }

  function ParseBytes(bytes: seq<byte>, order: Order): (r: Result<IPv4, ErrorType>) {
    if |bytes| != 4 then Failure(InvalidArgument)
    else
      ReorderedInverse(bytes, order, NETWORK_ORDER);
      Success(Reordered(bytes, order, NETWORK_ORDER))
  }

  function ToBytes(a: IPv4, order: Order): (r: seq<byte>) {
    Reordered(a, NETWORK_ORDER, order)
  }

  /** The stored octets are what big-endian input and output read; little-endian
      ones mirror them. */
  lemma StoredOctets(bytes: seq<byte>, a: IPv4)
    ensures ToBytes(a, BigEndian) == a
    ensures |ToBytes(a, LittleEndian)| == 4 && forall i :: 0 <= i < 4 ==> ToBytes(a, LittleEndian)[i] == a[3 - i]
    ensures |bytes| == 4 ==> ParseBytes(bytes, BigEndian) == Success(bytes)
    ensures |bytes| == 4 ==>
              && ParseBytes(bytes, LittleEndian).Success?
              && forall i :: 0 <= i < 4 ==> ParseBytes(bytes, LittleEndian).value[i] == bytes[3 - i]
    ensures |bytes| != 4 ==> forall order :: ParseBytes(bytes, order) == Failure(InvalidArgument)
  {
    forall i | 0 <= i < 4 {
      ReorderedAt(a, BigEndian, LittleEndian, i);
    }
    forall i | 0 <= i < |bytes| {
      ReorderedAt(bytes, LittleEndian, BigEndian, i);
    }
  }

  /** Integer and address are in bijection modulo 2^32. */
  lemma IntRoundTrip(a: IPv4, n: nat)
    ensures ToInt(a) < SPACE
    ensures OfInt(ToInt(a)) == a
    ensures ToInt(OfInt(n)) == n % SPACE
  {
    PowersOf256();
    LeValueBound(a);
    LeBytesOfValue(a, 0);
    LeValueOfBytes(n, 4);
  }

  /** Bytes round-trip in either order, and exactly the four-octet inputs parse. */
  lemma BytesRoundTrip(bytes: seq<byte>, order: Order, a: IPv4)
    ensures ParseBytes(bytes, order).Success? <==> |bytes| == 4
    ensures |bytes| == 4 ==> ToBytes(ParseBytes(bytes, order).value, order) == bytes
    ensures ParseBytes(ToBytes(a, order), order) == Success(a)
  {
    if |bytes| == 4 {
      ReorderedInverse(bytes, order, NETWORK_ORDER);
    }
    ReorderedInverse(a, NETWORK_ORDER, order);
  }

  /** Host-order octets are the dotted reading, most significant first, and the
      address order is the lexicographic order of that reading. */
  lemma HostBytesReading(a: IPv4, b: IPv4)
    ensures var h := ToBytes(a, HOST_ORDER);
            |h| == 4 && ToInt(a) == 0x100_0000 * (h[0] as int) + 0x1_0000 * (h[1] as int) + 0x100 * (h[2] as int) + h[3]
    ensures ToInt(a) < ToInt(b) <==> Less(ToBytes(a, HOST_ORDER), ToBytes(b, HOST_ORDER))
    ensures ToInt(a) == ToInt(b) <==> a == b
  {
    LeValueOrder(a, b);
    assert LeValue(a[3..]) == a[3] + 256 * LeValue(a[3..][1..]) == a[3];
    assert a[2..][1..] == a[3..] && a[1..][1..] == a[2..];
    assert LeValue(a[2..]) == a[2] + 256 * (a[3] as int);
    assert LeValue(a[1..]) == a[1] + 256 * LeValue(a[2..]);
  }

  function Successor(a: IPv4): (r: IPv4) {
    OfInt(ToInt(a) + 1)
  }

  /** `operator++(int)`: `next` is the receiver's new value. */
  method PostIncrement(a: IPv4) returns (prev: IPv4, next: IPv4)
    ensures prev == a
    ensures ToInt(next) == (ToInt(a) + 1) % SPACE
    ensures next == Successor(a)
  {
    prev := a;
    IntRoundTrip(a, ToInt(a) + 1);
    next := ParseInt((ToInt(a) + 1) % SPACE);
    IntRoundTrip(next, (ToInt(a) + 1) % SPACE);
    IntRoundTrip(Successor(a), 0);
    HostBytesReading(next, Successor(a));
  }

  function IsBetween(x: IPv4, begin: IPv4, end: IPv4): bool
    decreases ToInt(begin) > ToInt(end)
  {
    if ToInt(begin) > ToInt(end) then IsBetween(x, end, begin)
    else ToInt(begin) < ToInt(x) < ToInt(end)
  }

  /** The bounds may come in either order and are both excluded. */
  lemma IsBetweenSymmetric(x: IPv4, p: IPv4, q: IPv4)
    ensures IsBetween(x, p, q) == IsBetween(x, q, p)
    ensures IsBetween(x, p, q) <==> ToInt(p) < ToInt(x) < ToInt(q) || ToInt(q) < ToInt(x) < ToInt(p)
    ensures !IsBetween(p, p, q)
  {
  }
}
