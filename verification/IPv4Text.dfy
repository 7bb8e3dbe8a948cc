/** The dotted-decimal printer, and what its injectivity gives to the maps
    that are keyed by printed addresses. */
module IPv4Text {
  import opened Wrappers
  import opened Bytes
  import opened Text
  import opened ByteOrder
  import opened IPv4Address

  function Groups(a: IPv4): seq<string> {
    [Decimal(a[3]), Decimal(a[2]), Decimal(a[1]), Decimal(a[0])]
  }

  function ToString(a: IPv4): string {
    Join(Groups(a), '.')
  }

  /** The text is the decimal numerals of the host-order octets, most significant
      first, with dots between them. */
  lemma ToStringReads(a: IPv4) returns (g: seq<string>)
    ensures |g| == 4 && ToString(a) == g[0] + "." + g[1] + "." + g[2] + "." + g[3]
    ensures |ToBytes(a, LittleEndian)| == 4 && forall i :: 0 <= i < 4 ==> Numeral(g[i], ToBytes(a, LittleEndian)[i])
  {
    hide Numeral;
    g := Groups(a);
    StoredOctets(a, a);
    forall x: byte {
      DecimalIsNumeral(x);
    }
    JoinFour(g, '.');
  }

  lemma ToStringInjective(a: IPv4, b: IPv4)
    ensures ToString(a) == ToString(b) <==> a == b
  {
    if ToString(a) == ToString(b) {
      forall x: byte ensures '.' !in Decimal(x) {
        DecimalHasOnlyDigits(x);
      }
      JoinInjective(Groups(a), Groups(b), '.');
      forall i | 0 <= i < 4 ensures a[i] == b[i] {
        assert Groups(a)[3 - i] == Decimal(a[i]) && Groups(b)[3 - i] == Decimal(b[i]);
        DecimalInjective(a[i], b[i]);
      }
    }
  }

  /** The entry of an address in a map keyed by printed addresses. */
  function Lookup<V>(m: map<string, V>, a: IPv4): Option<V> {
    if ToString(a) in m then Some(m[ToString(a)]) else None
  }

  /** Storing or erasing under one printed address is storing or erasing at one
      address: every other address reads as before. */
  lemma KeyedByAddress<V>(m: map<string, V>, a: IPv4, v: V, b: IPv4)
    ensures Lookup(m[ToString(a) := v], b) == if b == a then Some(v) else Lookup(m, b)
    ensures Lookup(m - {ToString(a)}, b) == if b == a then None else Lookup(m, b)
  {
    ToStringInjective(a, b);
  }
}
