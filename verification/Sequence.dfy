/** Ranges of addresses, iterated by repeated increment until the end value is
    met. The type parameter of the C++ template is fixed to IPv4 addresses, whose
    successor wraps from 255.255.255.255 to 0.0.0.0. */
module Sequence {
  import opened Bytes
  import opened IPv4Address

  datatype Sequence = Sequence(first: IPv4, last: IPv4)

  /** `Sequence::increment`: bumps its own copy and returns it. */
  method NextValue(value: IPv4) returns (r: IPv4)
    ensures r == Successor(value)
  {
    var prev, next := PostIncrement(value);
    r := next;
  }

  class Iterator {
    var value: IPv4

    constructor (v: IPv4)
      ensures value == v
    {
      value := v;
    }

    method Increment()
      modifies this
      ensures value == Successor(old(value))
    {
      var v := NextValue(value);
      value := v;
    }
  }

  /** How far `last` lies ahead of `first` on the cycle of addresses. */
  function Length(s: Sequence): (n: nat)
    ensures n < SPACE
  {
    (ToInt(s.last) - ToInt(s.first)) % SPACE
  }

  /** The address i steps after `first`. */
  function StepFrom(first: IPv4, i: nat): IPv4 {
    OfInt(ToInt(first) + i)
  }

  function Visited(s: Sequence): (v: seq<IPv4>)
    ensures |v| == Length(s)
  {
    seq(Length(s), i requires 0 <= i < Length(s) => StepFrom(s.first, i))
  }

  lemma SameIntSameAddress(a: IPv4, b: IPv4)
    ensures ToInt(a) == ToInt(b) <==> a == b
  {
    HostBytesReading(a, b);
  }

  lemma WrapArithmetic(f: nat, l: nat, i: nat)
    requires f < SPACE && l < SPACE && i <= SPACE
    ensures (f + i) % SPACE == if f + i < SPACE then f + i else if f + i < 2 * SPACE then f + i - SPACE else 0
    ensures (l - f) % SPACE == if f <= l then l - f else l - f + SPACE
  {
  }

  lemma StepInt(first: IPv4, i: nat)
    ensures ToInt(first) < SPACE
    ensures ToInt(StepFrom(first, i)) == (ToInt(first) + i) % SPACE
    ensures ToInt(Successor(first)) == (ToInt(first) + 1) % SPACE
  {
    IntRoundTrip(first, ToInt(first) + i);
    IntRoundTrip(first, ToInt(first) + 1);
  }

  lemma SuccessorMod(x: nat)
    ensures (x % SPACE + 1) % SPACE == (x + 1) % SPACE
  {
  }

  lemma StepSuccessor(first: IPv4, i: nat)
    ensures StepFrom(first, 0) == first
    ensures Successor(StepFrom(first, i)) == StepFrom(first, i + 1)
  {
    IntRoundTrip(first, 0);
    StepInt(first, i);
    StepInt(first, i + 1);
    StepInt(StepFrom(first, i), 1);
    SuccessorMod(ToInt(first) + i);
    SameIntSameAddress(Successor(StepFrom(first, i)), StepFrom(first, i + 1));
  }

  /** Walking from `first`, address a is met after exactly Length(first, a)
      steps and not before: the comparison with `last` stops the loop there. */
  lemma MetAt(first: IPv4, a: IPv4, i: nat)
    requires i < SPACE
    ensures StepFrom(first, i) == a <==> i == Length(Sequence(first, a))
  {
    StepInt(first, i);
    StepInt(a, 0);
    WrapArithmetic(ToInt(first), ToInt(a), i);
    SameIntSameAddress(StepFrom(first, i), a);
  }

  lemma VisitedPrefix(s: Sequence, i: nat)
    requires i < Length(s)
    ensures Visited(s)[..i + 1] == Visited(s)[..i] + [StepFrom(s.first, i)]
  {
  }

  /** A range-based loop that has n addresses behind it stands at `value`. */
  ghost predicate Stands(s: Sequence, value: IPv4, n: nat) {
    && n <= Length(s) && value == StepFrom(s.first, n)
    && (value == s.last <==> n == Length(s))
  }

  lemma LoopStarts(s: Sequence)
    ensures Stands(s, s.first, 0)
  {
    StepSuccessor(s.first, 0);
    MetAt(s.first, s.last, 0);
  }

  /** One iteration visits the next address of the enumeration and moves on. */
  lemma LoopAdvances(s: Sequence, value: IPv4, n: nat)
    requires Stands(s, value, n) && value != s.last
    ensures Visited(s)[..n + 1] == Visited(s)[..n] + [value]
    ensures Stands(s, Successor(value), n + 1)
  {
    VisitedPrefix(s, n);
    StepSuccessor(s.first, n);
    MetAt(s.first, s.last, n + 1);
  }

  /** `Sequence::to`: the range-based loop. */
  method Collect(s: Sequence) returns (c: seq<IPv4>)
    ensures c == Visited(s)
  {
    c := [];
    var it := new Iterator(s.first);
    LoopStarts(s);
    ghost var n := 0;
    while it.value != s.last
      invariant Stands(s, it.value, n)
      invariant c == Visited(s)[..n]
      decreases Length(s) - n
    {
      LoopAdvances(s, it.value, n);
      c := c + [it.value];
      it.Increment();
      n := n + 1;
    }
  }

  datatype Bound = Inclusive(value: IPv4) | Exclusive(value: IPv4) {
    /** `operator()` of either wrapper increments. */
    function Advanced(): Bound {
      this.(value := Successor(value))
    }
  }

  method RangeOf(begin: IPv4, end: IPv4) returns (s: Sequence)
    ensures s == Sequence(begin, end)
  {
    s := Sequence(begin, end);
  }

  /** The first and the past-the-end address a wrapper stands for. */
  function BeginOf(b: Bound): IPv4 {
    if b.Exclusive? then Successor(b.value) else b.value
  }

  function EndOf(e: Bound): IPv4 {
    if e.Inclusive? then Successor(e.value) else e.value
  }

  method RangeOfBounds(begin: Bound, end: Bound) returns (s: Sequence)
    ensures s == Sequence(BeginOf(begin), EndOf(end))
  {
    var b, e := begin, end;
    if b.Exclusive? {
      b := b.Advanced();
    }
    if e.Inclusive? {
      e := e.Advanced();
    }
    s := Sequence(b.value, e.value);
  }

  /** Moving either end by one step changes what is visited. */
  lemma OneStepDiffers(a: IPv4, b: IPv4)
    ensures Visited(Sequence(Successor(a), b)) != Visited(Sequence(a, b))
    ensures Visited(Sequence(b, Successor(a))) != Visited(Sequence(b, a))
  {
    StepInt(a, 1);
    StepInt(b, 1);
    WrapArithmetic(ToInt(a), ToInt(b), 1);
    WrapArithmetic(ToInt(b), ToInt(a), 1);
    WrapArithmetic(ToInt(Successor(a)), ToInt(b), 1);
    WrapArithmetic(ToInt(b), ToInt(Successor(a)), 1);
    assert Length(Sequence(Successor(a), b)) != Length(Sequence(a, b));
    assert Length(Sequence(b, Successor(a))) != Length(Sequence(b, a));
  }

  /** The mixed overloads call the wrapper whichever it is. */
  method RangeFromBound(begin: Bound, end: IPv4) returns (s: Sequence)
    ensures s == Sequence(Successor(begin.value), end)
    ensures Visited(s) == Visited(Sequence(BeginOf(begin), end)) <==> begin.Exclusive?
  {
    var b := begin.Advanced();
    s := Sequence(b.value, end);
    OneStepDiffers(begin.value, end);
  }

  method RangeToBound(begin: IPv4, end: Bound) returns (s: Sequence)
    ensures s == Sequence(begin, Successor(end.value))
    ensures Visited(s) == Visited(Sequence(begin, EndOf(end))) <==> end.Inclusive?
  {
    var e := end.Advanced();
    s := Sequence(begin, e.value);
    OneStepDiffers(end.value, begin);
  }

  /** Each visited address once, from the first on and each followed by its
      successor, and exactly those whose offset from the first is below the length
      of the range. */
  lemma VisitedMembers(s: Sequence, a: IPv4)
    ensures forall i, j :: 0 <= i < j < Length(s) ==> Visited(s)[i] != Visited(s)[j]
    ensures Visited(s) != [] ==> Visited(s)[0] == s.first
    ensures forall i :: 0 < i < Length(s) ==> Visited(s)[i] == Successor(Visited(s)[i - 1])
    ensures a in Visited(s) <==> Length(Sequence(s.first, a)) < Length(s)
  {
    forall i, j | 0 <= i < j < Length(s) ensures Visited(s)[i] != Visited(s)[j] {
      MetAt(s.first, StepFrom(s.first, i), i);
      MetAt(s.first, StepFrom(s.first, i), j);
    }
    StepSuccessor(s.first, 0);
    forall i | 0 < i < Length(s) ensures Visited(s)[i] == Successor(Visited(s)[i - 1]) {
      StepSuccessor(s.first, i - 1);
    }
    var k := Length(Sequence(s.first, a));
    MetAt(s.first, a, k);
    if k < Length(s) {
      assert Visited(s)[k] == a;
    }
    forall i | 0 <= i < Length(s) && Visited(s)[i] == a ensures i == k {
      MetAt(s.first, a, i);
    }
  }

  lemma InclusiveArithmetic(b: nat, e: nat, x: nat)
    requires b < SPACE && e < SPACE && x < SPACE
    ensures var last := (e + 1) % SPACE;
            var n := (last - b) % SPACE;
            && n == (e + 1 - b) % SPACE
            && (b <= e && e - b != SPACE - 1 ==> ((x - b) % SPACE < n <==> b <= x <= e))
            && (n == 0 <==> last == b)
  {
    var last := (e + 1) % SPACE;
    assert last == if e == SPACE - 1 then 0 else e + 1;
    WrapArithmetic(b, last, 0);
    WrapArithmetic(b, x, 0);
    if e + 1 - b == SPACE {
    } else if b <= e + 1 {
      assert (e + 1 - b) % SPACE == e + 1 - b;
    } else {
      assert (e + 1 - b) % SPACE == e + 1 - b + SPACE;
    }
  }

  /** rangeOf(begin, Inclusive(end)) visits a exactly when a's offset from begin
      is below (end + 1 - begin) mod 2^32. In order, that is begin <= a <= end,
      except that the whole space comes out empty. */
  lemma InclusiveRange(begin: IPv4, end: IPv4, a: IPv4)
    ensures var v := Visited(Sequence(begin, Successor(end)));
            && |v| == (ToInt(end) + 1 - ToInt(begin)) % SPACE
            && (a in v <==> (ToInt(a) - ToInt(begin)) % SPACE < |v|)
            && (ToInt(begin) <= ToInt(end) && ToInt(end) - ToInt(begin) != SPACE - 1 ==>
                  (a in v <==> ToInt(begin) <= ToInt(a) <= ToInt(end)))
            && (v == [] <==> Successor(end) == begin)
  {
    hide ToInt, StepFrom, Successor;
    var s := Sequence(begin, Successor(end));
    VisitedMembers(s, a);
    StepInt(end, 1);
    StepInt(begin, 1);
    StepInt(a, 1);
    InclusiveArithmetic(ToInt(begin), ToInt(end), ToInt(a));
    SameIntSameAddress(Successor(end), begin);
  }
}
