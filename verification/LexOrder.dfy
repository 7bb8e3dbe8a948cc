/** Lexicographic order on sequences of naturals. OIDs are ordered by
    sub-identifier and addresses by octet; both use this order. */
module LexOrder {
  predicate Less(a: seq<nat>, b: seq<nat>) {
    if b == [] then false
    else if a == [] then true
    else a[0] < b[0] || (a[0] == b[0] && Less(a[1..], b[1..]))
  }

  lemma {:induction false} Irreflexive(a: seq<nat>)
    ensures !Less(a, a)
  {
    if a == [] {
    } else {
      Irreflexive(a[1..]);
    }
  }

  lemma {:induction false} Transitive(a: seq<nat>, b: seq<nat>, c: seq<nat>)
    requires Less(a, b) && Less(b, c)
    ensures Less(a, c)
  {
    if a != [] && a[0] == b[0] == c[0] {
      Transitive(a[1..], b[1..], c[1..]);
    }
  }

  lemma {:induction false} Trichotomy(a: seq<nat>, b: seq<nat>)
    ensures Less(a, b) || a == b || Less(b, a)
    ensures !(Less(a, b) && Less(b, a))
  {
    if a != [] && b != [] && a[0] == b[0] {
      Trichotomy(a[1..], b[1..]);
      assert a == [a[0]] + a[1..] && b == [b[0]] + b[1..];
    }
  }

  /** A proper extension of `root` sorts after it. */
  lemma {:induction false} ExtensionIsGreater(root: seq<nat>, x: seq<nat>)
    requires root <= x && root != x
    ensures Less(root, x)
  {
    if root == [] {
    } else {
      assert root[1..] <= x[1..];
      assert root == [root[0]] + root[1..] && x == [x[0]] + x[1..];
      ExtensionIsGreater(root[1..], x[1..]);
    }
  }

  /** Between `root` and any of its extensions lie only extensions of `root`:
      the subtree of a prefix is an interval of the order. */
  lemma {:induction false} SubtreeIsInterval(root: seq<nat>, b: seq<nat>, c: seq<nat>)
    requires root <= c
    requires Less(root, b) && Less(b, c)
    ensures root <= b
  {
    if root == [] {
    } else {
      assert root[0] == c[0] == b[0];
      assert root[1..] <= c[1..];
      SubtreeIsInterval(root[1..], b[1..], c[1..]);
      assert root == [root[0]] + root[1..] && b == [b[0]] + b[1..];
    }
  }
}
