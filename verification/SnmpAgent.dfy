/** An SNMP agent that answers GETBULK after section 4.2.3 of RFC 3416. */
module SnmpAgent {
  import opened LexOrder

  type Oid = seq<nat>

  /** Values are opaque; endOfMibView is the one syntax the client looks at. */
  datatype Value = Data(v: int) | EndOfMibView

  /** `valid` is the library's own verdict on the binding. */
  datatype Vb = Vb(oid: Oid, value: Value, valid: bool)

  datatype Instance = Instance(oid: Oid, v: int)

  type Mib = seq<Instance>

  ghost predicate Sorted(mib: Mib) {
    forall i, j :: 0 <= i < j < |mib| ==> Less(mib[i].oid, mib[j].oid)
  }

  /** The first instance after `oid`, or |mib|. */
  function NextIndex(mib: Mib, oid: Oid): (n: nat)
    ensures n <= |mib|
  {
    if mib == [] || Less(oid, mib[0].oid) then 0 else 1 + NextIndex(mib[1..], oid)
  }

  /** One repeater: each repetition names the successor of the one before; past
      the last instance the name stays and the value is endOfMibView. */
  function GetBulk(mib: Mib, oid: Oid, repetitions: nat): (r: seq<Vb>)
    ensures |r| == repetitions
    decreases repetitions
  {
    if repetitions == 0 then []
    else
      var n := NextIndex(mib, oid);
      if n < |mib|
      then [Vb(mib[n].oid, Data(mib[n].v), true)] + GetBulk(mib, mib[n].oid, repetitions - 1)
      else [Vb(oid, EndOfMibView, true)] + GetBulk(mib, oid, repetitions - 1)
  }

  lemma {:induction false} NextIndexSplits(mib: Mib, oid: Oid)
    requires Sorted(mib)
    ensures forall i :: 0 <= i < |mib| ==> (Less(oid, mib[i].oid) <==> NextIndex(mib, oid) <= i)
  {
    if mib == [] {
    } else {
      var rest := mib[1..];
      assert forall i :: 0 < i < |mib| ==> mib[i] == rest[i - 1];
      if Less(oid, mib[0].oid) {
        forall i | 0 < i < |mib| ensures Less(oid, mib[i].oid) {
          Transitive(oid, mib[0].oid, mib[i].oid);
        }
      } else {
        NextIndexSplits(rest, oid);
      }
    }
  }

  lemma NextIndexOfInstance(mib: Mib, k: nat)
    requires Sorted(mib) && k < |mib|
    ensures NextIndex(mib, mib[k].oid) == k + 1
  {
    var n := NextIndex(mib, mib[k].oid);
    NextIndexSplits(mib, mib[k].oid);
    Irreflexive(mib[k].oid);
    if k + 1 < |mib| {
      assert Less(mib[k].oid, mib[k + 1].oid);
    }
  }

  /** A reply is the next instances in order, then endOfMibView. */
  lemma {:induction false} GetBulkReply(mib: Mib, oid: Oid, n: nat, repetitions: nat)
    requires Sorted(mib) && n == NextIndex(mib, oid)
    ensures forall i :: 0 <= i < repetitions ==>
              GetBulk(mib, oid, repetitions)[i] ==
              if n + i < |mib| then Vb(mib[n + i].oid, Data(mib[n + i].v), true)
              else Vb(if n < |mib| then mib[|mib| - 1].oid else oid, EndOfMibView, true)
    decreases repetitions
  {
    hide NextIndex, Sorted;
    if repetitions == 0 {
    } else if n < |mib| {
      NextIndexOfInstance(mib, n);
      GetBulkReply(mib, mib[n].oid, n + 1, repetitions - 1);
    } else {
      GetBulkReply(mib, oid, n, repetitions - 1);
    }
  }

  predicate IsBelow(root: Oid, oid: Oid) {
    root <= oid && root != oid
  }

  /** The instances strictly below `root`, in order. */
  function Subtree(mib: Mib, root: Oid): (s: Mib) {
    if mib == [] then []
    else (if IsBelow(root, mib[0].oid) then [mib[0]] else []) + Subtree(mib[1..], root)
  }

  /** Some instance sorts after the whole subtree. */
  ghost predicate SomethingAfter(mib: Mib, root: Oid) {
    exists i :: 0 <= i < |mib| && Less(root, mib[i].oid) && !(root <= mib[i].oid)
  }

  /** In a sorted MIB the subtree is one stretch: from the first instance after
      the root to the first one after the subtree. */
  function SubtreeEnd(mib: Mib, root: Oid, from: nat): (n: nat)
    requires from <= |mib|
    ensures from <= n <= |mib|
    ensures forall i :: from <= i < n ==> root <= mib[i].oid
    ensures n < |mib| ==> !(root <= mib[n].oid)
    decreases |mib| - from
  {
    if from == |mib| || !(root <= mib[from].oid) then from else SubtreeEnd(mib, root, from + 1)
  }

  lemma {:induction false} SubtreeOfAppend(a: Mib, b: Mib, root: Oid)
    ensures Subtree(a + b, root) == Subtree(a, root) + Subtree(b, root)
  {
    hide IsBelow;
    if a == [] {
      assert a + b == b;
    } else {
      SubtreeOfAppend(a[1..], b, root);
      assert (a + b)[1..] == a[1..] + b;
      var first := if IsBelow(root, a[0].oid) then [a[0]] else [];
      assert Subtree(a, root) == first + Subtree(a[1..], root);
      assert Subtree(a + b, root) == first + Subtree(a[1..] + b, root);
    }
  }

  lemma {:induction false} SubtreeAllOrNothing(mib: Mib, root: Oid)
    ensures (forall i :: 0 <= i < |mib| ==> IsBelow(root, mib[i].oid)) ==> Subtree(mib, root) == mib
    ensures (forall i :: 0 <= i < |mib| ==> !(IsBelow(root, mib[i].oid))) ==> Subtree(mib, root) == []
  {
    if mib == [] {
    } else {
      SubtreeAllOrNothing(mib[1..], root);
      assert mib == [mib[0]] + mib[1..];
    }
  }

  lemma StretchMembers(mib: Mib, root: Oid, i: nat)
    requires Sorted(mib) && i < |mib|
    ensures var lo := NextIndex(mib, root);
            IsBelow(root, mib[i].oid) <==> lo <= i < SubtreeEnd(mib, root, lo)
  {
    var lo := NextIndex(mib, root);
    var hi := SubtreeEnd(mib, root, lo);
    NextIndexSplits(mib, root);
    Irreflexive(root);
    if IsBelow(root, mib[i].oid) {
      ExtensionIsGreater(root, mib[i].oid);
      if hi < i {
        assert Less(root, mib[hi].oid) && Less(mib[hi].oid, mib[i].oid);
        SubtreeIsInterval(root, mib[hi].oid, mib[i].oid);
      }
    }
  }

  lemma SubtreeOfThree(mib: Mib, lo: nat, hi: nat, root: Oid)
    requires lo <= hi <= |mib|
    ensures Subtree(mib, root) == Subtree(mib[..lo], root) + Subtree(mib[lo..hi], root) + Subtree(mib[hi..], root)
  {
    hide Subtree;
    SubtreeOfAppend(mib[..hi], mib[hi..], root);
    SubtreeOfAppend(mib[..lo], mib[lo..hi], root);
    assert mib[..hi] + mib[hi..] == mib;
    assert mib[..lo] + mib[lo..hi] == mib[..hi];
  }

  lemma SubtreeOfMiddle(mib: Mib, lo: nat, hi: nat, root: Oid)
    requires lo <= hi <= |mib|
    requires forall i :: 0 <= i < |mib| ==> (IsBelow(root, mib[i].oid) <==> lo <= i < hi)
    ensures Subtree(mib, root) == mib[lo..hi]
  {
    hide Subtree, IsBelow;
    SubtreeAllOrNothing(mib[..lo], root);
    SubtreeAllOrNothing(mib[lo..hi], root);
    SubtreeAllOrNothing(mib[hi..], root);
    SubtreeOfThree(mib, lo, hi, root);
  }

  lemma SomethingAfterStretch(mib: Mib, root: Oid)
    requires Sorted(mib)
    ensures SomethingAfter(mib, root) <==> SubtreeEnd(mib, root, NextIndex(mib, root)) < |mib|
  {
    var lo := NextIndex(mib, root);
    var hi := SubtreeEnd(mib, root, lo);
    NextIndexSplits(mib, root);
    if hi < |mib| {
      assert Less(root, mib[hi].oid);
    }
  }

  lemma SubtreeIsStretch(mib: Mib, root: Oid)
    requires Sorted(mib)
    ensures var lo := NextIndex(mib, root);
            var hi := SubtreeEnd(mib, root, lo);
            && Subtree(mib, root) == mib[lo..hi]
            && (SomethingAfter(mib, root) <==> hi < |mib|)
  {
    hide Less, Subtree, NextIndex, SubtreeEnd, IsBelow;
    var lo := NextIndex(mib, root);
    var hi := SubtreeEnd(mib, root, lo);
    forall i | 0 <= i < |mib| ensures IsBelow(root, mib[i].oid) <==> lo <= i < hi {
      StretchMembers(mib, root, i);
    }
    SubtreeOfMiddle(mib, lo, hi, root);
    SomethingAfterStretch(mib, root);
  }
}
