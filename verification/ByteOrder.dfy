/** Octet order conversion, as `ByteOrder::copy(x).from(a).to(b)` performs it. */
module ByteOrder {
  import opened Wrappers
  import opened Bytes

  datatype Order = LittleEndian | BigEndian

  const HOST_ORDER := LittleEndian
  const NETWORK_ORDER := BigEndian

  function Reordered(input: seq<byte>, source: Order, target: Order): (r: seq<byte>) {
    if source == target then input else Reverse(input)
  }

  /** Converting there and back is the identity, in either order, and keeps the length. */
  lemma ReorderedInverse(input: seq<byte>, source: Order, target: Order)
    ensures |Reordered(input, source, target)| == |input|
    ensures Reordered(Reordered(input, source, target), target, source) == input
  {
    ReverseTwice(input);
  }

  /** Equal orders leave every octet where it is; different ones mirror them. */
  lemma ReorderedAt(input: seq<byte>, source: Order, target: Order, i: nat)
    requires i < |input|
    ensures |Reordered(input, source, target)| == |input|
    ensures Reordered(input, source, target)[i] == input[if source == target then i else |input| - 1 - i]
  {
  }

  class CopyFrom {
    const input: seq<byte>
    var source: Option<Order>

    constructor (input: seq<byte>)
      ensures this.input == input && source == None
    {
      this.input := input;
      source := None;
    }

    method From(order: Order)
      modifies this
      ensures source == Some(order)
    {
      source := Some(order);
    }

    /** Failure stands for the exception thrown when `from` was never called. */
    method To(target: Order) returns (r: Result<seq<byte>, string>)
      ensures r.Failure? <==> source == None
      ensures r.Success? ==> r.value == Reordered(input, source.value, target)
      ensures r.Success? ==>
                && |r.value| == |input|
                && forall i :: 0 <= i < |input| ==>
                     r.value[i] == input[if source.value == target then i else |input| - 1 - i]
    {
      if source == None {
        return Failure("ByteOrder::Copy 'from' not defined");
      }
      if source.value == target {
        return Success(input);
      }
      var copy := [];
      var i := |input|;
      while i > 0
        invariant 0 <= i <= |input|
        invariant copy == Reverse(input)[..|input| - i]
      {
        i := i - 1;
        copy := copy + [input[i]];
      }
      assert copy == Reverse(input);
      return Success(copy);
    }
  }
}
