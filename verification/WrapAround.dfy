/** A counter kept between two limits of an integer type. */
module WrapAround {
  import opened Bytes

  /** The natural range of the type and the limits chosen within it. */
  datatype Limits = Limits(naturalMin: int, naturalMax: int, min: int, max: int) {
    predicate Valid() {
      naturalMin <= min <= max <= naturalMax
    }

    predicate Natural() {
      min == naturalMin && max == naturalMax
    }

    predicate Holds(v: int) {
      min <= v <= max
    }

    /** Conversion of one step beyond the natural range back into the type. */
    function Convert(v: int): (r: int)
      requires Valid() && naturalMin - 1 <= v <= naturalMax + 1
      ensures naturalMin <= r <= naturalMax
    {
      if v > naturalMax then naturalMin else if v < naturalMin then naturalMax else v
    }

    function Wrap(v: int): (r: int)
      requires Valid() && naturalMin <= v <= naturalMax
      ensures Holds(r)
    {
      if Natural() then v
      else if v < min then max
      else if v > max then min
      else v
    }

    function Up(v: int): (r: int)
      requires Valid() && Holds(v)
      ensures Holds(r)
    {
      Wrap(Convert(v + 1))
    }

    function Down(v: int): (r: int)
      requires Valid() && Holds(v)
      ensures Holds(r)
    {
      Wrap(Convert(v - 1))
    }

    function Ups(v: int, n: nat): (r: int)
      requires Valid() && Holds(v)
      ensures Holds(r)
    {
      if n == 0 then v else Up(Ups(v, n - 1))
    }

    function Downs(v: int, n: nat): (r: int)
      requires Valid() && Holds(v)
      ensures Holds(r)
    {
      if n == 0 then v else Down(Downs(v, n - 1))
    }

    function Size(): (n: nat)
      requires Valid()
      ensures n > 0
    {
      max - min + 1
    }

    /** Overflowing past `max` is seen: the type goes on above `max`, or its own
        wrap is the wanted one, or there is nowhere else to go. */
    predicate WrapsUp() {
      max < naturalMax || min == naturalMin || min == max
    }

    predicate WrapsDown() {
      min > naturalMin || max == naturalMax || min == max
    }
  }

  class WrapAround {
    const limits: Limits
    var value: int

    ghost predicate Valid()
      reads this
    {
      limits.Valid() && limits.Holds(value)
    }

    constructor Default(limits: Limits)
      requires limits.Valid()
      ensures Valid() && this.limits == limits && value == limits.min
    {
      this.limits := limits;
      value := limits.min;
    }

    constructor (limits: Limits, v: int)
      requires limits.Valid() && limits.naturalMin <= v <= limits.naturalMax
      ensures Valid() && this.limits == limits
      ensures value == if v < limits.min then limits.max else if v > limits.max then limits.min else v
    {
      this.limits := limits;
      value := limits.Wrap(v);
    }

    method SetWrapped(v: int)
      requires limits.Valid() && limits.naturalMin <= v <= limits.naturalMax
      modifies this
      ensures Valid() && value == limits.Wrap(v)
      ensures value == if v < limits.min then limits.max else if v > limits.max then limits.min else v
    {
      if limits.Natural() {
        value := v;
        return;
      }
      if v < limits.min {
        value := limits.max;
      } else if v > limits.max {
        value := limits.min;
      } else {
        value := v;
      }
    }

    method Increment()
      requires Valid()
      modifies this
      ensures Valid() && value == limits.Up(old(value))
      ensures value == if old(value) < limits.max then old(value) + 1
                       else if limits.max == limits.naturalMax && limits.min > limits.naturalMin then limits.max
                       else limits.min
    {
      value := limits.Convert(value + 1);
      SetWrapped(value);
    }

    method Decrement()
      requires Valid()
      modifies this
      ensures Valid() && value == limits.Down(old(value))
      ensures value == if old(value) > limits.min then old(value) - 1
                       else if limits.min == limits.naturalMin && limits.max < limits.naturalMax then limits.min
                       else limits.max
    {
      value := limits.Convert(value - 1);
      SetWrapped(value);
    }
  }

  lemma ModStep(x: nat, m: nat)
    requires m > 0
    ensures (x + 1) % m == if x % m + 1 == m then 0 else x % m + 1
  {
    var q, r := x / m, x % m;
    assert x == m * q + r;
    if r + 1 == m {
      assert x + 1 == m * (q + 1) + 0;
      ModUnique(x + 1, m, q + 1, 0);
    } else {
      ModUnique(x + 1, m, q, r + 1);
    }
  }

  lemma {:induction false} CyclicUps(l: Limits, v: int, n: nat)
    requires l.Valid() && l.Holds(v) && l.WrapsUp()
    ensures l.Ups(v, n) == l.min + (v - l.min + n) % l.Size()
  {
    if n == 0 {
      ModUnique(v - l.min, l.Size(), 0, v - l.min);
    } else {
      CyclicUps(l, v, n - 1);
      ModStep(v - l.min + n - 1, l.Size());
    }
  }

  lemma {:induction false} CyclicDowns(l: Limits, v: int, n: nat)
    requires l.Valid() && l.Holds(v) && l.WrapsDown()
    ensures l.Downs(v, n) == l.max - (l.max - v + n) % l.Size()
  {
    if n == 0 {
      ModUnique(l.max - v, l.Size(), 0, l.max - v);
    } else {
      CyclicDowns(l, v, n - 1);
      ModStep(l.max - v + n - 1, l.Size());
    }
  }

  /** Otherwise the counter sticks at the natural bound. */
  lemma {:induction false} Sticks(l: Limits, n: nat)
    requires l.Valid()
    ensures !l.WrapsUp() ==> l.Ups(l.max, n) == l.max
    ensures !l.WrapsDown() ==> l.Downs(l.min, n) == l.min
  {
    if n == 0 {
    } else {
      Sticks(l, n - 1);
    }
  }

  /** n increments are n steps round the cycle, from every value and for every
      n, exactly when WrapsUp holds; decrements exactly when WrapsDown holds. */
  lemma CyclicExactly(l: Limits)
    requires l.Valid()
    ensures (forall v, n: nat :: l.Holds(v) ==> l.Ups(v, n) == l.min + (v - l.min + n) % l.Size()) <==> l.WrapsUp()
    ensures (forall v, n: nat :: l.Holds(v) ==> l.Downs(v, n) == l.max - (l.max - v + n) % l.Size()) <==> l.WrapsDown()
  {
    if l.WrapsUp() {
      forall v, n: nat | l.Holds(v) ensures l.Ups(v, n) == l.min + (v - l.min + n) % l.Size() {
        CyclicUps(l, v, n);
      }
    } else {
      Sticks(l, 1);
      ModUnique(l.Size(), l.Size(), 1, 0);
      assert l.Holds(l.max) && l.Ups(l.max, 1) != l.min + (l.max - l.min + 1) % l.Size();
    }
    if l.WrapsDown() {
      forall v, n: nat | l.Holds(v) ensures l.Downs(v, n) == l.max - (l.max - v + n) % l.Size() {
        CyclicDowns(l, v, n);
      }
    } else {
      Sticks(l, 1);
      ModUnique(l.Size(), l.Size(), 1, 0);
      assert l.Holds(l.min) && l.Downs(l.min, 1) != l.max - (l.max - l.min + 1) % l.Size();
    }
  }

  lemma {:induction false} FirstStep(l: Limits, v: int, n: nat)
    requires l.Valid() && l.Holds(v) && n > 0
    ensures l.Ups(v, n) == l.Ups(l.Up(v), n - 1)
    ensures l.Downs(v, n) == l.Downs(l.Down(v), n - 1)
  {
    if n == 1 {
    } else {
      FirstStep(l, v, n - 1);
    }
  }

  lemma OneStepInverse(l: Limits, v: int)
    requires l.Valid() && l.Holds(v) && l.WrapsUp() && l.WrapsDown()
    ensures l.Down(l.Up(v)) == v && l.Up(l.Down(v)) == v
  {
  }

  /** Where both laws hold, n steps one way and n the other cancel. */
  lemma {:induction false} UpsDownsInverse(l: Limits, v: int, n: nat)
    requires l.Valid() && l.Holds(v) && l.WrapsUp() && l.WrapsDown()
    ensures l.Downs(l.Ups(v, n), n) == v && l.Ups(l.Downs(v, n), n) == v
  {
    hide Limits.Up, Limits.Down, Limits.WrapsUp, Limits.WrapsDown;
    if n == 0 {
    } else {
      var u, d := l.Ups(v, n - 1), l.Downs(v, n - 1);
      OneStepInverse(l, u);
      OneStepInverse(l, d);
      FirstStep(l, l.Up(u), n);
      FirstStep(l, l.Down(d), n);
      UpsDownsInverse(l, v, n - 1);
    }
  }
}
