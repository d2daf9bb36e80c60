/** Walking the depth of a book: the volume-weighted price of a quantity, and why greedy is optimal. */
module Depth {
  import opened Common

  datatype Level = Level(price: real, available: real)

  datatype Error = QuantityNotPositive | LevelNotPositive | InsufficientDepth

  function Pay(quantity: real, price: real): real {
    quantity * price
  }

  /** Takes the levels in order until nothing remains. */
  function Walk(levels: seq<Level>, remaining: real, notional: real): Result<real, Error>
    decreases |levels|
  {
    if levels == [] then Failure(InsufficientDepth)
    else if levels[0].price <= 0.0 || levels[0].available <= 0.0 then Failure(LevelNotPositive)
    else
      var fill := Min(remaining, levels[0].available);
      var paid := notional + Pay(fill, levels[0].price);
      if remaining - fill == 0.0 then Success(paid) else Walk(levels[1..], remaining - fill, paid)
  }

  function Vwap(levels: seq<Level>, quantity: real): Result<real, Error> {
    if quantity <= 0.0 then Failure(QuantityNotPositive)
    else
      var notional :- Walk(levels, quantity, 0.0);
      Success(notional / quantity)
  }

  method ComputeVwap(levels: seq<Level>, quantity: real) returns (r: Result<real, Error>)
    ensures r == Vwap(levels, quantity)
  {
    if quantity <= 0.0 {
      return Failure(QuantityNotPositive);
    }
    var remaining, notional := quantity, 0.0;
    for i := 0 to |levels|
      invariant Walk(levels[i..], remaining, notional) == Walk(levels, quantity, 0.0)
    {
      assert levels[i..][0] == levels[i] && levels[i..][1..] == levels[i + 1..];
      if levels[i].price <= 0.0 || levels[i].available <= 0.0 {
        return Failure(LevelNotPositive);
      }
      var fill := Min(remaining, levels[i].available);
      notional := notional + Pay(fill, levels[i].price);
      remaining := remaining - fill;
      if remaining == 0.0 {
        return Success(notional / quantity);
      }
    }
    return Failure(InsufficientDepth);
  }

  // ---------- Depth and cost ----------

  predicate Positive(levels: seq<Level>) {
    forall i :: 0 <= i < |levels| ==> levels[i].price > 0.0 && levels[i].available > 0.0
  }

  predicate Available(levels: seq<Level>) {
    forall i :: 0 <= i < |levels| ==> levels[i].available > 0.0
  }

  predicate Ascending(levels: seq<Level>) {
    forall i, j :: 0 <= i < j < |levels| ==> levels[i].price <= levels[j].price
  }

  predicate Descending(levels: seq<Level>) {
    forall i, j :: 0 <= i < j < |levels| ==> levels[i].price >= levels[j].price
  }

  function Total(levels: seq<Level>): real {
    if levels == [] then 0.0 else levels[0].available + Total(levels[1..])
  }

  /** Notional of the greedy walk. */
  function Greedy(levels: seq<Level>, quantity: real): real {
    if levels == [] then 0.0
    else
      var fill := Min(quantity, levels[0].available);
      Pay(fill, levels[0].price) + Greedy(levels[1..], quantity - fill)
  }

  lemma {:induction false} TotalIsPositive(levels: seq<Level>)
    requires Available(levels)
    ensures Total(levels) >= 0.0 && (levels != [] ==> Total(levels) >= levels[0].available)
  {
    if levels != [] {
      TotalIsPositive(levels[1..]);
    }
  }

  lemma {:induction false} GreedyOfNothing(levels: seq<Level>)
    requires Available(levels)
    ensures Greedy(levels, 0.0) == 0.0
  {
    if levels != [] {
      GreedyOfNothing(levels[1..]);
      assert Min(0.0, levels[0].available) == 0.0;
      assert Pay(0.0, levels[0].price) == 0.0;
    }
  }

  /** On positive levels the walk succeeds exactly when the depth suffices, and then pays the greedy cost. */
  lemma {:induction false} WalkSucceedsExactly(levels: seq<Level>, remaining: real, notional: real)
    requires Positive(levels) && remaining > 0.0
    ensures Walk(levels, remaining, notional).Success? <==> remaining <= Total(levels)
    ensures Walk(levels, remaining, notional).Failure? ==> Walk(levels, remaining, notional).error.InsufficientDepth?
    ensures Walk(levels, remaining, notional).Success? ==> Walk(levels, remaining, notional).value == notional + Greedy(levels, remaining)
    decreases |levels|
  {
    if levels != [] {
      var fill := Min(remaining, levels[0].available);
      if remaining - fill == 0.0 {
        TotalIsPositive(levels);
        GreedyOfNothing(levels[1..]);
        assert Greedy(levels[1..], remaining - fill) == 0.0;
      } else {
        WalkSucceedsExactly(levels[1..], remaining - fill, notional + Pay(fill, levels[0].price));
      }
    }
  }

  // ---------- Optimality ----------

  /** Some way of drawing a quantity from the levels. */
  ghost predicate Allocates(levels: seq<Level>, x: seq<real>, quantity: real) {
    && |x| == |levels| && (forall i :: 0 <= i < |x| ==> 0.0 <= x[i] <= levels[i].available)
    && Sum(x) == quantity
  }

  function Sum(x: seq<real>): real {
    if x == [] then 0.0 else x[0] + Sum(x[1..])
  }

  function Cost(levels: seq<Level>, x: seq<real>): real
    requires |x| == |levels|
  {
    if x == [] then 0.0 else Pay(x[0], levels[0].price) + Cost(levels[1..], x[1..])
  }

  lemma {:induction false} AllocationFits(levels: seq<Level>, x: seq<real>)
    requires |x| == |levels| && forall i :: 0 <= i < |x| ==> 0.0 <= x[i] <= levels[i].available
    ensures 0.0 <= Sum(x) <= Total(levels)
  {
    if x != [] {
      AllocationFits(levels[1..], x[1..]);
    }
  }

  lemma {:induction false} PaySplits(a: real, b: real, p: real)
    ensures Pay(a + b, p) == Pay(a, p) + Pay(b, p)
    ensures Pay(a - b, p) == Pay(a, p) - Pay(b, p)
  {
    Distribute(a, b, p);
  }

  lemma {:induction false} PayGrows(q: real, p: real, p0: real)
    requires q >= 0.0 && p <= p0
    ensures Pay(q, p) <= Pay(q, p0)
  {
    if q > 0.0 {
      MulLess(p, p0, q);
    }
  }

  lemma {:induction false} GreedyWithin(levels: seq<Level>, q: real)
    requires Available(levels) && levels != [] && 0.0 <= q <= levels[0].available
    ensures Greedy(levels, q) == Pay(q, levels[0].price)
  {
    GreedyOfNothing(levels[1..]);
    assert Min(q, levels[0].available) == q;
    assert Greedy(levels[1..], q - q) == 0.0;
  }

  lemma {:induction false} GreedyBeyond(levels: seq<Level>, q: real)
    requires levels != [] && q >= levels[0].available
    ensures Greedy(levels, q) == Pay(levels[0].available, levels[0].price) + Greedy(levels[1..], q - levels[0].available)
  {
    assert Min(q, levels[0].available) == levels[0].available;
  }

  /** From inside the first level to beyond it. */
  lemma {:induction false} MarginalAcross(available: real, p0: real, p: real, a: real, d: real, rest: real)
    requires p0 >= p && 0.0 <= a <= available <= a + d && rest >= Pay(a + d - available, p)
    ensures Pay(available, p0) + rest >= Pay(a, p0) + Pay(d, p)
  {
    var inside := available - a;
    PaySplits(available, a, p0);
    PayGrows(inside, p, p0);
    PaySplits(inside, a + d - available, p);
    assert inside + (a + d - available) == d;
  }

  /** More quantity costs at least the cheapest price of what is left, per unit. */
  lemma {:induction false} GreedyMarginal(levels: seq<Level>, a: real, d: real, p: real)
    requires Available(levels) && forall i :: 0 <= i < |levels| ==> levels[i].price >= p
    requires a >= 0.0 && d >= 0.0 && a + d <= Total(levels)
    ensures Greedy(levels, a + d) >= Greedy(levels, a) + Pay(d, p)
    decreases |levels|
  {
    if levels == [] {
      assert Pay(0.0, p) == 0.0;
    } else {
      var p0, available, rest := levels[0].price, levels[0].available, levels[1..];
      if a >= available {
        GreedyBeyond(levels, a);
        GreedyBeyond(levels, a + d);
        assert a + d - available == (a - available) + d;
        GreedyMarginal(rest, a - available, d, p);
      } else if a + d <= available {
        GreedyWithin(levels, a);
        GreedyWithin(levels, a + d);
        PaySplits(a, d, p0);
        PayGrows(d, p, p0);
      } else {
        var more := a + d - available;
        GreedyWithin(levels, a);
        GreedyBeyond(levels, a + d);
        GreedyOfNothing(rest);
        GreedyMarginal(rest, 0.0, more, p);
        assert 0.0 + more == more;
        MarginalAcross(available, p0, p, a, d, Greedy(rest, more));
      }
    }
  }

  /** Drawing in ascending price order is optimal: no other allocation of the quantity is cheaper. */
  lemma {:induction false} GreedyIsCheapest(levels: seq<Level>, x: seq<real>, quantity: real)
    requires Available(levels) && Ascending(levels) && Allocates(levels, x, quantity)
    ensures Cost(levels, x) >= Greedy(levels, quantity)
    decreases |levels|
  {
    if levels != [] {
      var p, available, rest := levels[0].price, levels[0].available, levels[1..];
      var f := Min(quantity, available);
      AllocationFits(rest, x[1..]);
      GreedyIsCheapest(rest, x[1..], quantity - x[0]);
      GreedyMarginal(rest, quantity - f, f - x[0], p);
      assert (quantity - f) + (f - x[0]) == quantity - x[0];
      PaySplits(f, x[0], p);
    }
  }

  // ---------- Selling: the same argument on negated prices ----------

  function Negate(levels: seq<Level>): (r: seq<Level>)
    ensures |r| == |levels| && forall i :: 0 <= i < |levels| ==> r[i] == Level(-levels[i].price, levels[i].available)
  {
    seq(|levels|, i requires 0 <= i < |levels| => Level(-levels[i].price, levels[i].available))
  }

  lemma {:induction false} NegateTail(levels: seq<Level>)
    requires levels != []
    ensures Negate(levels)[1..] == Negate(levels[1..])
  {
  }

  lemma {:induction false} NegatedGreedy(levels: seq<Level>, q: real)
    ensures Greedy(Negate(levels), q) == -Greedy(levels, q)
    decreases |levels|
  {
    if levels != [] {
      var f := Min(q, levels[0].available);
      NegateTail(levels);
      NegatedGreedy(levels[1..], q - f);
      assert Pay(f, -levels[0].price) == -Pay(f, levels[0].price);
    }
  }

  lemma {:induction false} NegatedCost(levels: seq<Level>, x: seq<real>)
    requires |x| == |levels|
    ensures Cost(Negate(levels), x) == -Cost(levels, x)
    decreases |levels|
  {
    if levels != [] {
      NegateTail(levels);
      NegatedCost(levels[1..], x[1..]);
      assert Pay(x[0], -levels[0].price) == -Pay(x[0], levels[0].price);
    }
  }

  /** Selling into descending bids: no other allocation of the quantity earns more. */
  lemma {:induction false} GreedyIsDearest(levels: seq<Level>, x: seq<real>, quantity: real)
    requires Available(levels) && Descending(levels) && Allocates(levels, x, quantity)
    ensures Cost(levels, x) <= Greedy(levels, quantity)
  {
    NegatedGreedy(levels, quantity);
    NegatedCost(levels, x);
    GreedyIsCheapest(Negate(levels), x, quantity);
  }

  // ---------- Average price and quantity ----------

  function GreedyAllocation(levels: seq<Level>, q: real): (x: seq<real>)
    ensures |x| == |levels|
  {
    if levels == [] then []
    else
      var f := Min(q, levels[0].available);
      [f] + GreedyAllocation(levels[1..], q - f)
  }

  lemma {:induction false} GreedyAllocates(levels: seq<Level>, q: real)
    requires Available(levels) && 0.0 <= q <= Total(levels)
    ensures Allocates(levels, GreedyAllocation(levels, q), q)
    ensures Cost(levels, GreedyAllocation(levels, q)) == Greedy(levels, q)
    decreases |levels|
  {
    if levels != [] {
      var f := Min(q, levels[0].available);
      TotalIsPositive(levels[1..]);
      GreedyAllocates(levels[1..], q - f);
      var x := GreedyAllocation(levels, q);
      assert x[1..] == GreedyAllocation(levels[1..], q - f);
    }
  }

  function Scale(x: seq<real>, t: real): (y: seq<real>)
    ensures |y| == |x| && forall i :: 0 <= i < |x| ==> y[i] == Pay(x[i], t)
  {
    seq(|x|, i requires 0 <= i < |x| => Pay(x[i], t))
  }

  lemma {:induction false} PayCommutes(x: real, t: real, p: real)
    ensures Pay(Pay(x, t), p) == Pay(Pay(x, p), t)
  {
  }

  lemma {:induction false} ScaledSum(x: seq<real>, t: real)
    ensures Sum(Scale(x, t)) == Pay(Sum(x), t)
  {
    if x != [] {
      ScaledSum(x[1..], t);
      assert Scale(x, t)[1..] == Scale(x[1..], t);
      PaySplits(x[0], Sum(x[1..]), t);
    }
  }

  lemma {:induction false} ScaledCost(levels: seq<Level>, x: seq<real>, t: real)
    requires |x| == |levels|
    ensures Cost(levels, Scale(x, t)) == Pay(Cost(levels, x), t)
    decreases |levels|
  {
    if x != [] {
      ScaledCost(levels[1..], x[1..], t);
      assert Scale(x, t)[1..] == Scale(x[1..], t);
      PayCommutes(x[0], t, levels[0].price);
      PaySplits(Pay(x[0], levels[0].price), Cost(levels[1..], x[1..]), t);
    }
  }

  lemma {:induction false} ScaledEntry(x: real, available: real, t: real)
    requires 0.0 <= x <= available && 0.0 <= t <= 1.0
    ensures 0.0 <= Pay(x, t) <= available
  {
    PayGrows(x, t, 1.0);
    PayGrows(x, 0.0, t);
  }

  /** A part of a greedy draw, scaled down from a larger one, is no cheaper than drawing it greedily. */
  lemma {:induction false} PartOfLarger(levels: seq<Level>, small: real, large: real, t: real)
    requires Available(levels) && Ascending(levels)
    requires 0.0 <= large <= Total(levels) && 0.0 <= t <= 1.0 && small == Pay(large, t)
    ensures Greedy(levels, small) <= Pay(Greedy(levels, large), t)
  {
    var x := GreedyAllocation(levels, large);
    GreedyAllocates(levels, large);
    var y := Scale(x, t);
    ScaledSum(x, t);
    ScaledCost(levels, x, t);
    forall i | 0 <= i < |y|
      ensures 0.0 <= y[i] <= levels[i].available
    {
      ScaledEntry(x[i], levels[i].available, t);
    }
    GreedyIsCheapest(levels, y, small);
  }

  lemma {:induction false} DivideBoth(g1: real, g2: real, q1: real, q2: real)
    requires 0.0 < q1 && 0.0 < q2 && g1 <= Pay(g2, q1 / q2)
    ensures g1 / q1 <= g2 / q2
  {
    var t, r := q1 / q2, g2 / q2;
    assert r * q2 == g2 && t * q2 == q1;
    assert Pay(g2, t) == r * q1;
    var a := g1 / q1;
    assert a * q1 == g1;
    if a > r {
      MulLess(r, a, q1);
    }
  }

  // ---------- The price of a book ----------

  /** On positive levels a price exists exactly when the depth suffices. */
  lemma {:induction false} VwapSucceedsExactly(levels: seq<Level>, quantity: real)
    requires Positive(levels) && quantity > 0.0
    ensures Vwap(levels, quantity).Success? <==> quantity <= Total(levels)
    ensures Vwap(levels, quantity).Success? ==> Vwap(levels, quantity).value == Greedy(levels, quantity) / quantity
  {
    WalkSucceedsExactly(levels, quantity, 0.0);
  }

  lemma {:induction false} AverageTimesQuantity(g: real, q: real)
    requires q > 0.0
    ensures Pay(q, g / q) == g
  {
  }

  /** The walk is optimal: no allocation buys cheaper from ascending asks or sells dearer into descending bids. */
  lemma {:induction false} VwapIsOptimal(levels: seq<Level>, quantity: real, x: seq<real>)
    requires Positive(levels) && quantity > 0.0 && Allocates(levels, x, quantity)
    ensures Vwap(levels, quantity).Success?
    ensures Ascending(levels) ==> Pay(quantity, Vwap(levels, quantity).value) <= Cost(levels, x)
    ensures Descending(levels) ==> Pay(quantity, Vwap(levels, quantity).value) >= Cost(levels, x)
  {
    AllocationFits(levels, x);
    VwapSucceedsExactly(levels, quantity);
    AverageTimesQuantity(Greedy(levels, quantity), quantity);
    if Ascending(levels) {
      GreedyIsCheapest(levels, x, quantity);
    }
    if Descending(levels) {
      GreedyIsDearest(levels, x, quantity);
    }
  }

  lemma {:induction false} RatioOf(small: real, large: real)
    requires 0.0 < small <= large
    ensures 0.0 <= small / large <= 1.0 && Pay(large, small / large) == small
  {
  }

  lemma {:induction false} GreedyAverageGrows(levels: seq<Level>, small: real, large: real)
    requires Available(levels) && Ascending(levels) && 0.0 < small <= large <= Total(levels)
    ensures Greedy(levels, small) / small <= Greedy(levels, large) / large
  {
    RatioOf(small, large);
    PartOfLarger(levels, small, large, small / large);
    DivideBoth(Greedy(levels, small), Greedy(levels, large), small, large);
  }

  /** The average ask price never falls as the quantity grows. */
  lemma {:induction false} AskVwapNeverFalls(levels: seq<Level>, small: real, large: real)
    requires Positive(levels) && Ascending(levels) && 0.0 < small <= large <= Total(levels)
    ensures Vwap(levels, small).Success? && Vwap(levels, large).Success?
    ensures Vwap(levels, small).value <= Vwap(levels, large).value
  {
    VwapSucceedsExactly(levels, small);
    VwapSucceedsExactly(levels, large);
    GreedyAverageGrows(levels, small, large);
  }

  // ---------- Books with bad levels ----------

  /** The levels before the first that is not positive. */
  function Sound(levels: seq<Level>): (r: seq<Level>)
    ensures Positive(r) && r <= levels
  {
    if levels == [] || levels[0].price <= 0.0 || levels[0].available <= 0.0 then [] else [levels[0]] + Sound(levels[1..])
  }

  lemma {:induction false} WalkStaysSound(levels: seq<Level>, remaining: real, notional: real)
    requires remaining > 0.0
    ensures Walk(Sound(levels), remaining, notional).Success? ==> Walk(levels, remaining, notional) == Walk(Sound(levels), remaining, notional)
    ensures Walk(Sound(levels), remaining, notional).Failure? ==>
              Walk(levels, remaining, notional) == Failure(if Sound(levels) == levels then InsufficientDepth else LevelNotPositive)
    decreases |levels|
  {
    if Sound(levels) != [] {
      var fill := Min(remaining, levels[0].available);
      assert Sound(levels)[1..] == Sound(levels[1..]);
      assert Sound(levels) == levels <==> Sound(levels[1..]) == levels[1..] by {
        assert levels == [levels[0]] + levels[1..];
      }
      if remaining - fill != 0.0 {
        WalkStaysSound(levels[1..], remaining - fill, notional + Pay(fill, levels[0].price));
      }
    }
  }

  /** On any levels: a price exists if and only if the quantity is positive and the sound levels at the front suffice,
      and it is their price; otherwise the first bad level, or the missing depth, is the error. */
  lemma {:induction false} VwapOnAnyLevels(levels: seq<Level>, quantity: real)
    ensures Vwap(levels, quantity).Success? <==> quantity > 0.0 && quantity <= Total(Sound(levels))
    ensures Vwap(levels, quantity).Success? ==> Vwap(levels, quantity) == Vwap(Sound(levels), quantity)
    ensures quantity > 0.0 && Vwap(levels, quantity).Failure? ==>
              Vwap(levels, quantity).error == if Sound(levels) == levels then InsufficientDepth else LevelNotPositive
    ensures quantity <= 0.0 ==> Vwap(levels, quantity) == Failure(QuantityNotPositive)
  {
    if quantity > 0.0 {
      WalkStaysSound(levels, quantity, 0.0);
      WalkSucceedsExactly(Sound(levels), quantity, 0.0);
    }
  }
}
