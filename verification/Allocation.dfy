/**
 The quantities the matching loop takes from a sorted opposing book, and why no other way of
 filling the same order does better.
 */
module Allocation {
  import opened Common

  /** One opposing order as the loop sees it: its price and what is left of it. */
  datatype Level = Level(price: real, depth: real)

  function Room(level: Level): real {
    Max(level.depth, 0.0)
  }

  function Zeros(n: nat): (zeros: seq<real>)
    ensures |zeros| == n
  {
    seq(n, _ => 0.0)
  }

  predicate Affordable(levels: seq<Level>, cap: Option<real>, spent: real) {
    cap.Some? ==> spent <= cap.value && forall i :: 0 <= i < |levels| ==> levels[i].price >= 0.0
  }

  /** The loop over the book: skip what is already filled, take what is wanted, and under a budget cap shrink the
      fill to what the rest of the budget buys. A zero want or an empty budget ends the loop. */
  function Allocate(levels: seq<Level>, want: real, cap: Option<real>, spent: real): (alloc: seq<real>)
    requires Affordable(levels, cap, spent)
    ensures |alloc| == |levels|
  {
    if levels == [] then []
    else if want == 0.0 then Zeros(|levels|)
    else
      var price, depth := levels[0].price, levels[0].depth;
      if depth <= 0.0 then [0.0] + Allocate(levels[1..], want, cap, spent)
      else
        var q := Min(want, depth);
        if cap.Some? && spent + Pay(q, price) > cap.value then
          var part := (cap.value - spent) / price;
          if part <= 0.0 then Zeros(|levels|)
          else [part] + Allocate(levels[1..], want - part, cap, spent + Pay(part, price))
        else [q] + Allocate(levels[1..], want - q, cap, spent + Pay(q, price))
  }

  function Quantity(alloc: seq<real>): real {
    if alloc == [] then 0.0 else alloc[0] + Quantity(alloc[1..])
  }

  function Cost(levels: seq<Level>, alloc: seq<real>): real
    requires |levels| == |alloc|
  {
    if alloc == [] then 0.0 else Pay(alloc[0], levels[0].price) + Cost(levels[1..], alloc[1..])
  }

  function Depth(levels: seq<Level>): real {
    if levels == [] then 0.0 else Room(levels[0]) + Depth(levels[1..])
  }

  /** Any way at all of buying from (or selling into) the book. */
  ghost predicate Feasible(levels: seq<Level>, alloc: seq<real>) {
    && |alloc| == |levels|
    && forall i :: 0 <= i < |alloc| ==> 0.0 <= alloc[i] <= Room(levels[i])
  }

  ghost predicate Ascending(levels: seq<Level>) {
    forall i, j :: 0 <= i < j < |levels| ==> levels[i].price <= levels[j].price
  }

  ghost predicate Descending(levels: seq<Level>) {
    forall i, j :: 0 <= i < j < |levels| ==> levels[i].price >= levels[j].price
  }

  lemma {:induction false} ZerosAreNothing(levels: seq<Level>)
    ensures Quantity(Zeros(|levels|)) == 0.0
    ensures Cost(levels, Zeros(|levels|)) == 0.0
  {
    if levels != [] {
      ZerosAreNothing(levels[1..]);
      assert Zeros(|levels|)[1..] == Zeros(|levels[1..]|);
    }
  }

  lemma {:induction false} AllFull(levels: seq<Level>, a: seq<real>, x: seq<real>)
    requires Feasible(levels, x)
    requires |a| == |levels| && forall i :: 0 <= i < |a| ==> a[i] == Room(levels[i])
    ensures Quantity(a) == Depth(levels)
    ensures Quantity(x) <= Quantity(a)
  {
    if a != [] {
      AllFull(levels[1..], a[1..], x[1..]);
    }
  }

  /** Why a round takes less than the whole level, or none of it. */
  predicate Short(want: real, cap: Option<real>, spent: real, t: real, price: real) {
    t == want || (cap.Some? && spent + Pay(t, price) == cap.value && price > 0.0)
  }

  /** How much of a level a round takes, and whether the loop goes on after it. */
  predicate Taken(level: Level, want: real, cap: Option<real>, spent: real, t: real, goesOn: bool) {
    if want == 0.0 then !goesOn && t == 0.0
    else if level.depth <= 0.0 then goesOn && t == 0.0
    else if cap.Some? && spent + Pay(Min(want, level.depth), level.price) > cap.value
    then && level.price > 0.0
         && (goesOn <==> (cap.value - spent) / level.price > 0.0)
         && t == if goesOn then (cap.value - spent) / level.price else 0.0
    else goesOn && t == Min(want, level.depth)
  }

  /** What one round of the loop does at the head of the book: it takes t and goes on, or stops for good. */
  lemma Round(levels: seq<Level>, want: real, cap: Option<real>, spent: real) returns (t: real, goesOn: bool)
    requires Affordable(levels, cap, spent) && want >= 0.0 && levels != []
    ensures Taken(levels[0], want, cap, spent, t, goesOn)
    ensures Allocate(levels, want, cap, spent)[0] == t
    ensures !goesOn ==> Allocate(levels, want, cap, spent) == Zeros(|levels|)
    ensures goesOn && cap.Some? ==> spent + Pay(t, levels[0].price) <= cap.value
    ensures goesOn ==>
              Allocate(levels, want, cap, spent)[1..]
              == Allocate(levels[1..], want - t, cap, spent + Pay(t, levels[0].price))
  {
    var price, depth := levels[0].price, levels[0].depth;
    if want == 0.0 {
      t, goesOn := 0.0, false;
    } else if depth <= 0.0 {
      t, goesOn := 0.0, true;
    } else if cap.Some? && spent + Pay(Min(want, depth), price) > cap.value {
      PartOfBudget(cap.value - spent, price, Min(want, depth));
      goesOn := (cap.value - spent) / price > 0.0;
      t := if goesOn then (cap.value - spent) / price else 0.0;
    } else {
      t, goesOn := Min(want, depth), true;
    }
  }

  lemma TakenWithin(level: Level, want: real, cap: Option<real>, spent: real, t: real, goesOn: bool)
    requires want >= 0.0 && (cap.Some? ==> spent <= cap.value && level.price >= 0.0)
    requires Taken(level, want, cap, spent, t, goesOn)
    ensures 0.0 <= t <= Room(level) && t <= want
    ensures cap.Some? ==> spent + Pay(t, level.price) <= cap.value
    ensures !goesOn || t < Room(level) ==> Short(want, cap, spent, t, level.price)
  {
    assert Pay(0.0, level.price) == 0.0;
    if want > 0.0 && level.depth > 0.0 && cap.Some? && spent + Pay(Min(want, level.depth), level.price) > cap.value {
      PartOfBudget(cap.value - spent, level.price, Min(want, level.depth));
    }
  }

  lemma PartOfBudget(left: real, price: real, q: real)
    requires price >= 0.0 && left >= 0.0 && Pay(q, price) > left
    ensures price > 0.0 && 0.0 <= left / price < q
    ensures Pay(left / price, price) == left
  {
    if price > 0.0 {
      var part := left / price;
      assert part * price == left;
      assert (q - part) * price > 0.0;
    }
  }

  /** A round in outline. */
  lemma Turn(levels: seq<Level>, want: real, cap: Option<real>, spent: real) returns (t: real, goesOn: bool)
    requires Affordable(levels, cap, spent) && want >= 0.0 && levels != []
    ensures 0.0 <= t <= Room(levels[0]) && t <= want
    ensures cap.Some? ==> spent + Pay(t, levels[0].price) <= cap.value
    ensures Allocate(levels, want, cap, spent)[0] == t
    ensures goesOn ==>
              Allocate(levels, want, cap, spent)[1..]
              == Allocate(levels[1..], want - t, cap, spent + Pay(t, levels[0].price))
    ensures !goesOn ==> t == 0.0 && Allocate(levels, want, cap, spent) == Zeros(|levels|)
    ensures !goesOn || t < Room(levels[0]) ==> Short(want, cap, spent, t, levels[0].price)
  {
    t, goesOn := Round(levels, want, cap, spent);
    TakenWithin(levels[0], want, cap, spent, t, goesOn);
  }

  /** The loop never takes more than a level holds, than is wanted, or than the budget pays for. */
  lemma {:induction false} AllocateWithin(levels: seq<Level>, want: real, cap: Option<real>, spent: real)
    requires Affordable(levels, cap, spent) && want >= 0.0
    ensures var a := Allocate(levels, want, cap, spent);
            && Feasible(levels, a)
            && 0.0 <= Quantity(a) <= want
            && (cap.Some? ==> spent + Cost(levels, a) <= cap.value)
  {
    if levels != [] {
      var t, goesOn := Turn(levels, want, cap, spent);
      if goesOn {
        AllocateWithin(levels[1..], want - t, cap, spent + Pay(t, levels[0].price));
      } else {
        ZerosAreNothing(levels);
      }
    }
  }

  /** With the budget gone and only positive prices left, nothing more is taken. */
  lemma {:induction false} SpentOut(levels: seq<Level>, want: real, cap: real)
    requires forall i :: 0 <= i < |levels| ==> levels[i].price > 0.0
    requires want >= 0.0
    ensures Allocate(levels, want, Some(cap), cap) == Zeros(|levels|)
  {
    if levels != [] && want != 0.0 && levels[0].depth <= 0.0 {
      SpentOut(levels[1..], want, cap);
    }
  }

  /** Full levels up to a marginal one, nothing after it. */
  ghost predicate Shape(levels: seq<Level>, a: seq<real>, m: nat)
    requires |a| == |levels|
  {
    && (forall i :: 0 <= i < m <= |a| ==> a[i] == Room(levels[i]))
    && (forall i :: m < i < |a| ==> a[i] == 0.0)
  }

  /** Stopping at the marginal level only because the want is met or the budget is spent. */
  ghost predicate Stops(levels: seq<Level>, a: seq<real>, m: nat, want: real, cap: Option<real>, spent: real)
    requires |a| == |levels|
  {
    m < |levels| ==>
      || Quantity(a) == want
      || (cap.Some? && spent + Cost(levels, a) == cap.value && levels[m].price > 0.0)
  }

  lemma OneMoreFull(levels: seq<Level>, a: seq<real>, rest: seq<real>, t: real, m: nat, want: real, cap: Option<real>,
                    spent: real)
    requires |a| == |levels| && levels != [] && a[0] == t == Room(levels[0]) && a[1..] == rest
    requires Shape(levels[1..], rest, m)
    requires Stops(levels[1..], rest, m, want - t, cap, spent + Pay(t, levels[0].price))
    ensures Shape(levels, a, m + 1) && Stops(levels, a, m + 1, want, cap, spent)
  {
    forall i | 0 <= i < m + 1 <= |a|
      ensures a[i] == Room(levels[i])
    {
      assert i > 0 ==> a[1..][i - 1] == Room(levels[1..][i - 1]);
    }
    forall i | m + 1 < i < |a|
      ensures a[i] == 0.0
    {
      assert a[1..][i - 1] == 0.0;
    }
  }

  /** The shape of the result: full levels up to a marginal one, nothing after it. The loop stops there only because
      the want is met, the budget is spent, or the book is exhausted. */
  lemma {:induction false} Waterfall(levels: seq<Level>, want: real, cap: Option<real>, spent: real) returns (m: nat)
    requires Affordable(levels, cap, spent) && want >= 0.0
    requires cap.Some? ==> Ascending(levels)
    ensures m <= |levels|
    ensures var a := Allocate(levels, want, cap, spent);
            Shape(levels, a, m) && Stops(levels, a, m, want, cap, spent)
  {
    m := 0;
    if levels != [] {
      var t, goesOn := Turn(levels, want, cap, spent);
      if !goesOn {
        NothingAtAll(levels, want, cap, spent);
      } else if t == Room(levels[0]) {
        m := Waterfall(levels[1..], want - t, cap, spent + Pay(t, levels[0].price));
        FullThenRest(levels, want, cap, spent, t, m);
        m := m + 1;
      } else {
        NothingMore(levels, want, cap, spent, t);
      }
    }
  }

  lemma FullThenRest(levels: seq<Level>, want: real, cap: Option<real>, spent: real, t: real, m: nat)
    requires Affordable(levels, cap, spent) && levels != [] && want >= t == Room(levels[0])
    requires cap.Some? ==> spent + Pay(t, levels[0].price) <= cap.value
    requires Allocate(levels, want, cap, spent)[0] == t
    requires Allocate(levels, want, cap, spent)[1..]
          == Allocate(levels[1..], want - t, cap, spent + Pay(t, levels[0].price))
    requires var rest := Allocate(levels[1..], want - t, cap, spent + Pay(t, levels[0].price));
             && Shape(levels[1..], rest, m)
             && Stops(levels[1..], rest, m, want - t, cap, spent + Pay(t, levels[0].price))
    ensures var a := Allocate(levels, want, cap, spent);
            Shape(levels, a, m + 1) && Stops(levels, a, m + 1, want, cap, spent)
  {
    var rest := Allocate(levels[1..], want - t, cap, spent + Pay(t, levels[0].price));
    OneMoreFull(levels, Allocate(levels, want, cap, spent), rest, t, m, want, cap, spent);
  }

  lemma NothingAtAll(levels: seq<Level>, want: real, cap: Option<real>, spent: real)
    requires Affordable(levels, cap, spent) && levels != [] && Short(want, cap, spent, 0.0, levels[0].price)
    requires Allocate(levels, want, cap, spent) == Zeros(|levels|)
    ensures var a := Allocate(levels, want, cap, spent);
            Shape(levels, a, 0) && Stops(levels, a, 0, want, cap, spent)
  {
    ZerosAreNothing(levels);
    assert Pay(0.0, levels[0].price) == 0.0;
  }

  /** After a level that is taken in part nothing more is taken. */
  lemma NothingMore(levels: seq<Level>, want: real, cap: Option<real>, spent: real, t: real)
    requires Affordable(levels, cap, spent) && want >= t && levels != [] && (cap.Some? ==> Ascending(levels))
    requires Short(want, cap, spent, t, levels[0].price)
    requires cap.Some? ==> spent + Pay(t, levels[0].price) <= cap.value
    requires Allocate(levels, want, cap, spent)[0] == t
    requires Allocate(levels, want, cap, spent)[1..]
          == Allocate(levels[1..], want - t, cap, spent + Pay(t, levels[0].price))
    ensures var a := Allocate(levels, want, cap, spent);
            Shape(levels, a, 0) && Stops(levels, a, 0, want, cap, spent)
  {
    var a := Allocate(levels, want, cap, spent);
    if t != want {
      SpentOut(levels[1..], want - t, cap.value);
    }
    assert a[1..] == Zeros(|levels[1..]|);
    ZerosAreNothing(levels[1..]);
    assert forall i :: 0 < i < |a| ==> a[i] == a[1..][i - 1];
  }

  /** Whatever is taken from a level, all levels before it are taken whole. */
  lemma EarlierIsFull(levels: seq<Level>, want: real, cap: Option<real>, i: nat, j: nat)
    requires Affordable(levels, cap, 0.0) && want >= 0.0
    requires cap.Some? ==> Ascending(levels)
    requires i < j < |levels| && Allocate(levels, want, cap, 0.0)[j] > 0.0
    ensures Allocate(levels, want, cap, 0.0)[i] == Room(levels[i])
  {
    var m := Waterfall(levels, want, cap, 0.0);
  }

  /** Exchange argument: against an allocation that is full below a pivot price and empty above it, any other one
      pays at least the pivot price for every extra unit. */
  lemma {:induction false} Pivot(levels: seq<Level>, a: seq<real>, x: seq<real>, c: real)
    requires Feasible(levels, x) && |a| == |levels|
    requires forall i :: 0 <= i < |levels| ==>
                           || (a[i] == Room(levels[i]) && levels[i].price <= c)
                           || (a[i] == 0.0 && levels[i].price >= c)
                           || levels[i].price == c
    ensures Cost(levels, x) - Cost(levels, a) >= Pay(Quantity(x) - Quantity(a), c)
  {
    if a != [] {
      Pivot(levels[1..], a[1..], x[1..], c);
      PivotStep(levels[0].price, a[0], x[0], c, Quantity(x[1..]) - Quantity(a[1..]));
    }
  }

  lemma PivotStep(price: real, a: real, x: real, c: real, rest: real)
    requires (x <= a && price <= c) || (x >= a && price >= c) || price == c
    ensures Pay(x, price) - Pay(a, price) + Pay(rest, c) >= Pay(x - a + rest, c)
  {
    assert (x - a) * (price - c) >= 0.0;
  }

  function Flip(levels: seq<Level>): (flipped: seq<Level>)
    ensures |flipped| == |levels|
  {
    seq(|levels|, i requires 0 <= i < |levels| => Level(-levels[i].price, levels[i].depth))
  }

  lemma {:induction false} FlipCost(levels: seq<Level>, a: seq<real>)
    requires |a| == |levels|
    ensures Cost(Flip(levels), a) == -Cost(levels, a)
  {
    if a != [] {
      FlipCost(levels[1..], a[1..]);
      assert Flip(levels)[1..] == Flip(levels[1..]);
    }
  }

  /** Without a cap the loop fills the smaller of the order and the book. */
  lemma FillsAllItCan(levels: seq<Level>, want: real)
    requires want >= 0.0
    ensures Quantity(Allocate(levels, want, None, 0.0)) == Min(want, Depth(levels))
  {
    var a := Allocate(levels, want, None, 0.0);
    var m := Waterfall(levels, want, None, 0.0);
    AllocateWithin(levels, want, None, 0.0);
    if m == |levels| {
      AllFull(levels, a, a);
    } else {
      var full := seq(|levels|, i requires 0 <= i < |levels| => Room(levels[i]));
      AllFull(levels, full, a);
    }
  }

  /** The price of the marginal level, or of the last one. */
  function MarginalPrice(levels: seq<Level>, m: nat): real
    requires levels != []
  {
    levels[if m < |levels| then m else |levels| - 1].price
  }

  lemma WaterfallPivot(levels: seq<Level>, a: seq<real>, x: seq<real>, m: nat)
    requires Feasible(levels, x) && |a| == |levels| && levels != [] && m <= |levels|
    requires Shape(levels, a, m) && Ascending(levels) && Quantity(x) == Quantity(a)
    ensures Cost(levels, x) >= Cost(levels, a)
  {
    Pivot(levels, a, x, MarginalPrice(levels, m));
  }

  /** Buying: no allocation of the same quantity is cheaper. */
  lemma CheapestPurchase(levels: seq<Level>, want: real, x: seq<real>)
    requires want >= 0.0 && Ascending(levels) && Feasible(levels, x)
    requires Quantity(x) == Quantity(Allocate(levels, want, None, 0.0))
    ensures Cost(levels, x) >= Cost(levels, Allocate(levels, want, None, 0.0))
  {
    if levels != [] {
      var m := Waterfall(levels, want, None, 0.0);
      WaterfallPivot(levels, Allocate(levels, want, None, 0.0), x, m);
    }
  }

  lemma FlippedShape(levels: seq<Level>, a: seq<real>, x: seq<real>, m: nat)
    requires |a| == |levels| && Feasible(levels, x) && Descending(levels) && Shape(levels, a, m)
    ensures Feasible(Flip(levels), x) && Ascending(Flip(levels)) && Shape(Flip(levels), a, m)
  {
  }

  /** Selling: no allocation of the same quantity earns more. */
  lemma DearestSale(levels: seq<Level>, want: real, x: seq<real>)
    requires want >= 0.0 && Descending(levels) && Feasible(levels, x)
    requires Quantity(x) == Quantity(Allocate(levels, want, None, 0.0))
    ensures Cost(levels, x) <= Cost(levels, Allocate(levels, want, None, 0.0))
  {
    if levels != [] {
      var a := Allocate(levels, want, None, 0.0);
      var m := Waterfall(levels, want, None, 0.0);
      FlippedShape(levels, a, x, m);
      WaterfallPivot(Flip(levels), a, x, m);
      FlipCost(levels, a);
      FlipCost(levels, x);
    }
  }

  lemma PositiveFactor(c: real, d: real)
    requires c > 0.0 && Pay(d, c) <= 0.0
    ensures d <= 0.0
  {
  }

  /** Buying on a budget: nothing that stays within the wanted quantity and the budget buys more. */
  lemma LargestPurchase(levels: seq<Level>, want: real, budget: real, x: seq<real>)
    requires want >= 0.0 && Ascending(levels) && Affordable(levels, Some(budget), 0.0) && Feasible(levels, x)
    requires Quantity(x) <= want && Cost(levels, x) <= budget
    ensures Quantity(x) <= Quantity(Allocate(levels, want, Some(budget), 0.0))
  {
    var a := Allocate(levels, want, Some(budget), 0.0);
    var m := Waterfall(levels, want, Some(budget), 0.0);
    if m == |levels| {
      AllFull(levels, a, x);
    } else if Quantity(a) != want {
      var c := levels[m].price;
      Pivot(levels, a, x, c);
      AllocateWithin(levels, want, Some(budget), 0.0);
      PositiveFactor(c, Quantity(x) - Quantity(a));
    }
  }
}
