/** The sorted book a job sees, and the plan it makes over it. */
module OrderBook {
  import opened Common
  import opened Allocation
  import opened Exchange

  ghost predicate Sorted(orders: seq<Order>, side: Side, book: seq<OrderId>)
    requires Within(book, |orders|)
  {
    forall i, j :: 0 <= i < j < |book| ==> Before(orders, side, book[i], book[j])
  }

  lemma {:induction false} InsertSorted(orders: seq<Order>, side: Side, book: seq<OrderId>, j: OrderId)
    requires j < |orders| && Within(book, |orders|) && Sorted(orders, side, book)
    requires forall i :: 0 <= i < |book| ==> book[i] < j
    ensures Sorted(orders, side, Insert(orders, side, book, j))
  {
    if book != [] && !Before(orders, side, j, book[0]) {
      InsertSorted(orders, side, book[1..], j);
      var rest := Insert(orders, side, book[1..], j);
      forall k | 0 <= k < |rest|
        ensures Before(orders, side, book[0], rest[k])
      {
        assert rest[k] in rest;
        assert rest[k] == j || rest[k] in book[1..];
      }
    }
  }

  lemma {:induction false} BookInOrder(orders: seq<Order>, taker: Order, n: nat)
    requires n <= |orders|
    ensures Sorted(orders, taker.side, Book(orders, taker, n))
  {
    if n > 0 {
      BookInOrder(orders, taker, n - 1);
      OneMoreSorted(orders, taker, Book(orders, taker, n - 1), n, Book(orders, taker, n));
    }
  }

  lemma OneMoreSorted(orders: seq<Order>, taker: Order, book: seq<OrderId>, n: nat, longer: seq<OrderId>)
    requires 0 < n <= |orders| && Within(book, n - 1) && Sorted(orders, taker.side, book)
    requires longer == if Eligible(taker, orders[n - 1]) then Insert(orders, taker.side, book, n - 1) else book
    ensures Sorted(orders, taker.side, longer)
  {
    InsertSorted(orders, taker.side, book, n - 1);
  }

  lemma BookSorted(orders: seq<Order>, taker: Order, n: nat)
    requires n <= |orders|
    ensures Sorted(orders, taker.side, Book(orders, taker, n))
    ensures Distinct(Book(orders, taker, n))
  {
    BookInOrder(orders, taker, n);
    SortedIsDistinct(orders, taker.side, Book(orders, taker, n));
  }

  /** A resting order the taker may trade with, read off the table: open, somebody else's, on the other side of the same
      asset, and at a price within the taker's limit. A market order has no limit. */
  predicate CanTrade(taker: Order, maker: Order) {
    && maker.status == Open
    && maker.user != taker.user
    && maker.asset == taker.asset
    && maker.side == (if taker.side == Buy then Sell else Buy)
    && (taker.kind == Market || (taker.side == Buy && maker.price <= taker.price)
        || (taker.side == Sell && maker.price >= taker.price))
  }

  /** The book holds exactly the orders the taker may trade with, each once: the cheapest first for a buy and the
      dearest first for a sale, and at one price the oldest first. */
  lemma BookIsPriceTimeOrder(orders: seq<Order>, taker: Order)
    ensures var book := Book(orders, taker, |orders|);
            && (forall i: nat :: i in book <==> i < |orders| && CanTrade(taker, orders[i]))
            && (forall i, j :: 0 <= i < j < |book| ==>
                  && (taker.side == Buy ==> orders[book[i]].price <= orders[book[j]].price)
                  && (taker.side == Sell ==> orders[book[i]].price >= orders[book[j]].price)
                  && (orders[book[i]].price == orders[book[j]].price ==> book[i] < book[j]))
  {
    var book := Book(orders, taker, |orders|);
    BookSorted(orders, taker, |orders|);
    assert forall i, j :: 0 <= i < j < |book| ==> Before(orders, taker.side, book[i], book[j]);
  }

  lemma SortedIsDistinct(orders: seq<Order>, side: Side, book: seq<OrderId>)
    requires Within(book, |orders|) && Sorted(orders, side, book)
    ensures Distinct(book)
  {
    forall i, j | 0 <= i < j < |book|
      ensures book[i] != book[j]
    {
      assert Before(orders, side, book[i], book[j]);
    }
  }

  lemma SortedLevels(orders: seq<Order>, side: Side, book: seq<OrderId>, levels: seq<Level>)
    requires Within(book, |orders|) && Sorted(orders, side, book) && levels == Levels(orders, book)
    ensures if side.Buy? then Ascending(levels) else Descending(levels)
  {
    forall i, j | 0 <= i < j < |levels|
      ensures if side.Buy? then levels[i].price <= levels[j].price else levels[i].price >= levels[j].price
    {
      assert Before(orders, side, book[i], book[j]);
    }
  }

  lemma BookLevelsOrdered(orders: seq<Order>, taker: Order)
    ensures var levels := Levels(orders, Book(orders, taker, |orders|));
            if taker.side.Buy? then Ascending(levels) else Descending(levels)
  {
    var book := Book(orders, taker, |orders|);
    BookSorted(orders, taker, |orders|);
    SortedLevels(orders, taker.side, book, Levels(orders, book));
  }

  lemma BookMember(orders: seq<Order>, taker: Order, j: nat)
    requires j < |Book(orders, taker, |orders|)|
    ensures Eligible(taker, orders[Book(orders, taker, |orders|)[j]])
  {
    var book := Book(orders, taker, |orders|);
    assert book[j] in book;
  }
}
