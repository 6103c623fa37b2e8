/** The market data service: cache, trade queue and candlestick table, kept in step by two loops. */
module MarketData {
  import opened Common
  import opened Sums
  import opened Candles

  /** A stored candlestick; the table has no column for the buy volume. */
  datatype Stored = Stored(open: real, high: real, low: real, close: real, volume: real)

  function Strip(c: Candle): Stored {
    Stored(c.open, c.high, c.low, c.close, c.volume)
  }

  /** Putting the candle of a batch onto a stored one. */
  function Onto(stored: Option<Stored>, batch: Candle): Stored {
    match stored
    case None => Strip(batch)
    case Some(s) => Stored(s.open, Max(s.high, batch.high), Min(s.low, batch.low), batch.close, s.volume + batch.volume)
  }

  function At<V>(m: map<Key, V>, k: Key): Option<V> {
    if k in m then Some(m[k]) else None
  }

  /** A table holds the candle of every bucket of some trades, and nothing else. */
  ghost predicate Holds(candles: map<Key, Candle>, trades: seq<Trade>) {
    forall k :: At(candles, k) == Fold(trades, InBucket(k))
  }

  ghost predicate Stores(candles: map<Key, Stored>, trades: seq<Trade>) {
    forall k :: At(candles, k) == match Fold(trades, InBucket(k)) case None => None case Some(c) => Some(Strip(c))
  }

  /** Updating one bucket of a table that holds the earlier trades. */
  function Tick(candles: map<Key, Candle>, t: Trade, r: Resolution): map<Key, Candle> {
    candles[KeyOf(t, r) := Extend(At(candles, KeyOf(t, r)), t)]
  }

  const RESOLUTIONS: seq<Resolution> := [OneMinute, FiveMinutes, FifteenMinutes, OneHour, FourHours, OneDay]

  function Rank(r: Resolution): nat {
    match r
    case OneMinute => 0
    case FiveMinutes => 1
    case FifteenMinutes => 2
    case OneHour => 3
    case FourHours => 4
    case OneDay => 5
  }

  lemma ResolutionAt(n: nat)
    requires n < |RESOLUTIONS|
    ensures forall r :: Rank(r) == n <==> r == RESOLUTIONS[n]
    ensures |RESOLUTIONS| == 6
  {
  }

  /** A table part way through one trade: the first n resolutions have been updated. */
  ghost predicate HoldsUpTo(candles: map<Key, Candle>, trades: seq<Trade>, t: Trade, n: nat) {
    forall k :: At(candles, k) == Fold(if Rank(k.resolution) < n then trades + [t] else trades, InBucket(k))
  }

  /** One bucket of the table while the resolution of rank `turn` is updated; only the trade's own bucket changes. */
  lemma UpdateOneBucket(before: Option<Candle>, after: Option<Candle>, trades: seq<Trade>, t: Trade,
                        selected: Trade -> bool, rank: nat, turn: nat, own: bool)
    requires before == Fold(if rank < turn then trades + [t] else trades, selected)
    requires if own then rank == turn && selected(t) else rank == turn ==> !selected(t)
    requires after == if own then Some(Extend(before, t)) else before
    ensures after == Fold(if rank < turn + 1 then trades + [t] else trades, selected)
  {
    FoldSnoc(trades, t, selected);
  }

  lemma SameRank(r: Resolution, q: Resolution)
    ensures Rank(r) == Rank(q) <==> r == q
  {
  }

  lemma UpdateOneKey(candles: map<Key, Candle>, trades: seq<Trade>, t: Trade, r: Resolution, k: Key)
    requires HoldsUpTo(candles, trades, t, Rank(r))
    ensures At(Tick(candles, t, r), k)
         == Fold(if Rank(k.resolution) < Rank(r) + 1 then trades + [t] else trades, InBucket(k))
  {
    var own := k == KeyOf(t, r);
    SameRank(k.resolution, r);
    assert own ==> k.resolution == r;
    assert k.resolution == r ==> (InBucket(k)(t) <==> own);
    UpdateOneBucket(At(candles, k), At(Tick(candles, t, r), k), trades, t, InBucket(k),
                    Rank(k.resolution), Rank(r), own);
  }

  lemma UpdateOne(candles: map<Key, Candle>, trades: seq<Trade>, t: Trade, r: Resolution)
    requires HoldsUpTo(candles, trades, t, Rank(r))
    ensures HoldsUpTo(Tick(candles, t, r), trades, t, Rank(r) + 1)
  {
    forall k
      ensures At(Tick(candles, t, r), k)
           == Fold(if Rank(k.resolution) < Rank(r) + 1 then trades + [t] else trades, InBucket(k))
    {
      UpdateOneKey(candles, trades, t, r, k);
    }
  }

  /** The table once the groups with the given keys have been written. */
  ghost predicate Merged(stored: map<Key, Stored>, grouped: map<Key, Candle>, keys: set<Key>, after: map<Key, Stored>) {
    forall k ::
      At(after, k) == if k in grouped && k in keys then Some(Onto(At(stored, k), grouped[k])) else At(stored, k)
  }

  /** One batch merged into the table brings it forward by exactly the batch. */
  lemma MergedForward(stored: map<Key, Stored>, grouped: map<Key, Candle>, after: map<Key, Stored>,
                      synced: seq<Trade>, batch: seq<Trade>)
    requires Stores(stored, synced) && Holds(grouped, batch) && Merged(stored, grouped, grouped.Keys, after)
    ensures Stores(after, synced + batch)
  {
    forall k
      ensures At(after, k)
           == match Fold(synced + batch, InBucket(k)) case None => None case Some(c) => Some(Strip(c))
    {
      FoldOfBatches(synced, batch, InBucket(k));
      assert At(stored, k) == match Fold(synced, InBucket(k)) case None => None case Some(c) => Some(Strip(c));
      assert At(grouped, k) == Fold(batch, InBucket(k));
    }
  }

  /** The ticker's running figures after some candles. */
  datatype Figures = Figures(open: real, high: real, low: real, volume: real, buyVolume: real)

  function FiguresOf(c: Option<Candle>, marketPrice: real): Figures {
    match c
    case None => Figures(marketPrice, marketPrice, marketPrice, 0.0, 0.0)
    case Some(c) => Figures(c.open, c.high, c.low, c.volume, c.buyVolume)
  }

  function BuyPercent(f: Figures): real {
    if f.volume == 0.0 then 50.0 else f.buyVolume / f.volume * 100.0
  }

  /** What the ticker says of an asset's last day; the sell percentage is the rest of the buy percentage. */
  datatype Ticker = Ticker(
    lastPrice: real, change: real, changePercent: real, high: real, low: real, volume: real, buyPercent: real,
    sellPercent: real)

  function ChangePercent(change: real, open: real): real {
    if open == 0.0 then 0.0 else change / open * 100.0
  }

  function TickerOf(f: Figures, marketPrice: real): Ticker {
    Ticker(marketPrice, marketPrice - f.open, ChangePercent(marketPrice - f.open, f.open), f.high, f.low, f.volume,
           BuyPercent(f), 100.0 - BuyPercent(f))
  }

  lemma {:induction false} BoughtWithinVolume(trades: seq<Trade>, selected: Trade -> bool)
    requires forall t :: t in trades ==> t.quantity >= 0.0
    ensures 0.0 <= Sum(trades, BoughtOf(selected)) <= Sum(trades, VolumeOf(selected))
  {
    if trades != [] {
      BoughtWithinVolume(trades[..|trades| - 1], selected);
      assert trades[|trades| - 1] in trades;
    }
  }

  lemma PercentInRange(part: real, whole: real)
    requires 0.0 <= part <= whole && whole > 0.0
    ensures 0.0 <= part / whole * 100.0 <= 100.0
  {
    var share := part / whole;
    assert share * whole == part;
    assert share > 1.0 ==> share * whole > whole;
    assert share < 0.0 ==> share * whole < 0.0;
  }

  class MarketDataService {
    var queue: seq<Trade>
    var cache: map<Key, Candle>
    var candlesticks: map<Key, Stored>
    ghost var history: seq<Trade>

    /** The trades already merged into the table. */
    ghost function Synced(): seq<Trade>
      reads this
    {
      if |queue| <= |history| then history[..|history| - |queue|] else []
    }

    ghost predicate Valid()
      reads this
    {
      && history == Synced() + queue
      && Holds(cache, history)
      && Stores(candlesticks, Synced())
    }

    constructor ()
      ensures Valid() && history == []
    {
      queue, cache, candlesticks, history := [], map[], map[], [];
    }

    /** Queues the trade for the table and updates its candle at every resolution. */
    method RecordTrade(t: Trade)
      requires Valid()
      modifies this
      ensures Valid()
      ensures history == old(history) + [t] && queue == old(queue) + [t]
    {
      queue := queue + [t];
      UpdateCache(t);
      history := history + [t];
      assert Synced() == old(Synced());
    }

    method UpdateCache(t: Trade)
      requires Holds(cache, history)
      modifies this`cache
      ensures Holds(cache, history + [t])
    {
      var n := 0;
      while n < |RESOLUTIONS|
        invariant 0 <= n <= |RESOLUTIONS|
        invariant HoldsUpTo(cache, history, t, n)
      {
        ResolutionAt(n);
        UpdateOne(cache, history, t, RESOLUTIONS[n]);
        UpdateCandle(t, KeyOf(t, RESOLUTIONS[n]));
        n := n + 1;
      }
    }

    /** Reads one cached candle, if there is one, and writes it back with the trade. */
    method UpdateCandle(t: Trade, k: Key)
      modifies this`cache
      ensures cache == old(cache)[k := Extend(At(old(cache), k), t)]
    {
      var bought := if t.buy then t.quantity else 0.0;
      if k in cache {
        var c := cache[k];
        cache := cache[k := Candle(c.open, Max(c.high, t.price), Min(c.low, t.price), t.price,
                                   c.volume + t.quantity, c.buyVolume + bought)];
      } else {
        cache := cache[k := Candle(t.price, t.price, t.price, t.price, t.quantity, bought)];
      }
    }

    /** The grouping loop over a batch. */
    method GroupBatch(batch: seq<Trade>) returns (grouped: map<Key, Candle>)
      ensures Holds(grouped, batch)
    {
      grouped := map[];
      var i := 0;
      while i < |batch|
        invariant 0 <= i <= |batch|
        invariant Holds(grouped, batch[..i])
      {
        var t, n := batch[i], 0;
        while n < |RESOLUTIONS|
          invariant 0 <= n <= |RESOLUTIONS|
          invariant HoldsUpTo(grouped, batch[..i], t, n)
        {
          ResolutionAt(n);
          UpdateOne(grouped, batch[..i], t, RESOLUTIONS[n]);
          grouped := Tick(grouped, t, RESOLUTIONS[n]);
          n := n + 1;
        }
        assert batch[..i + 1] == batch[..i] + [t];
        i := i + 1;
      }
      assert batch[..i] == batch;
    }

    /** The write loop: each group creates its candlestick or is put onto the stored one, in whatever order. */
    method MergeGroups(grouped: map<Key, Candle>)
      modifies this`candlesticks
      ensures Merged(old(candlesticks), grouped, grouped.Keys, candlesticks)
    {
      ghost var stored := candlesticks;
      var pending := grouped.Keys;
      while pending != {}
        invariant pending <= grouped.Keys
        invariant Merged(stored, grouped, grouped.Keys - pending, candlesticks)
        decreases |pending|
      {
        var k :| k in pending;
        assert At(candlesticks, k) == At(stored, k);
        candlesticks := candlesticks[k := Onto(At(candlesticks, k), grouped[k])];
        pending := pending - {k};
      }
    }

    /** Drains the queue up to the length that was observed, and merges the batch into the table. */
    method SyncTradesToDB(queueLength: nat)
      requires Valid() && queueLength <= |queue|
      modifies this`queue, this`candlesticks
      ensures Valid()
      ensures queue == old(queue)[queueLength..]
    {
      if queueLength == 0 {
        return;
      }
      ghost var synced, stored := Synced(), candlesticks;
      var batch := queue[..queueLength];
      queue := queue[queueLength..];
      var grouped := GroupBatch(batch);
      MergeGroups(grouped);
      MergedForward(stored, grouped, candlesticks, synced, batch);
      assert old(queue) == batch + queue;
      assert history == (synced + batch) + queue;
      assert Synced() == synced + batch;
    }

    /** Every stored candle, merged with the candle of the trades still queued, is the cached one. */
    lemma StoredAndQueuedAreCached(k: Key)
      requires Valid()
      ensures k in cache ==>
                Some(Strip(cache[k])) == match Fold(queue, InBucket(k))
                                         case None => At(candlesticks, k)
                                         case Some(batch) => Some(Onto(At(candlesticks, k), batch))
      ensures k in cache <==> k in candlesticks || Fold(queue, InBucket(k)).Some?
    {
      FoldOfBatches(Synced(), queue, InBucket(k));
      assert At(cache, k) == Fold(history, InBucket(k));
      assert At(candlesticks, k)
          == match Fold(Synced(), InBucket(k)) case None => None case Some(c) => Some(Strip(c));
    }

    /** There is a cached candle exactly for the buckets with a recorded trade, and a stored one exactly for those with
        a synced trade; both tell the truth about those trades. */
    lemma CandlesTellTheTruth(k: Key)
      requires Valid()
      ensures k in cache <==> exists i :: 0 <= i < |history| && InBucket(k)(history[i])
      ensures k in candlesticks <==> exists i :: 0 <= i < |Synced()| && InBucket(k)(Synced()[i])
      ensures k in cache ==> Describes(cache[k], history, InBucket(k))
      ensures k in candlesticks ==>
                var c, bought := candlesticks[k], Sum(Synced(), BoughtOf(InBucket(k)));
                Describes(Candle(c.open, c.high, c.low, c.close, c.volume, bought), Synced(), InBucket(k))
    {
      FoldDescribes(history, InBucket(k));
      FoldDescribes(Synced(), InBucket(k));
      assert At(cache, k) == Fold(history, InBucket(k));
      assert At(candlesticks, k)
          == match Fold(Synced(), InBucket(k)) case None => None case Some(c) => Some(Strip(c));
    }

    /** The ticker of an asset, from its candles of the last day. */
    method EmitTicker(now: Time, asset: AssetId, marketPrice: real) returns (ticker: Ticker)
      requires Valid()
      ensures ticker == TickerAfter(history, now, asset, marketPrice)
    {
      var f := RollingWindow(now, asset, MINUTES_A_DAY, marketPrice);
      var change := marketPrice - f.open;
      var changePercent, buyPercent := 0.0, 50.0;
      if f.open != 0.0 {
        changePercent := change / f.open * 100.0;
      }
      if f.volume != 0.0 {
        buyPercent := f.buyVolume / f.volume * 100.0;
      }
      return Ticker(marketPrice, change, changePercent, f.high, f.low, f.volume, buyPercent, 100.0 - buyPercent);
    }

    /** The ticker's pass over the cached one-minute candles of a number of minutes, from oldest to newest. */
    method RollingWindow(now: Time, asset: AssetId, minutes: nat, marketPrice: real) returns (f: Figures)
      requires Valid()
      ensures f == FiguresOf(Minutes(history, asset, WindowStart(now, minutes), minutes), marketPrice)
    {
      ghost var lo := WindowStart(now, minutes);
      f := Figures(marketPrice, marketPrice, marketPrice, 0.0, 0.0);
      var firstFound := false;
      var i := minutes;
      while i > 0
        invariant 0 <= i <= minutes
        invariant f == FiguresOf(Minutes(history, asset, lo, minutes - i), marketPrice)
        invariant firstFound <==> Minutes(history, asset, lo, minutes - i).Some?
      {
        i := i - 1;
        var k := Key(asset, OneMinute, OpenTime(now - 60 * i, OneMinute));
        MinuteBack(now, i);
        assert k == Key(asset, OneMinute, lo + 60 * (minutes - i - 1));
        assert At(cache, k) == Fold(history, InBucket(k));
        if k in cache {
          var c := cache[k];
          if !firstFound {
            f := Figures(c.open, c.high, c.low, f.volume + c.volume, f.buyVolume + c.buyVolume);
            firstFound := true;
          } else {
            f := Figures(f.open, Max(f.high, c.high), Min(f.low, c.low),
                         f.volume + c.volume, f.buyVolume + c.buyVolume);
          }
        }
      }
    }
  }

  const MINUTES_A_DAY := 1440

  /** What the ticker is said to be once some trades have been recorded. */
  function TickerAfter(trades: seq<Trade>, now: Time, asset: AssetId, marketPrice: real): Ticker {
    var window := Minutes(trades, asset, WindowStart(now, MINUTES_A_DAY), MINUTES_A_DAY);
    TickerOf(FiguresOf(window, marketPrice), marketPrice)
  }

  /** The opening of the oldest of a number of minutes up to the current one. */
  function WindowStart(now: Time, minutes: nat): Time {
    OpenTime(now, OneMinute) - 60 * (minutes - 1)
  }

  lemma MinuteBack(now: Time, i: nat)
    ensures OpenTime(now - 60 * i, OneMinute) == OpenTime(now, OneMinute) - 60 * i
  {
    DivMod(now - 60 * i, 60, now / 60 - i, now % 60);
  }

  /** The figures are those of the trades in a window: the true extremes and volumes, and the first price when the
      trades were recorded in order. */
  ghost predicate TellsTheTruth(
    f: Figures, trades: seq<Trade>, asset: AssetId, selected: Trade -> bool, marketPrice: real)
  {
    && (if exists i :: 0 <= i < |trades| && selected(trades[i])
        then && (InOrder(trades, asset) ==> OpensAt(trades, selected, f.open))
             && TradedAt(trades, selected, f.high)
             && TradedAt(trades, selected, f.low)
             && forall i :: 0 <= i < |trades| && selected(trades[i]) ==> f.low <= trades[i].price <= f.high
        else f.open == f.high == f.low == marketPrice)
    && f.volume == Sum(trades, VolumeOf(selected))
    && f.buyVolume == Sum(trades, BoughtOf(selected))
  }

  lemma WindowFigures(trades: seq<Trade>, asset: AssetId, selected: Trade -> bool, c: Option<Candle>, marketPrice: real)
    requires Alike(Fold(trades, selected), c)
    requires InOrder(trades, asset) ==> c == Fold(trades, selected)
    ensures TellsTheTruth(FiguresOf(c, marketPrice), trades, asset, selected, marketPrice)
  {
    FoldDescribes(trades, selected);
    if Fold(trades, selected).None? {
      NoVolume(trades, selected);
    }
  }

  /** The share of buys is that of the bought in the traded volume, and between 0 and 100 percent; without any volume it
      is taken for a half. */
  lemma ShareOfBuys(f: Figures, trades: seq<Trade>, selected: Trade -> bool)
    requires f.volume == Sum(trades, VolumeOf(selected)) && f.buyVolume == Sum(trades, BoughtOf(selected))
    ensures var volume, bought := Sum(trades, VolumeOf(selected)), Sum(trades, BoughtOf(selected));
            if volume == 0.0 then BuyPercent(f) == 50.0 else BuyPercent(f) * volume == 100.0 * bought
    ensures (forall t :: t in trades ==> t.quantity >= 0.0) ==> 0.0 <= BuyPercent(f) <= 100.0
  {
    if f.volume != 0.0 {
      PercentOf(f.buyVolume, f.volume);
      if forall t :: t in trades ==> t.quantity >= 0.0 {
        BoughtWithinVolume(trades, selected);
        PercentInRange(f.buyVolume, f.volume);
      }
    }
  }

  lemma PercentOf(part: real, whole: real)
    requires whole != 0.0
    ensures part / whole * 100.0 * whole == 100.0 * part
  {
    var share := part / whole;
    assert share * whole == part;
  }

  lemma MinutesTellTheTruth(trades: seq<Trade>, asset: AssetId, lo: Time, n: nat, marketPrice: real)
    requires lo % 60 == 0
    ensures var f := FiguresOf(Minutes(trades, asset, lo, n), marketPrice);
            TellsTheTruth(f, trades, asset, InWindow(asset, lo, lo + 60 * n), marketPrice)
  {
    var c, selected := Minutes(trades, asset, lo, n), InWindow(asset, lo, lo + 60 * n);
    MinutesAlikeWindow(trades, asset, lo, n);
    if InOrder(trades, asset) {
      MinutesAreWindow(trades, asset, lo, n);
    }
    WindowFigures(trades, asset, selected, c, marketPrice);
  }

  lemma WindowStartAligned(now: Time, minutes: nat)
    ensures WindowStart(now, minutes) == 60 * (now / 60 - minutes + 1) && WindowStart(now, minutes) % 60 == 0
  {
    var start := now / 60 - (minutes - 1);
    assert OpenTime(now, OneMinute) == 60 * (now / 60);
    DivMod(WindowStart(now, minutes), 60, start, 0);
  }

  /** An asset's trades of the 86400 seconds up to the end of the current minute. */
  function LastDay(asset: AssetId, now: Time): Trade -> bool {
    (t: Trade) => t.asset == asset && 60 * (now / 60) - 86340 <= t.time < 60 * (now / 60) + 60
  }

  /** What the ticker says, in terms of the trades of its day alone. */
  ghost predicate IsTickerOf(ticker: Ticker, open: real, trades: seq<Trade>, day: Trade -> bool, marketPrice: real) {
    var volume, bought := Sum(trades, VolumeOf(day)), Sum(trades, BoughtOf(day));
    && ticker.lastPrice == marketPrice
    && ticker.change == marketPrice - open
    && (if open == 0.0 then ticker.changePercent == 0.0
        else ticker.changePercent * open == 100.0 * (marketPrice - open))
    && ticker.volume == volume
    && (if volume == 0.0 then ticker.buyPercent == 50.0 else ticker.buyPercent * volume == 100.0 * bought)
    && ticker.sellPercent == 100.0 - ticker.buyPercent
    && ((forall t :: t in trades ==> t.quantity >= 0.0) ==> 0.0 <= ticker.buyPercent <= 100.0)
  }

  lemma TickerIsOf(f: Figures, trades: seq<Trade>, asset: AssetId, day: Trade -> bool, marketPrice: real)
    requires TellsTheTruth(f, trades, asset, day, marketPrice)
    ensures IsTickerOf(TickerOf(f, marketPrice), f.open, trades, day, marketPrice)
  {
    ShareOfBuys(f, trades, day);
    if f.open != 0.0 {
      PercentOf(marketPrice - f.open, f.open);
    }
  }

  /** The ticker tells the truth about the trades of its day: their highest and lowest price, their volume and the share
      of buys in it, and the change since the day's first price, which is that of the first trade when trades were
      recorded in order. Without trades its prices are the market price. */
  lemma TickerTellsTheTruth(trades: seq<Trade>, now: Time, asset: AssetId, marketPrice: real)
    ensures var ticker, day := TickerAfter(trades, now, asset, marketPrice), LastDay(asset, now);
            exists f: Figures ::
              && TellsTheTruth(f, trades, asset, day, marketPrice)
              && (ticker.high, ticker.low) == (f.high, f.low)
              && IsTickerOf(ticker, f.open, trades, day, marketPrice)
  {
    var lo, day := WindowStart(now, MINUTES_A_DAY), LastDay(asset, now);
    var f := FiguresOf(Minutes(trades, asset, lo, MINUTES_A_DAY), marketPrice);
    WindowStartAligned(now, MINUTES_A_DAY);
    MinutesTellTheTruth(trades, asset, lo, MINUTES_A_DAY, marketPrice);
    SameTruth(f, trades, asset, InWindow(asset, lo, lo + 60 * MINUTES_A_DAY), day, marketPrice);
    TickerIsOf(f, trades, asset, day, marketPrice);
  }

  lemma SameTruth(f: Figures, trades: seq<Trade>, asset: AssetId, p: Trade -> bool, q: Trade -> bool,
                  marketPrice: real)
    requires forall t :: p(t) == q(t)
    requires TellsTheTruth(f, trades, asset, p, marketPrice)
    ensures TellsTheTruth(f, trades, asset, q, marketPrice)
  {
    SumCong(trades, VolumeOf(p), VolumeOf(q));
    SumCong(trades, BoughtOf(p), BoughtOf(q));
    if OpensAt(trades, p, f.open) {
      var i :| 0 <= i < |trades| && p(trades[i]) && trades[i].price == f.open
               && forall j :: 0 <= j < i ==> !p(trades[j]);
      assert q(trades[i]);
    }
  }
}
