/**
 Candlesticks three ways: updated one trade at a time in the cache, merged in batches into the database, and
 aggregated into the rolling ticker. All three are one fold over the trades.
 */
module Candles {
  import opened Common
  import opened Sums

  type AssetId = nat

  /** Seconds from a local midnight, on a clock without daylight saving. */
  type Time = int

  datatype Trade = Trade(asset: AssetId, price: real, quantity: real, buy: bool, time: Time)

  datatype Resolution = OneMinute | FiveMinutes | FifteenMinutes | OneHour | FourHours | OneDay

  datatype Candle = Candle(open: real, high: real, low: real, close: real, volume: real, buyVolume: real)

  datatype Key = Key(asset: AssetId, resolution: Resolution, openTime: Time)

  // ----- Buckets

  function Width(r: Resolution): nat {
    match r
    case OneMinute => 60
    case FiveMinutes => 300
    case FifteenMinutes => 900
    case OneHour => 3600
    case FourHours => 14400
    case OneDay => 86400
  }

  /** The bucket arithmetic as it is done, on the fields of a date: seconds are dropped, then minutes and hours are set
      back to a multiple. */
  function OpenTime(t: Time, r: Resolution): Time {
    var minute := t - t % 60;
    var minutes, hours := minute / 60 % 60, minute / 3600 % 24;
    match r
    case OneMinute => minute
    case FiveMinutes => minute - 60 * minutes + 60 * (minutes / 5 * 5)
    case FifteenMinutes => minute - 60 * minutes + 60 * (minutes / 15 * 15)
    case OneHour => minute - 60 * minutes
    case FourHours => minute - 60 * minutes - 3600 * hours + 3600 * (hours / 4 * 4)
    case OneDay => minute - 60 * minutes - 3600 * hours
  }

  lemma RoundedDown(t: int, w: nat, k: int)
    requires w > 0 && w * k <= t < w * k + w
    ensures t / w * w == w * k
  {
    var q := t / w;
    assert t == w * q + t % w;
    assert q + 1 <= k ==> w * (q + 1) <= w * k;
    assert k + 1 <= q ==> w * (k + 1) <= w * q;
  }

  function HourOf(r: Resolution, hour: int): int {
    if r.FourHours? then hour / 4 * 4 else if r.OneDay? then 0 else hour
  }

  function MinuteOf(r: Resolution, minute: int): int {
    match r
    case OneMinute => minute
    case FiveMinutes => minute / 5 * 5
    case FifteenMinutes => minute / 15 * 15
    case _ => 0
  }

  function Clock(day: int, hour: int, minute: int, second: int): Time {
    86400 * day + 3600 * hour + 60 * minute + second
  }

  predicate OnTheClock(hour: int, minute: int, second: int) {
    0 <= hour < 24 && 0 <= minute < 60 && 0 <= second < 60
  }

  /** What the bucket arithmetic does to the fields of a date. */
  lemma OpenTimeOfClock(day: int, hour: int, minute: int, second: int, r: Resolution)
    requires OnTheClock(hour, minute, second)
    ensures OpenTime(Clock(day, hour, minute, second), r) == Clock(day, HourOf(r, hour), MinuteOf(r, minute), 0)
  {
    ClockFields(day, hour, minute, second);
  }

  /** Reading the fields of a date back. */
  lemma ClockFields(day: int, hour: int, minute: int, second: int)
    requires OnTheClock(hour, minute, second)
    ensures var t := Clock(day, hour, minute, second);
            && t - t % 60 == Clock(day, hour, minute, 0)
            && (t - t % 60) / 60 % 60 == minute && (t - t % 60) / 3600 % 24 == hour
  {
    var t, q, h := Clock(day, hour, minute, second), 1440 * day + 60 * hour + minute, 24 * day + hour;
    DivMod(t, 60, q, second);
    DivMod(60 * q, 60, q, 0);
    DivMod(q, 60, h, minute);
    DivMod(60 * q, 3600, h, 60 * minute);
    DivMod(h, 24, day, hour);
  }

  lemma DivMod(x: int, w: nat, k: int, r: int)
    requires w > 0 && x == w * k + r && 0 <= r < w
    ensures x / w == k && x % w == r
  {
    var d := x / w - k;
    RoundedDown(x, w, k);
    assert w * d == 0;
    assert d == 0 || w * d != 0;
  }

  lemma ReadClock(t: Time) returns (day: int, hour: int, minute: int, second: int)
    ensures OnTheClock(hour, minute, second) && t == Clock(day, hour, minute, second)
  {
    var q := t / 60;
    day, hour, minute, second := q / 60 / 24, q / 60 % 24, q % 60, t % 60;
  }

  /** Setting the fields back is rounding down to the width of the bucket. */
  lemma OpenTimeRoundsDown(t: Time, r: Resolution)
    ensures OpenTime(t, r) == t / Width(r) * Width(r)
    ensures OpenTime(t, r) <= t < OpenTime(t, r) + Width(r)
  {
    var d, h, m, s := ReadClock(t);
    OpenTimeOfClock(d, h, m, s, r);
    match r
    case OneMinute => RoundedDown(t, 60, 1440 * d + 60 * h + m);
    case FiveMinutes => RoundedDown(t, 300, 288 * d + 12 * h + m / 5);
    case FifteenMinutes => RoundedDown(t, 900, 96 * d + 4 * h + m / 15);
    case OneHour => RoundedDown(t, 3600, 24 * d + h);
    case FourHours => RoundedDown(t, 14400, 6 * d + h / 4);
    case OneDay => RoundedDown(t, 86400, d);
  }

  /** The same in seconds. */
  lemma OpeningTimes(t: Time)
    ensures OpenTime(t, OneMinute) == t / 60 * 60
    ensures OpenTime(t, FiveMinutes) == t / 300 * 300
    ensures OpenTime(t, FifteenMinutes) == t / 900 * 900
    ensures OpenTime(t, OneHour) == t / 3600 * 3600
    ensures OpenTime(t, FourHours) == t / 14400 * 14400
    ensures OpenTime(t, OneDay) == t / 86400 * 86400
  {
    forall r {
      OpenTimeRoundsDown(t, r);
    }
  }

  lemma HoursNest(hour: int, r: Resolution, coarse: Resolution)
    requires 0 <= hour < 24 && Width(coarse) % Width(r) == 0
    ensures 0 <= HourOf(r, hour) < 24 && HourOf(r, HourOf(r, hour)) == HourOf(r, hour)
    ensures HourOf(coarse, HourOf(r, hour)) == HourOf(coarse, hour)
    ensures HourOf(r, HourOf(coarse, hour)) == HourOf(coarse, hour)
  {
  }

  lemma MinutesNest(minute: int, r: Resolution, coarse: Resolution)
    requires 0 <= minute < 60 && Width(coarse) % Width(r) == 0
    ensures 0 <= MinuteOf(r, minute) < 60 && MinuteOf(r, MinuteOf(r, minute)) == MinuteOf(r, minute)
    ensures MinuteOf(coarse, MinuteOf(r, minute)) == MinuteOf(coarse, minute)
    ensures MinuteOf(r, MinuteOf(coarse, minute)) == MinuteOf(coarse, minute)
  {
    Fives(minute, minute / 5, minute / 15);
  }

  /** Rounding to fives and to fifteens. */
  lemma Fives(minute: int, fives: int, fifteens: int)
    requires 0 <= minute < 60 && fives == minute / 5 && fifteens == minute / 15
    ensures 5 * fives / 5 == fives && 15 * fifteens / 15 == fifteens
    ensures 5 * fives / 15 == fifteens && 15 * fifteens / 5 == 3 * fifteens
  {
    DivMod(5 * fives, 5, fives, 0);
    DivMod(15 * fifteens, 15, fifteens, 0);
    DivMod(5 * fives, 15, fifteens, 5 * fives - 15 * fifteens);
    DivMod(15 * fifteens, 5, 3 * fifteens, 0);
  }

  lemma FieldsNest(hour: int, minute: int, r: Resolution, coarse: Resolution)
    requires OnTheClock(hour, minute, 0) && Width(coarse) % Width(r) == 0
    ensures OnTheClock(HourOf(r, hour), MinuteOf(r, minute), 0)
    ensures HourOf(r, HourOf(r, hour)) == HourOf(r, hour) && MinuteOf(r, MinuteOf(r, minute)) == MinuteOf(r, minute)
    ensures HourOf(coarse, HourOf(r, hour)) == HourOf(coarse, hour)
         && MinuteOf(coarse, MinuteOf(r, minute)) == MinuteOf(coarse, minute)
    ensures HourOf(r, HourOf(coarse, hour)) == HourOf(coarse, hour)
         && MinuteOf(r, MinuteOf(coarse, minute)) == MinuteOf(coarse, minute)
  {
    HoursNest(hour, r, coarse);
    MinutesNest(minute, r, coarse);
  }

  /** Bucket starts are their own buckets, a coarser bucket does not depend on rounding to a finer one first, and it
      starts where a finer one does. */
  lemma BucketsNest(t: Time, r: Resolution, coarse: Resolution)
    requires Width(coarse) % Width(r) == 0
    ensures OpenTime(OpenTime(t, r), r) == OpenTime(t, r)
    ensures OpenTime(OpenTime(t, r), coarse) == OpenTime(t, coarse)
    ensures OpenTime(OpenTime(t, coarse), r) == OpenTime(t, coarse)
  {
    var d, h, m, s := ReadClock(t);
    FieldsNest(h, m, r, coarse);
    FieldsNest(h, m, coarse, coarse);
    OpenTimeOfClock(d, h, m, s, r);
    OpenTimeOfClock(d, h, m, s, coarse);
    OpenTimeOfClock(d, HourOf(r, h), MinuteOf(r, m), 0, r);
    OpenTimeOfClock(d, HourOf(r, h), MinuteOf(r, m), 0, coarse);
    OpenTimeOfClock(d, HourOf(coarse, h), MinuteOf(coarse, m), 0, r);
  }

  // ----- The fold

  function Extend(c: Option<Candle>, t: Trade): Candle {
    var bought := if t.buy then t.quantity else 0.0;
    match c
    case None => Candle(t.price, t.price, t.price, t.price, t.quantity, bought)
    case Some(c) =>
      Candle(c.open, Max(c.high, t.price), Min(c.low, t.price), t.price, c.volume + t.quantity, c.buyVolume + bought)
  }

  /** The candle of the selected trades, in the order they were recorded. */
  function Fold(trades: seq<Trade>, selected: Trade -> bool): Option<Candle> {
    if trades == [] then None
    else
      var n := |trades| - 1;
      var earlier := Fold(trades[..n], selected);
      if selected(trades[n]) then Some(Extend(earlier, trades[n])) else earlier
  }

  function KeyOf(t: Trade, r: Resolution): Key {
    Key(t.asset, r, OpenTime(t.time, r))
  }

  /** The trades a bucket is made of. */
  function InBucket(k: Key): Trade -> bool {
    (t: Trade) => KeyOf(t, k.resolution) == k
  }

  /** An asset's trades from lo up to but not including hi. */
  function InWindow(asset: AssetId, lo: Time, hi: Time): Trade -> bool {
    (t: Trade) => t.asset == asset && lo <= t.time < hi
  }

  /** Putting the candle of later trades onto that of earlier ones. */
  function Merge(c: Option<Candle>, d: Option<Candle>): Option<Candle> {
    if c.None? then d
    else if d.None? then c
    else
      var c, d := c.value, d.value;
      Some(Candle(c.open, Max(c.high, d.high), Min(c.low, d.low), d.close,
                  c.volume + d.volume, c.buyVolume + d.buyVolume))
  }

  lemma MergeExtend(c: Option<Candle>, d: Option<Candle>, t: Trade)
    ensures Merge(c, Some(Extend(d, t))) == Some(Extend(Merge(c, d), t))
  {
  }

  /** Any split of the trades into batches gives the candle of all of them. */
  lemma {:induction false} FoldOfBatches(earlier: seq<Trade>, later: seq<Trade>, selected: Trade -> bool)
    ensures Fold(earlier + later, selected) == Merge(Fold(earlier, selected), Fold(later, selected))
  {
    if later == [] {
      assert earlier + later == earlier;
    } else {
      var n := |later| - 1;
      FoldOfBatches(earlier, later[..n], selected);
      assert (earlier + later)[..|earlier| + n] == earlier + later[..n];
      MergeExtend(Fold(earlier, selected), Fold(later[..n], selected), later[n]);
    }
  }

  lemma FoldSnoc(trades: seq<Trade>, t: Trade, selected: Trade -> bool)
    ensures Fold(trades + [t], selected)
         == if selected(t) then Some(Extend(Fold(trades, selected), t)) else Fold(trades, selected)
  {
    assert (trades + [t])[..|trades|] == trades;
  }

  lemma {:induction false} FoldCong(trades: seq<Trade>, p: Trade -> bool, q: Trade -> bool)
    requires forall t :: t in trades ==> p(t) == q(t)
    ensures Fold(trades, p) == Fold(trades, q)
  {
    if trades != [] {
      var n := |trades| - 1;
      FoldCong(trades[..n], p, q);
      assert trades[n] in trades;
    }
  }

  lemma {:induction false} FoldOfNone(trades: seq<Trade>, selected: Trade -> bool)
    requires forall t :: t in trades ==> !selected(t)
    ensures Fold(trades, selected) == None
  {
    if trades != [] {
      FoldOfNone(trades[..|trades| - 1], selected);
      assert trades[|trades| - 1] in trades;
    }
  }

  // ----- What a candle says about its trades

  function VolumeOf(selected: Trade -> bool): Trade -> real {
    (t: Trade) => if selected(t) then t.quantity else 0.0
  }

  function BoughtOf(selected: Trade -> bool): Trade -> real {
    (t: Trade) => if selected(t) && t.buy then t.quantity else 0.0
  }

  ghost predicate OpensAt(trades: seq<Trade>, selected: Trade -> bool, price: real) {
    exists i :: 0 <= i < |trades| && selected(trades[i]) && trades[i].price == price
      && forall j :: 0 <= j < i ==> !selected(trades[j])
  }

  ghost predicate ClosesAt(trades: seq<Trade>, selected: Trade -> bool, price: real) {
    exists i :: 0 <= i < |trades| && selected(trades[i]) && trades[i].price == price
      && forall j :: i < j < |trades| ==> !selected(trades[j])
  }

  ghost predicate TradedAt(trades: seq<Trade>, selected: Trade -> bool, price: real) {
    exists i :: 0 <= i < |trades| && selected(trades[i]) && trades[i].price == price
  }

  /** The candle's figures in terms of its trades alone: first and last price, extremes that are reached, volumes. */
  ghost predicate Describes(c: Candle, trades: seq<Trade>, selected: Trade -> bool) {
    && OpensAt(trades, selected, c.open)
    && ClosesAt(trades, selected, c.close)
    && TradedAt(trades, selected, c.high)
    && TradedAt(trades, selected, c.low)
    && (forall i :: 0 <= i < |trades| && selected(trades[i]) ==> c.low <= trades[i].price <= c.high)
    && c.volume == Sum(trades, VolumeOf(selected))
    && c.buyVolume == Sum(trades, BoughtOf(selected))
  }

  lemma {:induction false} NoVolume(trades: seq<Trade>, selected: Trade -> bool)
    requires Fold(trades, selected).None?
    ensures forall i :: 0 <= i < |trades| ==> !selected(trades[i])
    ensures Sum(trades, VolumeOf(selected)) == 0.0 && Sum(trades, BoughtOf(selected)) == 0.0
  {
    if trades != [] {
      NoVolume(trades[..|trades| - 1], selected);
    }
  }

  lemma OpensStill(trades: seq<Trade>, t: Trade, selected: Trade -> bool, price: real)
    requires OpensAt(trades, selected, price)
    ensures OpensAt(trades + [t], selected, price)
  {
    var i :| 0 <= i < |trades| && selected(trades[i]) && trades[i].price == price
             && forall j :: 0 <= j < i ==> !selected(trades[j]);
    assert (trades + [t])[i] == trades[i];
  }

  lemma ClosesNow(trades: seq<Trade>, t: Trade, selected: Trade -> bool, price: real)
    requires selected(t) || ClosesAt(trades, selected, price)
    ensures ClosesAt(trades + [t], selected, if selected(t) then t.price else price)
  {
    if selected(t) {
      assert (trades + [t])[|trades|] == t;
    } else {
      var i :| 0 <= i < |trades| && selected(trades[i]) && trades[i].price == price
               && forall j :: i < j < |trades| ==> !selected(trades[j]);
      assert (trades + [t])[i] == trades[i];
    }
  }

  lemma TradedStill(trades: seq<Trade>, t: Trade, selected: Trade -> bool, price: real)
    requires TradedAt(trades, selected, price) || (selected(t) && t.price == price)
    ensures TradedAt(trades + [t], selected, price)
  {
    if selected(t) && t.price == price {
      assert (trades + [t])[|trades|] == t;
    } else {
      var i :| 0 <= i < |trades| && selected(trades[i]) && trades[i].price == price;
      assert (trades + [t])[i] == trades[i];
    }
  }

  lemma DescribesMore(c: Candle, trades: seq<Trade>, t: Trade, selected: Trade -> bool)
    requires Describes(c, trades, selected)
    ensures Describes(if selected(t) then Extend(Some(c), t) else c, trades + [t], selected)
  {
    var d := if selected(t) then Extend(Some(c), t) else c;
    SumSnoc(trades, t, VolumeOf(selected));
    SumSnoc(trades, t, BoughtOf(selected));
    OpensStill(trades, t, selected, c.open);
    ClosesNow(trades, t, selected, c.close);
    TradedStill(trades, t, selected, d.high);
    TradedStill(trades, t, selected, d.low);
  }

  /** There is a candle exactly when some trade is selected, and it tells the truth about them. */
  lemma {:induction false} FoldDescribes(trades: seq<Trade>, selected: Trade -> bool)
    ensures Fold(trades, selected).Some? <==> exists i :: 0 <= i < |trades| && selected(trades[i])
    ensures Fold(trades, selected).Some? ==> Describes(Fold(trades, selected).value, trades, selected)
  {
    if trades != [] {
      var n := |trades| - 1;
      FoldDescribes(trades[..n], selected);
      assert trades == trades[..n] + [trades[n]];
      if Fold(trades[..n], selected).Some? {
        DescribesMore(Fold(trades[..n], selected).value, trades[..n], trades[n], selected);
      } else {
        NoVolume(trades[..n], selected);
        if selected(trades[n]) {
          var price := trades[n].price;
          assert OpensAt(trades, selected, price);
          assert ClosesAt(trades, selected, price);
          assert TradedAt(trades, selected, price);
        }
      }
    }
  }

  // ----- Buckets within buckets

  /** An asset's trades were recorded in the order they were executed. */
  ghost predicate InOrder(trades: seq<Trade>, asset: AssetId) {
    forall i, j :: 0 <= i < j < |trades| && trades[i].asset == trades[j].asset == asset ==>
      trades[i].time <= trades[j].time
  }

  /** A window is its earlier part followed by its later part. */
  lemma {:induction false} WindowSplit(trades: seq<Trade>, asset: AssetId, lo: Time, mid: Time, hi: Time)
    requires InOrder(trades, asset) && lo <= mid <= hi
    ensures Fold(trades, InWindow(asset, lo, hi))
         == Merge(Fold(trades, InWindow(asset, lo, mid)), Fold(trades, InWindow(asset, mid, hi)))
  {
    if trades != [] {
      var n := |trades| - 1;
      var last := trades[n];
      WindowSplit(trades[..n], asset, lo, mid, hi);
      if last.asset == asset && lo <= last.time < mid {
        FoldOfNone(trades[..n], InWindow(asset, mid, hi));
      } else if last.asset == asset && mid <= last.time < hi {
        MergeExtend(Fold(trades[..n], InWindow(asset, lo, mid)), Fold(trades[..n], InWindow(asset, mid, hi)), last);
      }
    }
  }

  /** The key of a bucket that trades can fall into. */
  predicate Aligned(k: Key) {
    OpenTime(k.openTime, k.resolution) == k.openTime
  }

  lemma SameMultiple(t: int, w: nat, k: int)
    requires w > 0
    ensures t / w * w == w * k <==> w * k <= t < w * k + w
  {
    var q := t / w;
    assert t == w * q + t % w;
    if w * k <= t < w * k + w {
      RoundedDown(t, w, k);
    }
  }

  /** A bucket is the window from its opening for as long as its resolution. */
  lemma BucketIsWindow(trades: seq<Trade>, k: Key)
    requires Aligned(k)
    ensures Fold(trades, InBucket(k)) == Fold(trades, InWindow(k.asset, k.openTime, k.openTime + Width(k.resolution)))
  {
    var w := Width(k.resolution);
    OpenTimeRoundsDown(k.openTime, k.resolution);
    forall t | t in trades
      ensures InBucket(k)(t) == InWindow(k.asset, k.openTime, k.openTime + w)(t)
    {
      OpenTimeRoundsDown(t.time, k.resolution);
      SameMultiple(t.time, w, k.openTime / w);
    }
    FoldCong(trades, InBucket(k), InWindow(k.asset, k.openTime, k.openTime + w));
  }

  /** The one-minute candles of n minutes from lo on, merged in order. */
  function Minutes(trades: seq<Trade>, asset: AssetId, lo: Time, n: nat): Option<Candle> {
    if n == 0 then None
    else Merge(Minutes(trades, asset, lo, n - 1), Fold(trades, InBucket(Key(asset, OneMinute, lo + 60 * (n - 1)))))
  }

  lemma {:induction false} MinutesAreWindow(trades: seq<Trade>, asset: AssetId, lo: Time, n: nat)
    requires InOrder(trades, asset) && lo % 60 == 0
    ensures Minutes(trades, asset, lo, n) == Fold(trades, InWindow(asset, lo, lo + 60 * n))
  {
    if n == 0 {
      FoldOfNone(trades, InWindow(asset, lo, lo));
    } else {
      var minute := Key(asset, OneMinute, lo + 60 * (n - 1));
      MinutesAreWindow(trades, asset, lo, n - 1);
      BucketIsWindow(trades, minute);
      WindowSplit(trades, asset, lo, lo + 60 * (n - 1), lo + 60 * n);
    }
  }

  /** The same range and volumes, whatever the first and the last price. */
  predicate Alike(c: Option<Candle>, d: Option<Candle>) {
    || (c.None? && d.None?)
    || (c.Some? && d.Some? && d.value == c.value.(open := d.value.open, close := d.value.close))
  }

  lemma MergeAlike(c: Option<Candle>, d: Option<Candle>, e: Option<Candle>, t: Trade)
    requires Alike(c, Merge(d, e))
    ensures Alike(Some(Extend(c, t)), Merge(d, Some(Extend(e, t))))
    ensures Alike(Some(Extend(c, t)), Merge(Some(Extend(d, t)), e))
  {
  }

  /** In whatever order the trades were recorded, the two parts of a window have its range and volumes together. */
  lemma {:induction false} WindowSplitAlike(trades: seq<Trade>, asset: AssetId, lo: Time, mid: Time, hi: Time)
    requires lo <= mid <= hi
    ensures Alike(Fold(trades, InWindow(asset, lo, hi)),
                  Merge(Fold(trades, InWindow(asset, lo, mid)), Fold(trades, InWindow(asset, mid, hi))))
  {
    if trades != [] {
      var n := |trades| - 1;
      WindowSplitAlike(trades[..n], asset, lo, mid, hi);
      MergeAlike(Fold(trades[..n], InWindow(asset, lo, hi)), Fold(trades[..n], InWindow(asset, lo, mid)),
                 Fold(trades[..n], InWindow(asset, mid, hi)), trades[n]);
    }
  }

  lemma {:induction false} MinutesAlikeWindow(trades: seq<Trade>, asset: AssetId, lo: Time, n: nat)
    requires lo % 60 == 0
    ensures Alike(Fold(trades, InWindow(asset, lo, lo + 60 * n)), Minutes(trades, asset, lo, n))
  {
    if n == 0 {
      FoldOfNone(trades, InWindow(asset, lo, lo));
    } else {
      var minute := Key(asset, OneMinute, lo + 60 * (n - 1));
      MinutesAlikeWindow(trades, asset, lo, n - 1);
      BucketIsWindow(trades, minute);
      WindowSplitAlike(trades, asset, lo, lo + 60 * (n - 1), lo + 60 * n);
    }
  }

  lemma AlignedToMinutes(k: Key)
    requires Aligned(k)
    ensures k.openTime % 60 == 0 && Width(k.resolution) / 60 * 60 == Width(k.resolution)
  {
    var day, hour, minute, second := ReadClock(k.openTime);
    OpenTimeOfClock(day, hour, minute, second, k.resolution);
    var q := 1440 * day + 60 * HourOf(k.resolution, hour) + MinuteOf(k.resolution, minute);
    DivMod(k.openTime, 60, q, 0);
  }

  /** Roll-up: a candle of any resolution has the range and volumes of its one-minute candles together, and it is their
      ordered merge when the trades were recorded in order. */
  lemma CoarseIsMergeOfMinutes(trades: seq<Trade>, k: Key)
    requires Aligned(k)
    ensures Alike(Fold(trades, InBucket(k)), Minutes(trades, k.asset, k.openTime, Width(k.resolution) / 60))
    ensures InOrder(trades, k.asset) ==>
              Fold(trades, InBucket(k)) == Minutes(trades, k.asset, k.openTime, Width(k.resolution) / 60)
  {
    var n := Width(k.resolution) / 60;
    AlignedToMinutes(k);
    BucketIsWindow(trades, k);
    MinutesAlikeWindow(trades, k.asset, k.openTime, n);
    if InOrder(trades, k.asset) {
      MinutesAreWindow(trades, k.asset, k.openTime, n);
    }
  }
}
