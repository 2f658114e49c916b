/** Minute bars as stored snapshots hold them, where any field may be missing, and the
    startup normaliser of app_runtime.py that rebuilds a clean list from them. */
module SnapshotBars {
  import opened Sequences
  import opened TradingSession
  import opened MinuteBars

  /** A stored bar. A missing or unreadable timestamp is `None`; `body` is everything else. */
  datatype RawBar = RawBar(stamp: Option<int>, price: Option<real>, close: Option<real>,
                           high: Option<real>, low: Option<real>, volume: Option<int>,
                           turnover: Option<real>, direction: Option<Direction>, body: int)

  function StampOf(bar: RawBar): Option<int> {
    bar.stamp
  }

  /** The regular minute of a bar that counts for this trade date (`None`: for any date). */
  function RegularMinute(bar: RawBar, date: Option<int>): Option<int> {
    if bar.stamp.Some? && IsRegularMinute(MinuteOf(bar.stamp.value), date) then Some(MinuteOf(bar.stamp.value))
    else None
  }

  function Bucketed(bar: RawBar): RawBar {
    if bar.stamp.Some? then bar.(stamp := Some(BucketStamp(bar.stamp.value))) else bar
  }

  /** `dict.get(key, default)`. */
  function Else<T>(x: Option<T>, y: Option<T>): Option<T> {
    if x.Some? then x else y
  }

  /** `float(x or y or 0)`. */
  function OrZero(x: Option<real>, y: Option<real>): real {
    Or(x.GetOr(0.0), y.GetOr(0.0))
  }

  /** A later bar of the same minute folded into the earlier one. The new price is in place
      before the high and low fall back on it. */
  function Folded(previous: RawBar, bar: RawBar): RawBar {
    var price := Else(bar.price, Else(bar.close, previous.price));
    previous.(price := price,
              close := Else(bar.close, Else(bar.price, previous.close)),
              high := Some(Max(OrZero(previous.high, price), OrZero(bar.high, bar.price))),
              low := Some(Min(OrZero(previous.low, price), OrZero(bar.low, bar.price))),
              volume := Some(previous.volume.GetOr(0) + bar.volume.GetOr(0)),
              turnover := Some(previous.turnover.GetOr(0.0) + bar.turnover.GetOr(0.0)),
              direction := Some(bar.direction.GetOr(previous.direction.GetOr(Flat))))
  }

  function MergedByMinute(bars: seq<RawBar>, date: Option<int>): map<int, RawBar> {
    if bars == [] then map[]
    else
      var front, bar := MergedByMinute(bars[..|bars| - 1], date), bars[|bars| - 1];
      var minute := RegularMinute(bar, date);
      if minute.None? then front
      else if minute.value in front then front[minute.value := Folded(front[minute.value], bar)]
      else front[minute.value := Bucketed(bar)]
  }

  function Normalized(bars: seq<RawBar>, date: Option<int>, now: int): seq<RawBar> {
    Pruned(StampOf, InKeyOrder(MergedByMinute(bars, date)), now)
  }

  /** The bar list of a cached snapshot, which the normaliser overwrites in place. */
  class CachedSnapshot {
    var date: Option<int>
    var bars: seq<RawBar>

    constructor (date: Option<int>, bars: seq<RawBar>)
      ensures this.date == date && this.bars == bars
    {
      this.date, this.bars := date, bars;
    }

    /** `normalize_snapshot_minute_bars`. */
    method Normalize(now: int)
      modifies this`bars
      ensures bars == Normalized(old(bars), date, now)
    {
      var merged: map<int, RawBar> := map[];
      for i := 0 to |bars|
        invariant bars == old(bars) && merged == MergedByMinute(bars[..i], date)
      {
        assert bars[..i + 1][..i] == bars[..i];
        var raw := bars[i];
        if raw.stamp.None? {
          continue;
        }
        var minute := MinuteOf(raw.stamp.value);
        if !IsRegularMinute(minute, date) {
          continue;
        }
        if minute !in merged {
          merged := merged[minute := raw.(stamp := Some(minute * MS_PER_MINUTE))];
          continue;
        }
        merged := merged[minute := Folded(merged[minute], raw)];
      }
      assert bars[..|bars|] == bars;
      bars := PruneFutureMinuteBars(StampOf, InKeyOrder(merged), now);
    }
  }

  // ---------- the normal form ----------

  function BarMinute(bar: RawBar): int {
    MinuteOf(bar.stamp.GetOr(0))
  }

  /** A bar of this regular minute, stamped with the start of the minute. */
  predicate IsEntry(bar: RawBar, minute: int, date: Option<int>) {
    RegularMinute(bar, date) == Some(minute) && bar.stamp == Some(minute * MS_PER_MINUTE)
  }

  /** Bucketed regular bars of strictly increasing minutes. */
  ghost predicate Clean(bars: seq<RawBar>, date: Option<int>) {
    && (forall i {:trigger bars[i]} :: 0 <= i < |bars| ==> IsEntry(bars[i], BarMinute(bars[i]), date))
    && (forall i, j :: 0 <= i < j < |bars| ==> BarMinute(bars[i]) < BarMinute(bars[j]))
  }

  ghost predicate Entries(m: map<int, RawBar>, date: Option<int>) {
    forall k :: k in m ==> IsEntry(m[k], k, date)
  }

  lemma EntryOf(bar: RawBar, date: Option<int>, minute: int)
    requires RegularMinute(bar, date) == Some(minute)
    ensures IsEntry(Bucketed(bar), minute, date)
  {
  }

  lemma {:induction false} MergedEntries(bars: seq<RawBar>, date: Option<int>)
    ensures Entries(MergedByMinute(bars, date), date)
  {
    if bars != [] {
      var bar := bars[|bars| - 1];
      MergedEntries(bars[..|bars| - 1], date);
      if RegularMinute(bar, date).Some? {
        EntryOf(bar, date, RegularMinute(bar, date).value);
      }
    }
  }

  /** A per-minute dictionary of entries lists as a clean bar list. */
  lemma ListedClean(m: map<int, RawBar>, date: Option<int>)
    requires Entries(m, date)
    ensures Clean(InKeyOrder(m), date)
    ensures forall k :: k in m ==> m[k] in InKeyOrder(m)
    ensures forall i :: 0 <= i < |InKeyOrder(m)| ==> BarMinute(InKeyOrder(m)[i]) in m
                                                     && InKeyOrder(m)[i] == m[BarMinute(InKeyOrder(m)[i])]
  {
    var r, keys := InKeyOrder(m), SortedKeys(m.Keys);
    SortedKeysMembers(m.Keys);
    SortedKeysIncrease(m.Keys);
    forall i | 0 <= i < |r|
      ensures keys[i] in m && r[i] == m[keys[i]] && BarMinute(r[i]) == keys[i]
    {
      InKeyOrderEntry(m, i);
    }
    forall k | k in m
      ensures m[k] in r
    {
      var i :| 0 <= i < |keys| && keys[i] == k;
      assert r[i] == m[k];
    }
  }

  lemma CleanPrefix(bars: seq<RawBar>, date: Option<int>)
    requires Clean(bars, date) && bars != []
    ensures Clean(bars[..|bars| - 1], date)
    ensures forall b :: b in bars[..|bars| - 1] ==> BarMinute(b) < BarMinute(bars[|bars| - 1])
    ensures IsEntry(bars[|bars| - 1], BarMinute(bars[|bars| - 1]), date)
  {
  }

  lemma CleanAppend(bars: seq<RawBar>, bar: RawBar, date: Option<int>)
    requires Clean(bars, date) && IsEntry(bar, BarMinute(bar), date)
    requires forall b :: b in bars ==> BarMinute(b) < BarMinute(bar)
    ensures Clean(bars + [bar], date)
  {
  }

  lemma {:induction false} KeptPastIsClean(bars: seq<RawBar>, date: Option<int>, now: int)
    requires Clean(bars, date)
    ensures Clean(KeepPast(StampOf, bars, now), date)
  {
    if bars != [] {
      var front, last := bars[..|bars| - 1], bars[|bars| - 1];
      CleanPrefix(bars, date);
      KeptPastIsClean(front, date, now);
      KeepPastMembers(StampOf, front, now);
      if InPast(last.stamp, now) {
        CleanAppend(KeepPast(StampOf, front, now), last, date);
      }
    }
  }

  lemma CleanSuffix(bars: seq<RawBar>, date: Option<int>, n: nat)
    requires Clean(bars, date)
    ensures Clean(LastN(bars, n), date)
    ensures forall b :: b in LastN(bars, n) ==> b in bars
  {
  }

  lemma MergedStep(front: seq<RawBar>, bar: RawBar, date: Option<int>)
    requires IsEntry(bar, BarMinute(bar), date) && BarMinute(bar) !in MergedByMinute(front, date)
    ensures MergedByMinute(front + [bar], date) == MergedByMinute(front, date)[BarMinute(bar) := bar]
  {
    assert (front + [bar])[..|front|] == front;
  }

  /** Clean bars list themselves. */
  lemma {:induction false} CleanIsFixed(bars: seq<RawBar>, date: Option<int>)
    requires Clean(bars, date)
    ensures InKeyOrder(MergedByMinute(bars, date)) == bars
    ensures forall k :: k in MergedByMinute(bars, date) ==> bars != [] && k <= BarMinute(bars[|bars| - 1])
  {
    if bars == [] {
      assert MergedByMinute(bars, date).Keys == {};
    } else {
      var front, last := bars[..|bars| - 1], bars[|bars| - 1];
      CleanPrefix(bars, date);
      CleanIsFixed(front, date);
      if front != [] {
        assert front[|front| - 1] in front;
      }
      assert bars == front + [last];
      MergedStep(front, last, date);
      InKeyOrderGreatest(MergedByMinute(front, date), BarMinute(last), last);
    }
  }

  lemma NormalizedIsClean(bars: seq<RawBar>, date: Option<int>, now: int)
    ensures var r := Normalized(bars, date, now);
            Clean(r, date) && |r| <= BAR_CAP && (forall b :: b in r ==> InPast(b.stamp, now))
  {
    var m := MergedByMinute(bars, date);
    var listed := InKeyOrder(m);
    MergedEntries(bars, date);
    ListedClean(m, date);
    KeptPastIsClean(listed, date, now);
    KeepPastMembers(StampOf, listed, now);
    CleanSuffix(KeepPast(StampOf, listed, now), date, BAR_CAP);
  }

  /** Normalising is idempotent for a fixed clock. */
  lemma NormalizeTwice(bars: seq<RawBar>, date: Option<int>, now: int)
    ensures Normalized(Normalized(bars, date, now), date, now) == Normalized(bars, date, now)
  {
    var r := Normalized(bars, date, now);
    NormalizedIsClean(bars, date, now);
    CleanIsFixed(r, date);
    KeepPastIdentity(StampOf, r, now);
  }

  // ---------- what each kept bar holds ----------

  /** The bars of one minute that count, in order. */
  function GroupAt(bars: seq<RawBar>, date: Option<int>, minute: int): seq<RawBar> {
    if bars == [] then []
    else GroupAt(bars[..|bars| - 1], date, minute)
         + if RegularMinute(bars[|bars| - 1], date) == Some(minute) then [bars[|bars| - 1]] else []
  }

  function FoldGroup(group: seq<RawBar>): RawBar
    requires group != []
  {
    if |group| == 1 then Bucketed(group[0])
    else Folded(FoldGroup(group[..|group| - 1]), group[|group| - 1])
  }

  function GroupVolume(group: seq<RawBar>): int {
    if group == [] then 0 else GroupVolume(group[..|group| - 1]) + group[|group| - 1].volume.GetOr(0)
  }

  function GroupTurnover(group: seq<RawBar>): real {
    if group == [] then 0.0 else GroupTurnover(group[..|group| - 1]) + group[|group| - 1].turnover.GetOr(0.0)
  }

  /** The entry of a minute is the fold of that minute's bars alone, whatever lies between them. */
  lemma {:induction false} EntryIsFold(bars: seq<RawBar>, date: Option<int>, minute: int)
    ensures var m, group := MergedByMinute(bars, date), GroupAt(bars, date, minute);
            (minute in m <==> group != []) && (minute in m ==> m[minute] == FoldGroup(group))
  {
    if bars != [] {
      var front, bar := bars[..|bars| - 1], bars[|bars| - 1];
      EntryIsFold(front, date, minute);
      var group := GroupAt(front, date, minute);
      if RegularMinute(bar, date) == Some(minute) {
        assert (group + [bar])[..|group|] == group;
      } else {
        assert GroupAt(bars, date, minute) == group;
      }
    }
  }

  lemma {:induction false} FoldConserves(group: seq<RawBar>)
    requires group != []
    ensures FoldGroup(group).volume.GetOr(0) == GroupVolume(group)
    ensures FoldGroup(group).turnover.GetOr(0.0) == GroupTurnover(group)
  {
    if |group| == 1 {
      assert group[..0] == [];
    } else {
      FoldConserves(group[..|group| - 1]);
    }
  }

  /** All four prices are there and none is the 0.0 that counts as missing. */
  predicate FullyPriced(b: RawBar) {
    && b.price.Some? && b.close.Some? && b.high.Some? && b.low.Some?
    && b.high.value != 0.0 && b.low.value != 0.0
  }

  /** The last price and close, the extremes of all bars, and whatever else the first carries. */
  ghost predicate Envelops(r: RawBar, group: seq<RawBar>)
    requires group != []
  {
    && FullyPriced(r)
    && r.price == group[|group| - 1].price && r.close == group[|group| - 1].close && r.body == group[0].body
    && (forall b :: b in group && FullyPriced(b) ==> r.low.value <= b.low.value && b.high.value <= r.high.value)
    && (exists b :: b in group && b.high == r.high) && (exists b :: b in group && b.low == r.low)
  }

  lemma EnvelopsStep(r: RawBar, group: seq<RawBar>, bar: RawBar)
    requires group != [] && Envelops(r, group) && FullyPriced(bar)
    ensures Envelops(Folded(r, bar), group + [bar])
  {
    var h :| h in group && h.high == r.high;
    var l :| l in group && l.low == r.low;
    var all := group + [bar];
    assert all[|group|] == bar && all[0] == group[0];
    assert h in all && l in all && bar in all;
    var x := Folded(r, bar);
    assert x.high == h.high || x.high == bar.high;
    assert x.low == l.low || x.low == bar.low;
  }

  /** Folding fully priced bars gives their envelope. */
  lemma {:induction false} FoldEnvelope(group: seq<RawBar>)
    requires group != [] && forall b :: b in group ==> FullyPriced(b)
    ensures Envelops(FoldGroup(group), group)
  {
    var front, last := group[..|group| - 1], group[|group| - 1];
    assert group == front + [last];
    if front == [] {
      assert last in group && FoldGroup(group) == Bucketed(last);
    } else {
      FoldEnvelope(front);
      EnvelopsStep(FoldGroup(front), front, last);
    }
  }

  /** Which bars count for a minute: those stamped within it, if it is a regular one. */
  lemma {:induction false} GroupMeans(bars: seq<RawBar>, date: Option<int>, minute: int)
    ensures forall b :: b in GroupAt(bars, date, minute)
                        <==> b in bars && b.stamp.Some? && b.stamp.value / 60_000 == minute
                             && IsRegularMinute(minute, date)
    ensures IsSubsequence(GroupAt(bars, date, minute), bars)
  {
    if bars != [] {
      var front, last := bars[..|bars| - 1], bars[|bars| - 1];
      GroupMeans(front, date, minute);
      assert bars == front + [last];
      if RegularMinute(last, date) == Some(minute) {
        SubsequenceKeep(GroupAt(front, date, minute), front, last);
      } else {
        SubsequenceSkip(GroupAt(front, date, minute), front, last);
        assert GroupAt(front, date, minute) + [] == GroupAt(front, date, minute);
      }
    }
  }

  /** What folding takes from where, also when fields are missing: the later bar's price, or its
      close, or else the earlier price; the close the other way round; the later direction if
      there is one; a missing or zero high or low is replaced by the price. */
  lemma FoldMeans(previous: RawBar, bar: RawBar)
    ensures var r := Folded(previous, bar);
            && r.stamp == previous.stamp && r.body == previous.body
            && (bar.price.Some? ==> r.price == bar.price)
            && (bar.price.None? && bar.close.Some? ==> r.price == bar.close)
            && (bar.price.None? && bar.close.None? ==> r.price == previous.price)
            && (bar.close.Some? ==> r.close == bar.close)
            && (bar.close.None? && bar.price.Some? ==> r.close == bar.price)
            && (bar.close.None? && bar.price.None? ==> r.close == previous.close)
            && (bar.direction.Some? ==> r.direction == bar.direction)
            && (bar.direction.None? && previous.direction.Some? ==> r.direction == previous.direction)
            && (bar.direction.None? && previous.direction.None? ==> r.direction == Some(Flat))
            && (forall h, g :: IsOr(previous.high, r.price, h) && IsOr(bar.high, bar.price, g) ==>
                  r.high == Some(if h >= g then h else g))
            && (forall h, g :: IsOr(previous.low, r.price, h) && IsOr(bar.low, bar.price, g) ==>
                  r.low == Some(if h <= g then h else g))
  {
  }

  /** A field that is there and not zero, or else the price, or else zero. */
  predicate IsOr(field: Option<real>, price: Option<real>, value: real) {
    if field.Some? && field.value != 0.0 then value == field.value
    else if price.Some? then value == price.value else value == 0.0
  }

  /** Every kept bar is the fold of all bars of its minute and conserves their volume and turnover. */
  lemma KeptBarsConserve(bars: seq<RawBar>, date: Option<int>, now: int, b: RawBar)
    requires b in Normalized(bars, date, now)
    ensures var group := GroupAt(bars, date, BarMinute(b));
            && group != [] && b == FoldGroup(group)
            && b.volume.GetOr(0) == GroupVolume(group)
            && b.turnover.GetOr(0.0) == GroupTurnover(group)
  {
    var m := MergedByMinute(bars, date);
    var listed := InKeyOrder(m);
    MergedEntries(bars, date);
    ListedClean(m, date);
    KeepPastMembers(StampOf, listed, now);
    assert b in KeepPast(StampOf, listed, now);
    var i :| 0 <= i < |listed| && listed[i] == b;
    EntryIsFold(bars, date, BarMinute(b));
    FoldConserves(GroupAt(bars, date, BarMinute(b)));
  }

  lemma CleanDayFitsCap(bars: seq<RawBar>, date: int)
    requires Clean(bars, Some(date))
    ensures |bars| <= MINUTES_PER_SESSION && LastN(bars, BAR_CAP) == bars
  {
    var minutes := seq(|bars|, i requires 0 <= i < |bars| => BarMinute(bars[i]));
    forall i | 0 <= i < |minutes|
      ensures IsRegularMinute(minutes[i], Some(date))
    {
      assert IsEntry(bars[i], minutes[i], Some(date));
    }
    assert AllRegular(minutes, date);
    SessionFitsCap(minutes, date);
  }

  /** With a trade date, exactly the minutes after the clock are dropped. */
  lemma OnlyFutureMinutesDropped(bars: seq<RawBar>, date: int, now: int, minute: int)
    ensures (exists b :: b in Normalized(bars, Some(date), now) && BarMinute(b) == minute)
            <==> minute <= MinuteOf(now) && GroupAt(bars, Some(date), minute) != []
  {
    var m := MergedByMinute(bars, Some(date));
    var listed := InKeyOrder(m);
    EntryIsFold(bars, Some(date), minute);
    MergedEntries(bars, Some(date));
    ListedClean(m, Some(date));
    KeptPastIsClean(listed, Some(date), now);
    KeepPastMembers(StampOf, listed, now);
    CleanDayFitsCap(KeepPast(StampOf, listed, now), date);
    if minute in m {
      assert IsEntry(m[minute], minute, Some(date));
      assert m[minute] in listed;
      assert BarMinute(m[minute]) == minute;
    }
    forall b | b in Normalized(bars, Some(date), now) && BarMinute(b) == minute
      ensures minute in m && minute <= MinuteOf(now)
    {
      assert b in listed && InPast(b.stamp, now);
      var i :| 0 <= i < |listed| && listed[i] == b;
    }
  }
}
