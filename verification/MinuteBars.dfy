/** Minute bars: the three list operations of pipeline.py that every snapshot goes
    through, and the law that folding ticks into bars is a group-by on the minute. */
module MinuteBars {
  import opened Sequences
  import opened TradingSession

  datatype Direction = Up | Down | Flat

  datatype Tick = Tick(ts: int, price: real, volume: int, turnover: real, direction: Direction)

  datatype Bar = Bar(ts: int, price: real, open: real, high: real, low: real, close: real,
                     volume: int, turnover: real, direction: Direction, confirmed: bool)
  {
    function Minute(): int {
      MinuteOf(ts)
    }
  }

  function Max(x: real, y: real): real { if x < y then y else x }

  function Min(x: real, y: real): real { if y < x then y else x }

  /** Python's `x or y` on numbers: zero counts as missing. */
  function Or(x: real, y: real): real { if x != 0.0 then x else y }

  predicate EarlierBar(x: Bar, y: Bar) {
    x.Minute() <= y.Minute()
  }

  function Minutes(bars: seq<Bar>): (r: seq<int>)
    ensures |r| == |bars|
    ensures forall i :: 0 <= i < |bars| ==> r[i] == bars[i].Minute()
  {
    seq(|bars|, i requires 0 <= i < |bars| => bars[i].Minute())
  }

  ghost predicate Ordered(bars: seq<Bar>) {
    forall i, j :: 0 <= i < j < |bars| ==> bars[i].Minute() < bars[j].Minute()
  }

  /** Every bar lies in the regular session of that date. */
  ghost predicate OnDate(bars: seq<Bar>, date: int) {
    forall i {:trigger bars[i]} :: 0 <= i < |bars| ==> IsRegularMinute(bars[i].Minute(), Some(date))
  }

  lemma OneDayFitsCap(bars: seq<Bar>, date: int)
    requires Ordered(bars) && OnDate(bars, date)
    ensures |bars| <= MINUTES_PER_SESSION && LastN(bars, BAR_CAP) == bars
  {
    var minutes := Minutes(bars);
    assert AllRegular(minutes, date);
    SessionFitsCap(minutes, date);
  }

  /** What a bar list says about each minute; the later entry wins. */
  function BarMap(bars: seq<Bar>): map<int, Bar> {
    if bars == [] then map[]
    else BarMap(bars[..|bars| - 1])[bars[|bars| - 1].Minute() := bars[|bars| - 1]]
  }

  lemma SameRest<K, V>(f: map<K, V>, g: map<K, V>, k: K, v: V)
    requires k !in f && k !in g && f[k := v] == g[k := v]
    ensures f == g
  {
    assert f == f[k := v] - {k} && g == g[k := v] - {k};
  }

  lemma UpdatesCommute<K, V>(m: map<K, V>, k: K, v: V, k': K, v': V)
    requires k != k'
    ensures m[k := v][k' := v'] == m[k' := v'][k := v]
  {
  }

  lemma {:induction false} BarMapEntries(bars: seq<Bar>)
    ensures forall m :: m in BarMap(bars) ==> BarMap(bars)[m] in bars && BarMap(bars)[m].Minute() == m
    ensures forall b :: b in bars ==> b.Minute() in BarMap(bars)
  {
    if bars != [] {
      BarMapEntries(bars[..|bars| - 1]);
      assert bars == bars[..|bars| - 1] + [bars[|bars| - 1]];
    }
  }

  /** The last bar of an ordered list has the greatest minute, and the rest lies before it. */
  lemma SplitLast(bars: seq<Bar>)
    requires bars != [] && Ordered(bars)
    ensures var front, last := bars[..|bars| - 1], bars[|bars| - 1];
            && Ordered(front)
            && (forall m :: m in BarMap(front) ==> m < last.Minute())
            && BarMap(bars) == BarMap(front)[last.Minute() := last]
            && (forall b :: b in front ==> b.Minute() < last.Minute())
  {
    BarMapEntries(bars[..|bars| - 1]);
  }

  lemma {:induction false} BarMapExact(bars: seq<Bar>, b: Bar)
    requires Ordered(bars) && b in bars
    ensures b.Minute() in BarMap(bars) && BarMap(bars)[b.Minute()] == b
  {
    var front, last := bars[..|bars| - 1], bars[|bars| - 1];
    if b != last {
      SplitLast(bars);
      assert b in front;
      BarMapExact(front, b);
    }
  }

  lemma {:induction false} BarMapSize(bars: seq<Bar>)
    requires Ordered(bars)
    ensures |BarMap(bars)| == |bars|
  {
    if bars != [] {
      SplitLast(bars);
      BarMapSize(bars[..|bars| - 1]);
    }
  }

  lemma BarMapSound(bars: seq<Bar>)
    requires Ordered(bars)
    ensures forall m :: m in BarMap(bars) ==> BarMap(bars)[m] in bars && BarMap(bars)[m].Minute() == m
    ensures forall b :: b in bars ==> b.Minute() in BarMap(bars) && BarMap(bars)[b.Minute()] == b
    ensures |BarMap(bars)| == |bars|
  {
    BarMapEntries(bars);
    BarMapSize(bars);
    forall b | b in bars
      ensures b.Minute() in BarMap(bars) && BarMap(bars)[b.Minute()] == b
    {
      BarMapExact(bars, b);
    }
  }

  /** The greatest minute of an ordered list is the minute of its last bar. */
  lemma LastMinute(bars: seq<Bar>, minute: int)
    requires Ordered(bars) && minute in BarMap(bars)
    ensures bars != [] && minute <= bars[|bars| - 1].Minute() && bars[|bars| - 1].Minute() in BarMap(bars)
  {
    SplitLast(bars);
  }

  /** An ordered bar list is determined by its map: there is one normal form. */
  lemma {:induction false} OrderedUnique(a: seq<Bar>, b: seq<Bar>)
    requires Ordered(a) && Ordered(b) && BarMap(a) == BarMap(b)
    ensures a == b
  {
    BarMapSize(a);
    BarMapSize(b);
    if a != [] {
      var x, y := a[|a| - 1], b[|b| - 1];
      LastMinute(b, x.Minute());
      LastMinute(a, y.Minute());
      SplitLast(a);
      SplitLast(b);
      assert x == BarMap(a)[x.Minute()] == y;
      var fa, fb := a[..|a| - 1], b[..|b| - 1];
      SameRest(BarMap(fa), BarMap(fb), x.Minute(), x);
      OrderedUnique(fa, fb);
      assert a == fa + [x] && b == fb + [x];
    }
  }

  lemma AppendLater(bars: seq<Bar>, x: Bar)
    requires Ordered(bars) && forall b :: b in bars ==> b.Minute() < x.Minute()
    ensures Ordered(bars + [x])
    ensures BarMap(bars + [x]) == BarMap(bars)[x.Minute() := x]
  {
    assert (bars + [x])[..|bars|] == bars;
    forall i, j | 0 <= i < j < |bars + [x]|
      ensures (bars + [x])[i].Minute() < (bars + [x])[j].Minute()
    {
      assert bars[i] in bars;
    }
  }

  lemma RemoveAndPut<K, V>(m: map<K, V>, k: K)
    requires k in m
    ensures (m - {k})[k := m[k]] == m && (m - {k}).Keys == m.Keys - {k}
  {
  }

  /** Listing a per-minute dictionary gives the ordered list with that map. */
  lemma {:induction false} ListedByMinute(m: map<int, Bar>)
    requires forall k :: k in m ==> m[k].Minute() == k
    ensures Ordered(InKeyOrder(m)) && BarMap(InKeyOrder(m)) == m
    decreases |m.Keys|
  {
    if m.Keys != {} {
      var k := Greatest(m.Keys);
      RemoveAndPut(m, k);
      ListedByMinute(m - {k});
      AppendGreatest(m - {k}, k, m[k]);
    } else {
      assert m == map[];
    }
  }

  lemma AppendGreatest(rest: map<int, Bar>, k: int, x: Bar)
    requires x.Minute() == k && forall j :: j in rest ==> j < k
    requires Ordered(InKeyOrder(rest)) && BarMap(InKeyOrder(rest)) == rest
    ensures Ordered(InKeyOrder(rest[k := x])) && BarMap(InKeyOrder(rest[k := x])) == rest[k := x]
  {
    BarMapEntries(InKeyOrder(rest));
    InKeyOrderGreatest(rest, k, x);
    AppendLater(InKeyOrder(rest), x);
  }

  // ---------- pruning future bars ----------

  predicate InPast(stamp: Option<int>, now: int) {
    stamp.Some? && MinuteOf(stamp.value) <= MinuteOf(now)
  }

  function KeepPast<B>(stampOf: B -> Option<int>, bars: seq<B>, now: int): seq<B> {
    if bars == [] then []
    else KeepPast(stampOf, bars[..|bars| - 1], now)
         + if InPast(stampOf(bars[|bars| - 1]), now) then [bars[|bars| - 1]] else []
  }

  function Pruned<B>(stampOf: B -> Option<int>, bars: seq<B>, now: int): seq<B> {
    LastN(KeepPast(stampOf, bars, now), BAR_CAP)
  }

  /** `prune_future_minute_bars`: a bar without a readable timestamp (`None`) is dropped too. */
  method PruneFutureMinuteBars<B>(stampOf: B -> Option<int>, bars: seq<B>, now: int) returns (r: seq<B>)
    ensures r == Pruned(stampOf, bars, now)
  {
    r := [];
    for i := 0 to |bars|
      invariant r == KeepPast(stampOf, bars[..i], now)
    {
      assert bars[..i + 1][..i] == bars[..i];
      var stamp := stampOf(bars[i]);
      if stamp.None? || MinuteOf(stamp.value) > MinuteOf(now) {
        continue;
      }
      r := r + [bars[i]];
    }
    assert bars[..|bars|] == bars;
    r := LastN(r, BAR_CAP);
  }

  lemma {:induction false} KeepPastIdentity<B>(stampOf: B -> Option<int>, bars: seq<B>, now: int)
    requires forall b :: b in bars ==> InPast(stampOf(b), now)
    ensures KeepPast(stampOf, bars, now) == bars
  {
    if bars != [] {
      KeepPastIdentity(stampOf, bars[..|bars| - 1], now);
    }
  }

  function BarStamp(bar: Bar): Option<int> {
    Some(bar.ts)
  }

  ghost predicate AllPast(bars: seq<Bar>, now: int) {
    forall i {:trigger bars[i]} :: 0 <= i < |bars| ==> bars[i].Minute() <= MinuteOf(now)
  }

  lemma {:induction false} KeepPastMembers<B>(stampOf: B -> Option<int>, bars: seq<B>, now: int)
    ensures forall b :: b in KeepPast(stampOf, bars, now) <==> b in bars && InPast(stampOf(b), now)
  {
    if bars != [] {
      KeepPastMembers(stampOf, bars[..|bars| - 1], now);
      assert bars == bars[..|bars| - 1] + [bars[|bars| - 1]];
    }
  }

  /** Exactly the bars with a readable timestamp not after the clock's minute are kept. */
  lemma KeepPastMeans<B>(stampOf: B -> Option<int>, bars: seq<B>, now: int)
    ensures forall b :: b in KeepPast(stampOf, bars, now)
                        <==> b in bars && stampOf(b).Some? && stampOf(b).value < now - now % 60_000 + 60_000
  {
    KeepPastMembers(stampOf, bars, now);
    forall b | stampOf(b).Some?
      ensures InPast(stampOf(b), now) <==> stampOf(b).value < now - now % 60_000 + 60_000
    {
    }
  }

  /** Of more bars than the cap the last ones are kept. */
  lemma PrunedIsTail<B>(stampOf: B -> Option<int>, bars: seq<B>, now: int)
    ensures var kept, r := KeepPast(stampOf, bars, now), Pruned(stampOf, bars, now);
            && (|kept| <= 420 ==> r == kept)
            && (|kept| > 420 ==> |r| == 420 && kept == kept[..|kept| - 420] + r)
  {
  }

  lemma {:induction false} KeepPastOrdered(bars: seq<Bar>, now: int)
    requires Ordered(bars)
    ensures Ordered(KeepPast(BarStamp, bars, now))
  {
    if bars != [] {
      var front, last := bars[..|bars| - 1], bars[|bars| - 1];
      KeepPastOrdered(front, now);
      KeepPastMembers(BarStamp, front, now);
      var kept := KeepPast(BarStamp, front, now);
      forall b | b in kept
        ensures b.Minute() < last.Minute()
      {
        SplitLast(bars);
      }
      if InPast(BarStamp(last), now) {
        AppendLater(kept, last);
      }
    }
  }

  lemma KeepPastOfOrdered(bars: seq<Bar>, now: int)
    requires Ordered(bars)
    ensures var kept := KeepPast(BarStamp, bars, now);
            && Ordered(kept) && AllPast(kept, now)
            && (forall b :: b in kept <==> b in bars && b.Minute() <= MinuteOf(now))
  {
    KeepPastOrdered(bars, now);
    KeepPastMembers(BarStamp, bars, now);
    var kept := KeepPast(BarStamp, bars, now);
    forall i | 0 <= i < |kept|
      ensures kept[i].Minute() <= MinuteOf(now)
    {
      assert kept[i] in kept;
    }
  }

  /** Pruning leaves an ordered one-day list ordered, on that day and in the past, and
      drops exactly the bars of later minutes. */
  lemma PrunedOneDay(bars: seq<Bar>, date: int, now: int)
    requires Ordered(bars) && OnDate(bars, date)
    ensures var kept := Pruned(BarStamp, bars, now);
            && kept == KeepPast(BarStamp, bars, now)
            && Ordered(kept) && OnDate(kept, date) && AllPast(kept, now)
            && (AllPast(bars, now) ==> kept == bars)
            && (forall b :: b in kept <==> b in bars && b.Minute() <= MinuteOf(now))
  {
    var kept := KeepPast(BarStamp, bars, now);
    KeepPastOfOrdered(bars, now);
    forall i | 0 <= i < |kept|
      ensures IsRegularMinute(kept[i].Minute(), Some(date))
    {
      assert kept[i] in kept;
    }
    OneDayFitsCap(kept, date);
    if AllPast(bars, now) {
      KeepPastIdentity(BarStamp, bars, now);
    }
  }

  // ---------- upsert of a tick ----------

  function BucketStamp(ts: int): int {
    MinuteOf(ts) * MS_PER_MINUTE
  }

  function MergeTick(previous: Bar, tick: Tick): Bar {
    previous.(ts := BucketStamp(tick.ts), price := tick.price, close := tick.price,
              high := Max(previous.high, tick.price), low := Min(previous.low, tick.price),
              volume := previous.volume + tick.volume, turnover := previous.turnover + tick.turnover,
              direction := tick.direction)
  }

  function OpenBar(tick: Tick): Bar {
    Bar(BucketStamp(tick.ts), tick.price, tick.price, tick.price, tick.price, tick.price,
        tick.volume, tick.turnover, tick.direction, false)
  }

  /** The first bar of that minute, if any. */
  function FirstAt(bars: seq<Bar>, minute: int): (r: Option<nat>)
    ensures r.Some? ==> r.value < |bars| && bars[r.value].Minute() == minute
    ensures r.Some? ==> forall i :: 0 <= i < r.value ==> bars[i].Minute() != minute
    ensures r.None? ==> forall i :: 0 <= i < |bars| ==> bars[i].Minute() != minute
  {
    if bars == [] then None
    else
      var front := FirstAt(bars[..|bars| - 1], minute);
      if front.Some? then front
      else if bars[|bars| - 1].Minute() == minute then Some(|bars| - 1)
      else None
  }

  function Upserted(bars: seq<Bar>, tick: Tick, date: Option<int>): seq<Bar> {
    if !IsRegularMinute(MinuteOf(tick.ts), date) then LastN(bars, BAR_CAP)
    else
      var at := FirstAt(bars, MinuteOf(tick.ts));
      var updated := if at.Some? then bars[at.value := MergeTick(bars[at.value], tick)]
                     else bars + [OpenBar(tick)];
      LastN(Sort(EarlierBar, updated), BAR_CAP)
  }

  /** `upsert_minute_bar`. */
  method UpsertMinuteBar(bars: seq<Bar>, tick: Tick, date: Option<int>) returns (r: seq<Bar>)
    ensures r == Upserted(bars, tick, date)
  {
    var minute := MinuteOf(tick.ts);
    if !IsRegularMinute(minute, date) {
      return LastN(bars, BAR_CAP);
    }
    for i := 0 to |bars|
      invariant forall k :: 0 <= k < i ==> bars[k].Minute() != minute
    {
      if bars[i].Minute() != minute {
        continue;
      }
      var merged := Bar(minute * MS_PER_MINUTE, tick.price, bars[i].open,
                        Max(bars[i].high, tick.price), Min(bars[i].low, tick.price), tick.price,
                        bars[i].volume + tick.volume, bars[i].turnover + tick.turnover,
                        tick.direction, bars[i].confirmed);
      var updated := bars[..i] + [merged] + bars[i + 1..];
      assert updated == bars[i := merged];
      return LastN(Sort(EarlierBar, updated), BAR_CAP);
    }
    r := LastN(Sort(EarlierBar, bars + [OpenBar(tick)]), BAR_CAP);
  }

  /** A bar is stamped with the start of its minute. */
  lemma BucketStart(ts: int)
    ensures BucketStamp(ts) % 60_000 == 0 && 0 <= ts - BucketStamp(ts) < 60_000
  {
  }

  // ---------- upsert of a confirmed bar ----------

  function NormalizedBar(bar: Bar): Bar {
    Bar(BucketStamp(bar.ts),
        Or(bar.price, bar.close),
        Or(bar.open, Or(bar.price, bar.close)),
        Or(bar.high, Or(bar.price, bar.close)),
        Or(bar.low, Or(bar.price, bar.close)),
        Or(bar.close, bar.price),
        bar.volume, bar.turnover, bar.direction, true)
  }

  function ReplaceAt(bars: seq<Bar>, minute: int, bar: Bar): (r: seq<Bar>)
    ensures |r| == |bars|
    ensures forall i :: 0 <= i < |bars| ==> r[i] == if bars[i].Minute() == minute then bar else bars[i]
  {
    seq(|bars|, i requires 0 <= i < |bars| => if bars[i].Minute() == minute then bar else bars[i])
  }

  function UpsertedConfirmed(bars: seq<Bar>, bar: Bar, date: Option<int>): seq<Bar> {
    var minute := MinuteOf(bar.ts);
    if !IsRegularMinute(minute, date) then LastN(bars, BAR_CAP)
    else
      var replaced := ReplaceAt(bars, minute, NormalizedBar(bar));
      var updated := if FirstAt(bars, minute).Some? then replaced else replaced + [NormalizedBar(bar)];
      LastN(Sort(EarlierBar, updated), BAR_CAP)
  }

  /** `upsert_confirmed_minute_bar`. */
  method UpsertConfirmedMinuteBar(bars: seq<Bar>, bar: Bar, date: Option<int>) returns (r: seq<Bar>)
    ensures r == UpsertedConfirmed(bars, bar, date)
  {
    var minute := MinuteOf(bar.ts);
    if !IsRegularMinute(minute, date) {
      return LastN(bars, BAR_CAP);
    }
    var normalized := NormalizedBar(bar);
    var updated, replaced := [], false;
    for i := 0 to |bars|
      invariant updated == ReplaceAt(bars[..i], minute, normalized)
      invariant replaced <==> exists k :: 0 <= k < i && bars[k].Minute() == minute
    {
      if bars[i].Minute() == minute {
        updated := updated + [normalized];
        replaced := true;
      } else {
        updated := updated + [bars[i]];
      }
    }
    assert bars[..|bars|] == bars;
    if !replaced {
      updated := updated + [normalized];
    }
    r := LastN(Sort(EarlierBar, updated), BAR_CAP);
  }

  // ---------- both upserts on ordered lists ----------

  lemma InsertMembers(bars: seq<Bar>, x: Bar)
    ensures forall b :: b in Insert(EarlierBar, bars, x) <==> b in bars || b == x
  {
    InsertMultiset(EarlierBar, bars, x);
    forall b
      ensures b in Insert(EarlierBar, bars, x) <==> b in bars || b == x
    {
      assert b in Insert(EarlierBar, bars, x) <==> b in multiset(Insert(EarlierBar, bars, x));
    }
  }

  lemma {:induction false} InsertNewMinute(bars: seq<Bar>, x: Bar)
    requires Ordered(bars) && forall b :: b in bars ==> b.Minute() != x.Minute()
    ensures Ordered(Insert(EarlierBar, bars, x))
    ensures BarMap(Insert(EarlierBar, bars, x)) == BarMap(bars)[x.Minute() := x]
  {
    if bars == [] {
      AppendLater(bars, x);
    } else {
      var front, last := bars[..|bars| - 1], bars[|bars| - 1];
      assert last in bars;
      SplitLast(bars);
      if last.Minute() < x.Minute() {
        AppendLater(bars, x);
      } else {
        InsertNewMinute(front, x);
        InsertMembers(front, x);
        AppendLater(Insert(EarlierBar, front, x), last);
        UpdatesCommute(BarMap(front), x.Minute(), x, last.Minute(), last);
      }
    }
  }

  lemma {:induction false} UpdateAt(bars: seq<Bar>, k: nat, x: Bar)
    requires Ordered(bars) && k < |bars| && bars[k].Minute() == x.Minute()
    ensures Ordered(bars[k := x])
    ensures BarMap(bars[k := x]) == BarMap(bars)[x.Minute() := x]
  {
    var front, last := bars[..|bars| - 1], bars[|bars| - 1];
    var updated := bars[k := x];
    if k == |bars| - 1 {
      assert updated[..|bars| - 1] == front;
    } else {
      UpdateAt(front, k, x);
      assert updated[..|bars| - 1] == front[k := x];
      assert bars[k].Minute() < last.Minute();
    }
  }

  /** The common effect of both upserts before the cap: the entry of one minute is set. */
  lemma SetMinute(bars: seq<Bar>, x: Bar)
    requires Ordered(bars)
    ensures var at := FirstAt(bars, x.Minute());
            var r := Sort(EarlierBar, if at.Some? then bars[at.value := x] else bars + [x]);
            && Ordered(r) && BarMap(r) == BarMap(bars)[x.Minute() := x]
            && (forall b :: b in r ==> b in bars || b == x)
  {
    var at := FirstAt(bars, x.Minute());
    if at.Some? {
      UpdateAt(bars, at.value, x);
      SortIdentity(EarlierBar, bars[at.value := x]);
    } else {
      SortAppend(EarlierBar, bars, x);
      SortIdentity(EarlierBar, bars);
      InsertNewMinute(bars, x);
      InsertMembers(bars, x);
    }
  }

  lemma ReplaceAtIsUpdate(bars: seq<Bar>, x: Bar)
    requires Ordered(bars)
    ensures var at := FirstAt(bars, x.Minute());
            ReplaceAt(bars, x.Minute(), x) == if at.Some? then bars[at.value := x] else bars
  {
  }

  /** The bar a tick produces, given what the list already says about its minute. */
  function TickBar(m: map<int, Bar>, tick: Tick): Bar {
    if MinuteOf(tick.ts) in m then MergeTick(m[MinuteOf(tick.ts)], tick) else OpenBar(tick)
  }

  lemma FirstAtIsEntry(bars: seq<Bar>, minute: int)
    requires Ordered(bars)
    ensures var at := FirstAt(bars, minute);
            at.Some? == (minute in BarMap(bars)) && (at.Some? ==> BarMap(bars)[minute] == bars[at.value])
  {
    var at := FirstAt(bars, minute);
    if at.Some? {
      assert bars[at.value] in bars;
      BarMapExact(bars, bars[at.value]);
    } else {
      BarMapEntries(bars);
    }
  }

  lemma UpsertedTick(bars: seq<Bar>, tick: Tick, date: Option<int>)
    requires Ordered(bars) && IsRegularMinute(MinuteOf(tick.ts), date)
    ensures var r := Upserted(bars, tick, date);
            var m := BarMap(bars)[MinuteOf(tick.ts) := TickBar(BarMap(bars), tick)];
            && Ordered(r)
            && |r| == (if |m| <= BAR_CAP then |m| else BAR_CAP)
            && (|m| <= BAR_CAP ==> BarMap(r) == m)
  {
    var minute := MinuteOf(tick.ts);
    var at := FirstAt(bars, minute);
    FirstAtIsEntry(bars, minute);
    var x := TickBar(BarMap(bars), tick);
    assert x.Minute() == minute;
    SetMinute(bars, x);
    BarMapSize(Sort(EarlierBar, if at.Some? then bars[at.value := x] else bars + [x]));
  }

  /** What a tick does to the bars of its date, field by field: it changes its own minute only,
      and there the open and the confirmation stay. */
  lemma TickMeans(bars: seq<Bar>, tick: Tick, date: int)
    requires Ordered(bars) && OnDate(bars, date) && IsRegularMinute(MinuteOf(tick.ts), Some(date))
    ensures var before, after, k := BarMap(bars), BarMap(Upserted(bars, tick, Some(date))), MinuteOf(tick.ts);
            && after.Keys == before.Keys + {k}
            && (forall j :: j in before && j != k ==> after[j] == before[j])
            && after[k].ts == tick.ts - tick.ts % 60_000
            && after[k].price == after[k].close == tick.price && after[k].direction == tick.direction
            && (k in before ==>
                  && after[k].open == before[k].open && after[k].confirmed == before[k].confirmed
                  && after[k].high == (if tick.price > before[k].high then tick.price else before[k].high)
                  && after[k].low == (if tick.price < before[k].low then tick.price else before[k].low)
                  && after[k].volume == before[k].volume + tick.volume
                  && after[k].turnover == before[k].turnover + tick.turnover)
            && (k !in before ==>
                  && after[k].open == after[k].high == after[k].low == tick.price && !after[k].confirmed
                  && after[k].volume == tick.volume && after[k].turnover == tick.turnover)
  {
    TickFitsDay(bars, tick, date);
    UpsertedTick(bars, tick, Some(date));
  }

  lemma TickFitsDay(bars: seq<Bar>, tick: Tick, date: int)
    requires Ordered(bars) && OnDate(bars, date) && IsRegularMinute(MinuteOf(tick.ts), Some(date))
    ensures |BarMap(bars)[MinuteOf(tick.ts) := TickBar(BarMap(bars), tick)]| <= BAR_CAP
  {
    var keys := BarMap(bars).Keys + {MinuteOf(tick.ts)};
    BarMapEntries(bars);
    forall m | m in keys
      ensures IsRegularMinute(m, Some(date))
    {
      if m in BarMap(bars) {
        var i :| 0 <= i < |bars| && bars[i] == BarMap(bars)[m];
      }
    }
    MinutesFitSession(keys, date);
    var all := BarMap(bars)[MinuteOf(tick.ts) := TickBar(BarMap(bars), tick)];
    assert all.Keys == keys && |all| == |all.Keys|;
  }

  lemma UpsertedBar(bars: seq<Bar>, bar: Bar, date: int)
    requires Ordered(bars) && OnDate(bars, date)
    ensures var r := UpsertedConfirmed(bars, bar, Some(date));
            && Ordered(r) && OnDate(r, date)
            && BarMap(r) == (if IsRegularMinute(MinuteOf(bar.ts), Some(date))
                             then BarMap(bars)[MinuteOf(bar.ts) := NormalizedBar(bar)]
                             else BarMap(bars))
            && (forall b :: b in r ==> b in bars || b == NormalizedBar(bar))
  {
    OneDayFitsCap(bars, date);
    if IsRegularMinute(MinuteOf(bar.ts), Some(date)) {
      var x := NormalizedBar(bar);
      assert x.Minute() == MinuteOf(bar.ts);
      ReplaceAtIsUpdate(bars, x);
      SetMinute(bars, x);
      var at := FirstAt(bars, x.Minute());
      var r := Sort(EarlierBar, if at.Some? then bars[at.value := x] else bars + [x]);
      StaysOnDate(bars, x, r, date);
      OneDayFitsCap(r, date);
    }
  }

  lemma StaysOnDate(bars: seq<Bar>, x: Bar, r: seq<Bar>, date: int)
    requires OnDate(bars, date) && IsRegularMinute(x.Minute(), Some(date))
    requires forall b :: b in r ==> b in bars || b == x
    ensures OnDate(r, date)
  {
    forall i | 0 <= i < |r|
      ensures IsRegularMinute(r[i].Minute(), Some(date))
    {
      assert r[i] in r;
    }
  }

  // ---------- folding ticks is a group-by ----------

  /** The bar list after these ticks, starting from no bars. */
  function FoldTicks(ticks: seq<Tick>, date: Option<int>): seq<Bar> {
    if ticks == [] then []
    else Upserted(FoldTicks(ticks[..|ticks| - 1], date), ticks[|ticks| - 1], date)
  }

  /** The ticks of one minute, in order. */
  function TicksAt(ticks: seq<Tick>, minute: int): seq<Tick> {
    if ticks == [] then []
    else TicksAt(ticks[..|ticks| - 1], minute)
         + if MinuteOf(ticks[|ticks| - 1].ts) == minute then [ticks[|ticks| - 1]] else []
  }

  /** The regular minutes that these ticks touch. */
  function Touched(ticks: seq<Tick>, date: Option<int>): (r: set<int>)
    ensures forall m :: m in r ==> IsRegularMinute(m, date)
  {
    set t | t in ticks && IsRegularMinute(MinuteOf(t.ts), date) :: MinuteOf(t.ts)
  }

  function TickVolume(ticks: seq<Tick>): int {
    if ticks == [] then 0 else TickVolume(ticks[..|ticks| - 1]) + ticks[|ticks| - 1].volume
  }

  function TickTurnover(ticks: seq<Tick>): real {
    if ticks == [] then 0.0 else TickTurnover(ticks[..|ticks| - 1]) + ticks[|ticks| - 1].turnover
  }

  /** The bar is the open/high/low/close/volume aggregate of exactly these ticks. */
  ghost predicate Aggregates(bar: Bar, group: seq<Tick>) {
    && group != []
    && bar.ts == BucketStamp(group[0].ts)
    && bar.open == group[0].price
    && bar.price == bar.close == group[|group| - 1].price
    && (forall t :: t in group ==> bar.low <= t.price <= bar.high)
    && (exists t :: t in group && t.price == bar.high)
    && (exists t :: t in group && t.price == bar.low)
    && bar.volume == TickVolume(group)
    && bar.turnover == TickTurnover(group)
    && bar.direction == group[|group| - 1].direction
    && !bar.confirmed
  }

  /** One bar per touched minute, in order, each aggregating the ticks of its minute. */
  ghost predicate IsGroupBy(bars: seq<Bar>, ticks: seq<Tick>, date: Option<int>) {
    && Ordered(bars)
    && BarMap(bars).Keys == Touched(ticks, date)
    && (forall b :: b in bars ==> Aggregates(b, TicksAt(ticks, b.Minute())))
  }

  lemma AggregatesStep(bar: Bar, group: seq<Tick>, tick: Tick)
    requires Aggregates(bar, group) && MinuteOf(tick.ts) == MinuteOf(group[0].ts)
    ensures Aggregates(MergeTick(bar, tick), group + [tick])
  {
    var all, merged := group + [tick], MergeTick(bar, tick);
    assert all[..|group|] == group;
    assert all[0] == group[0] && all[|group|] == tick;
    var h :| h in group && h.price == bar.high;
    var l :| l in group && l.price == bar.low;
    assert h in all && l in all && tick in all;
    assert exists t :: t in all && t.price == merged.high;
    assert exists t :: t in all && t.price == merged.low;
  }

  lemma AggregatesFirst(tick: Tick)
    ensures Aggregates(OpenBar(tick), [tick])
  {
    assert [tick][..0] == [];
    assert tick in [tick];
    assert TickVolume([tick]) == TickVolume([]) + tick.volume;
    assert TickTurnover([tick]) == TickTurnover([]) + tick.turnover;
  }

  lemma TouchedStep(ticks: seq<Tick>, tick: Tick, date: Option<int>)
    ensures Touched(ticks + [tick], date)
            == Touched(ticks, date) + if IsRegularMinute(MinuteOf(tick.ts), date) then {MinuteOf(tick.ts)} else {}
  {
    var m := MinuteOf(tick.ts);
    assert tick in ticks + [tick];
    forall x | x in Touched(ticks, date)
      ensures x in Touched(ticks + [tick], date)
    {
      var t :| t in ticks && IsRegularMinute(MinuteOf(t.ts), date) && MinuteOf(t.ts) == x;
      assert t in ticks + [tick];
    }
  }

  lemma {:induction false} GroupMinutes(ticks: seq<Tick>, minute: int, date: Option<int>)
    ensures forall t :: t in TicksAt(ticks, minute) ==> t in ticks && MinuteOf(t.ts) == minute
    ensures IsRegularMinute(minute, date) ==> (minute in Touched(ticks, date) <==> TicksAt(ticks, minute) != [])
  {
    if ticks != [] {
      var front, last := ticks[..|ticks| - 1], ticks[|ticks| - 1];
      GroupMinutes(front, minute, date);
      assert ticks == front + [last];
      TouchedStep(front, last, date);
    }
  }

  lemma SetSizes(a: set<int>, b: set<int>)
    requires a <= b
    ensures |a| <= |b|
  {
    assert b == a + (b - a);
  }

  lemma {:induction false} FoldGroups(ticks: seq<Tick>, date: Option<int>)
    requires |Touched(ticks, date)| <= BAR_CAP
    ensures IsGroupBy(FoldTicks(ticks, date), ticks, date)
  {
    if ticks != [] {
      var front, tick := ticks[..|ticks| - 1], ticks[|ticks| - 1];
      assert ticks == front + [tick];
      TouchedStep(front, tick, date);
      SetSizes(Touched(front, date), Touched(ticks, date));
      FoldGroups(front, date);
      GroupByStep(FoldTicks(front, date), front, tick, date);
    }
  }

  lemma TicksAtStep(ticks: seq<Tick>, tick: Tick, minute: int)
    ensures TicksAt(ticks + [tick], minute)
            == if MinuteOf(tick.ts) == minute then TicksAt(ticks, minute) + [tick] else TicksAt(ticks, minute)
  {
    assert (ticks + [tick])[..|ticks|] == ticks;
  }

  lemma GroupByStep(bars: seq<Bar>, ticks: seq<Tick>, tick: Tick, date: Option<int>)
    requires IsGroupBy(bars, ticks, date)
    requires |Touched(ticks + [tick], date)| <= BAR_CAP
    ensures IsGroupBy(Upserted(bars, tick, date), ticks + [tick], date)
  {
    if IsRegularMinute(MinuteOf(tick.ts), date) {
      GroupByRegularStep(bars, ticks, tick, date);
    } else {
      GroupByOtherStep(bars, ticks, tick, date);
      BarMapSize(bars);
      assert |bars| == |BarMap(bars).Keys|;
    }
  }

  /** A tick outside the session belongs to no group. */
  lemma GroupByOtherStep(bars: seq<Bar>, ticks: seq<Tick>, tick: Tick, date: Option<int>)
    requires IsGroupBy(bars, ticks, date) && !IsRegularMinute(MinuteOf(tick.ts), date)
    ensures IsGroupBy(bars, ticks + [tick], date)
  {
    TouchedStep(ticks, tick, date);
    forall b | b in bars
      ensures Aggregates(b, TicksAt(ticks + [tick], b.Minute()))
    {
      BarMapEntries(bars);
      assert b.Minute() in Touched(ticks, date);
      TicksAtStep(ticks, tick, b.Minute());
    }
  }

  lemma GroupByRegularStep(bars: seq<Bar>, ticks: seq<Tick>, tick: Tick, date: Option<int>)
    requires IsGroupBy(bars, ticks, date) && IsRegularMinute(MinuteOf(tick.ts), date)
    requires |Touched(ticks + [tick], date)| <= BAR_CAP
    ensures IsGroupBy(Upserted(bars, tick, date), ticks + [tick], date)
  {
    var x, r := TickBar(BarMap(bars), tick), Upserted(bars, tick, date);
    var m := BarMap(bars)[MinuteOf(tick.ts) := x];
    TouchedStep(ticks, tick, date);
    assert m.Keys == Touched(ticks + [tick], date);
    assert |m| == |m.Keys|;
    UpsertedTick(bars, tick, date);
    NewAggregate(bars, ticks, tick, date);
    forall b | b in r
      ensures Aggregates(b, TicksAt(ticks + [tick], b.Minute()))
    {
      FromMap(r, bars, x, b);
      TicksAtStep(ticks, tick, b.Minute());
    }
  }

  /** After setting one entry, a bar of the list is that entry or an old bar of another minute. */
  lemma FromMap(r: seq<Bar>, bars: seq<Bar>, x: Bar, b: Bar)
    requires Ordered(r) && Ordered(bars) && BarMap(r) == BarMap(bars)[x.Minute() := x] && b in r
    ensures b == x || (b in bars && b.Minute() != x.Minute())
  {
    BarMapExact(r, b);
    BarMapEntries(bars);
  }

  lemma {:induction false} NewAggregate(bars: seq<Bar>, ticks: seq<Tick>, tick: Tick, date: Option<int>)
    requires IsGroupBy(bars, ticks, date) && IsRegularMinute(MinuteOf(tick.ts), date)
    ensures var x := TickBar(BarMap(bars), tick);
            x.Minute() == MinuteOf(tick.ts) && Aggregates(x, TicksAt(ticks + [tick], x.Minute()))
  {
    var minute, m := MinuteOf(tick.ts), BarMap(bars);
    assert (ticks + [tick])[..|ticks|] == ticks;
    var group := TicksAt(ticks, minute);
    GroupMinutes(ticks, minute, date);
    assert TicksAt(ticks + [tick], minute) == group + [tick];
    BarMapSound(bars);
    if minute in m {
      assert m[minute] in bars;
      assert group[0] in group;
      AggregatesStep(m[minute], group, tick);
    } else {
      assert minute !in Touched(ticks, date);
      assert group + [tick] == [tick];
      AggregatesFirst(tick);
    }
  }

  lemma {:induction false} FoldIsCapped(ticks: seq<Tick>, date: Option<int>)
    ensures |FoldTicks(ticks, date)| <= BAR_CAP
  {
  }

  /** Folding ticks into minute bars is the group-by exactly as long as they touch no more
      regular minutes than the cap holds. */
  lemma FoldIsGroupBy(ticks: seq<Tick>, date: Option<int>)
    ensures IsGroupBy(FoldTicks(ticks, date), ticks, date) <==> |Touched(ticks, date)| <= BAR_CAP
  {
    if |Touched(ticks, date)| <= BAR_CAP {
      FoldGroups(ticks, date);
    } else {
      var bars := FoldTicks(ticks, date);
      FoldIsCapped(ticks, date);
      if Ordered(bars) {
        BarMapSize(bars);
        assert |BarMap(bars)| == |BarMap(bars).Keys|;
      }
    }
  }

  /** The minutes of one session and the first 90 of the next. */
  function MinuteOfTwoDays(i: int): int {
    if i < MINUTES_PER_SESSION then MinuteAt(0, i) else MinuteAt(1, i - MINUTES_PER_SESSION)
  }

  function TicksOfTwoDays(): (ticks: seq<Tick>)
    ensures |ticks| == BAR_CAP + 1
    ensures forall i :: 0 <= i < |ticks| ==> MinuteOf(ticks[i].ts) == MinuteOfTwoDays(i)
  {
    seq(BAR_CAP + 1, i => Tick(MinuteOfTwoDays(i) * MS_PER_MINUTE, 1.0, 1, 1.0, Flat))
  }

  /** Ticks of increasing regular minutes touch as many minutes as there are ticks. */
  lemma TouchedMany(ticks: seq<Tick>, minutes: seq<int>, date: Option<int>)
    requires |ticks| == |minutes| && StrictlyIncreasing(minutes)
    requires forall i :: 0 <= i < |ticks| ==> MinuteOf(ticks[i].ts) == minutes[i] && IsRegularMinute(minutes[i], date)
    ensures |Touched(ticks, date)| >= |minutes|
  {
    IncreasingSet(minutes);
    forall m | m in minutes
      ensures m in Touched(ticks, date)
    {
      var i :| 0 <= i < |minutes| && minutes[i] == m;
      assert ticks[i] in ticks && MinuteOf(ticks[i].ts) == m;
    }
    SetSizes((set m | m in minutes), Touched(ticks, date));
  }

  /** Without a trade date these ticks touch 421 minutes, and folding them is not the group-by. */
  lemma TwoDaysOverflow()
    ensures !IsGroupBy(FoldTicks(TicksOfTwoDays(), None), TicksOfTwoDays(), None)
  {
    var minutes := seq(BAR_CAP + 1, i => MinuteOfTwoDays(i));
    forall i, j | 0 <= i < j < |minutes|
      ensures minutes[i] < minutes[j]
    {
      assert MinuteOfTwoDays(i) < MinuteOfTwoDays(j);
    }
    TouchedMany(TicksOfTwoDays(), minutes, None);
    FoldIsGroupBy(TicksOfTwoDays(), None);
  }

  /** With a trade date the cap never bites, so every tick sequence folds to its group-by. */
  lemma FoldOfOneDayIsGroupBy(ticks: seq<Tick>, date: int)
    ensures IsGroupBy(FoldTicks(ticks, Some(date)), ticks, Some(date))
    ensures |FoldTicks(ticks, Some(date))| <= MINUTES_PER_SESSION
  {
    TouchedFitsSession(ticks, date);
    FoldGroups(ticks, Some(date));
    var bars := FoldTicks(ticks, Some(date));
    BarMapSound(bars);
    forall i | 0 <= i < |bars|
      ensures IsRegularMinute(bars[i].Minute(), Some(date))
    {
      assert bars[i] in bars && bars[i].Minute() in Touched(ticks, Some(date));
    }
    OneDayFitsCap(bars, date);
  }

  lemma TouchedFitsSession(ticks: seq<Tick>, date: int)
    ensures |Touched(ticks, Some(date))| <= MINUTES_PER_SESSION
  {
    MinutesFitSession(Touched(ticks, Some(date)), date);
  }

  lemma MinutesFitSession(minutes: set<int>, date: int)
    requires forall m :: m in minutes ==> IsRegularMinute(m, Some(date))
    ensures |minutes| <= MINUTES_PER_SESSION
  {
    var slots := set i | 0 <= i < MINUTES_PER_SESSION :: MinuteAt(date, i);
    SessionIsFull(date);
    SlotCount(date, MINUTES_PER_SESSION);
    forall m | m in minutes
      ensures m in slots
    {
      assert m == MinuteAt(date, Slot(m));
    }
    SetSizes(minutes, slots);
  }

  lemma {:induction false} SlotCount(date: int, n: nat)
    ensures |set i | 0 <= i < n :: MinuteAt(date, i)| <= n
  {
    if n > 0 {
      SlotCount(date, n - 1);
      assert (set i | 0 <= i < n :: MinuteAt(date, i))
          == (set i | 0 <= i < n - 1 :: MinuteAt(date, i)) + {MinuteAt(date, n - 1)};
    }
  }
}
