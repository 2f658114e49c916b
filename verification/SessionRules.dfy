/** What single steps mean for prices, sessions and confirmed bars (pipeline.py), and what of it
    every run keeps, spelled out in the values themselves. */
module SessionRules {
  import opened Sequences
  import opened TradingSession
  import opened MinuteBars
  import opened MarketState
  import opened SessionLaws

  // ---------- sessions ----------

  /** The close that a session leaves to the next one: the one stored for it, or else the last
      price, or else the previous close again. */
  function CarriedClose(s: Snapshot): real {
    if s.nextPreviousClose != 0.0 then s.nextPreviousClose
    else if s.price != 0.0 then s.price
    else s.previousClose
  }

  lemma BarKeepsSession(s: State, p: BarPayload, date: int, now: int)
    requires s.snapshot.date == Some(date)
    ensures var r := BarApplied(s, p, date, now).snapshot;
            && r.date == Some(date) && r.previousClose == s.snapshot.previousClose
            && r.nextPreviousClose == s.snapshot.nextPreviousClose
            && (ChangeConsistent(s.snapshot) ==> ChangeConsistent(r))
  {
  }

  lemma {:induction false} BarsKeepSession(s: State, ps: seq<BarPayload>, date: int, now: int)
    requires s.snapshot.date == Some(date)
    ensures var r := BarsApplied(s, ps, date, now).snapshot;
            && r.date == Some(date) && r.previousClose == s.snapshot.previousClose
            && r.nextPreviousClose == s.snapshot.nextPreviousClose
            && (ChangeConsistent(s.snapshot) ==> ChangeConsistent(r))
  {
    if ps != [] {
      BarsKeepSession(s, ps[..|ps| - 1], date, now);
      BarKeepsSession(BarsApplied(s, ps[..|ps| - 1], date, now), ps[|ps| - 1], date, now);
    }
  }

  /** A queue or book event of another date opens a session flat at the carried close. */
  lemma QueueOpensSession(s: State, date: int)
    ensures var r, close := RolledOver(s, date), CarriedClose(s.snapshot);
            && (s.snapshot.date == Some(date) ==> r == s)
            && (s.snapshot.date != Some(date) ==>
                  && r.bars == [] && r.snapshot.date == Some(date)
                  && r.snapshot.price == r.snapshot.open == r.snapshot.high == r.snapshot.low == close
                  && r.snapshot.previousClose == close
                  && r.snapshot.volume == 0 && r.snapshot.turnover == 0.0
                  && r.snapshot.change == 0.0 && r.snapshot.changePercent == 0.0
                  && r.snapshot.nextPreviousClose == s.snapshot.nextPreviousClose)
  {
  }

  /** Whether a step belongs to a session: a backfill does only if it takes something over. */
  predicate Enters(step: Step) {
    step.event.BackfillEvent? ==> Taken(step.event.payloads, step.now) != []
  }

  /** Every step that enters a new session starts it from the carried close; no other step moves
      the previous close, and none the close stored for the next session. */
  lemma SessionStep(s: State, step: Step)
    ensures var r := Applied(s, step).snapshot;
            && r.date == (if Enters(step) then Some(step.date) else s.snapshot.date)
            && r.previousClose
               == (if r.date != s.snapshot.date then CarriedClose(s.snapshot) else s.snapshot.previousClose)
            && r.nextPreviousClose == s.snapshot.nextPreviousClose
            && (ChangeConsistent(s.snapshot) ==> ChangeConsistent(r))
  {
    match step.event {
      case TickEvent(tick) =>
      case BarEvent(p) =>
        BarAfterRollover(s, p, step.date, step.now);
        BarKeepsSession(RolledOver(s, step.date), p, step.date, step.now);
      case BackfillEvent(ps) => BackfillSession(s, ps, step.date, step.now);
      case QueueEvent =>
      case BookEvent =>
    }
  }

  lemma {:induction false} BackfillSession(s: State, ps: seq<BarPayload>, date: int, now: int)
    ensures var r, rolled := Backfilled(s, ps, date, now).snapshot, RolledOver(s, date).snapshot;
            if Taken(ps, now) == [] then r == s.snapshot
            else
              && r.date == Some(date) && r.previousClose == rolled.previousClose
              && r.nextPreviousClose == s.snapshot.nextPreviousClose
              && (ChangeConsistent(s.snapshot) ==> ChangeConsistent(r))
  {
    var pruned := s.(bars := Pruned(BarStamp, s.bars, now));
    var sorted := Sort(EarlierPayload, Taken(ps, now));
    SortMembers(EarlierPayload, Taken(ps, now));
    if sorted != [] {
      BarsAfterRollover(pruned, sorted, date, now);
      BarsKeepSession(RolledOver(pruned, date), sorted, date, now);
    }
  }

  lemma {:induction false} LaterCloses(s: State, steps: seq<Step>)
    requires s.snapshot.nextPreviousClose != 0.0 && ChangeConsistent(s.snapshot)
    ensures var r, close := Run(s, steps).snapshot, s.snapshot.nextPreviousClose;
            && r.nextPreviousClose == close && ChangeConsistent(r)
            && (r.date != s.snapshot.date ==> r.previousClose == close)
  {
    if steps != [] {
      LaterCloses(s, steps[..|steps| - 1]);
      SessionStep(Run(s, steps[..|steps| - 1]), steps[|steps| - 1]);
    }
  }

  /** The percentage is of the previous close, and 0 without one. */
  ghost predicate IsPercentOf(percent: real, change: real, close: real) {
    if close == 0.0 then percent == 0.0 else percent * close == change * 100.0
  }

  lemma PercentMeans(s: Snapshot)
    requires ChangeConsistent(s)
    ensures s.change == s.price - s.previousClose && IsPercentOf(s.changePercent, s.change, s.previousClose)
  {
    if s.previousClose != 0.0 {
      var q := s.change / s.previousClose;
      assert q * s.previousClose == s.change;
      assert q * 100.0 * s.previousClose == q * s.previousClose * 100.0;
    }
  }

  /** In every state of a later session than the first, change and percentage are against the
      close that was stored for it. */
  lemma LaterSessions(s: State, steps: seq<Step>)
    requires s.snapshot.nextPreviousClose != 0.0 && ChangeConsistent(s.snapshot)
    ensures var r, close := Run(s, steps).snapshot, s.snapshot.nextPreviousClose;
            r.date != s.snapshot.date ==>
              r.previousClose == close && r.change == r.price - close && IsPercentOf(r.changePercent, r.change, close)
  {
    LaterCloses(s, steps);
    PercentMeans(Run(s, steps).snapshot);
  }

  /** From a preloaded day whose daily bar has a close, every later session is against it. */
  lemma PreloadedLaterSessions(date: int, bars: seq<Bar>, previous: Option<DailyBar>, current: Option<DailyBar>,
                               steps: seq<Step>)
    requires current.Some? && current.value.close != 0.0
    ensures var r := Run(Preloaded(date, bars, previous, current), steps).snapshot;
            r.date != Some(date) ==>
              r.previousClose == current.value.close && r.change == r.price - current.value.close
  {
    LaterSessions(Preloaded(date, bars, previous, current), steps);
  }

  lemma {:induction false} ChangeStaysConsistent(s: State, steps: seq<Step>)
    requires ChangeConsistent(s.snapshot)
    ensures ChangeConsistent(Run(s, steps).snapshot)
  {
    if steps != [] {
      ChangeStaysConsistent(s, steps[..|steps| - 1]);
      SessionStep(Run(s, steps[..|steps| - 1]), steps[|steps| - 1]);
    }
  }

  /** Over any run change and percentage match the price, whatever the clock and the stamps. */
  lemma ChangeMatchesPrice(s: State, steps: seq<Step>)
    requires ChangeConsistent(s.snapshot)
    ensures var r := Run(s, steps).snapshot;
            r.change == r.price - r.previousClose && IsPercentOf(r.changePercent, r.change, r.previousClose)
  {
    ChangeStaysConsistent(s, steps);
    PercentMeans(Run(s, steps).snapshot);
  }

  /** The start of a preloaded day: the close of the day before, or else of the latest daily bar;
      the last bar's price, or else that close; and today's daily bar for open, high and low. */
  lemma PreloadMeans(date: int, bars: seq<Bar>, previous: Option<DailyBar>, current: Option<DailyBar>)
    ensures var r := Preloaded(date, bars, previous, current).snapshot;
            && r.date == Some(date) && Preloaded(date, bars, previous, current).bars == bars
            && (previous.Some? ==> r.previousClose == previous.value.close)
            && (previous.None? && current.Some? ==> r.previousClose == current.value.close)
            && (previous.None? && current.None? ==> r.previousClose == 0.0)
            && r.price == (if bars == [] then r.previousClose else bars[|bars| - 1].price)
            && (current.Some? && current.value.date == date ==>
                  r.open == current.value.open && r.high == current.value.high && r.low == current.value.low)
            && (!(current.Some? && current.value.date == date) ==> r.open == r.high == r.low == r.previousClose)
            && r.nextPreviousClose == (if current.Some? then current.value.close else r.price)
            && IsPercentOf(r.changePercent, r.price - r.previousClose, r.previousClose)
  {
    PercentMeans(Preloaded(date, bars, previous, current).snapshot);
  }

  // ---------- missing prices ----------

  /** What stands in for a missing (zero) price when the snapshot is read off the bars: the close
      of the last bar, then the previous close; the first bar's price for its open; a bar's own
      price for its high and low. */
  lemma FallbacksMean(s: Snapshot, bars: seq<Bar>)
    requires bars != []
    ensures var r, first, last := FromBars(s, bars), bars[0], bars[|bars| - 1];
            && (last.price != 0.0 ==> r.price == last.price)
            && (last.price == 0.0 && last.close != 0.0 ==> r.price == last.close)
            && (last.price == 0.0 && last.close == 0.0 ==> r.price == s.previousClose)
            && (first.open != 0.0 ==> r.open == first.open)
            && (first.open == 0.0 && first.price != 0.0 ==> r.open == first.price)
            && (first.open == 0.0 && first.price == 0.0 ==> r.open == r.price)
            && r.volume == BarsVolume(bars) && r.turnover == BarsTurnover(bars)
    ensures forall b: Bar, price: real :: (b.high != 0.0 ==> HighOf(b, price) == b.high)
                               && (b.high == 0.0 && b.price != 0.0 ==> HighOf(b, price) == b.price)
                               && (b.high == 0.0 && b.price == 0.0 ==> HighOf(b, price) == price)
    ensures forall b: Bar, price: real :: (b.low != 0.0 ==> LowOf(b, price) == b.low)
                               && (b.low == 0.0 && b.price != 0.0 ==> LowOf(b, price) == b.price)
                               && (b.low == 0.0 && b.price == 0.0 ==> LowOf(b, price) == price)
  {
  }

  /** The snapshot's high and low are the extremes of what the bars stand for. */
  lemma {:induction false} ExtremesMean(bars: seq<Bar>, price: real)
    requires bars != []
    ensures forall b :: b in bars ==>
              BarsLow(bars, price) <= LowOf(b, price) && HighOf(b, price) <= BarsHigh(bars, price)
    ensures (exists b :: b in bars && HighOf(b, price) == BarsHigh(bars, price))
    ensures (exists b :: b in bars && LowOf(b, price) == BarsLow(bars, price))
  {
    var front, last := bars[..|bars| - 1], bars[|bars| - 1];
    assert bars == front + [last];
    assert last in bars;
    if front != [] {
      ExtremesMean(front, price);
      var h :| h in front && HighOf(h, price) == BarsHigh(front, price);
      var l :| l in front && LowOf(l, price) == BarsLow(front, price);
      assert h in bars && l in bars;
    }
  }

  /** The form in which a confirmed bar is kept: a missing price is the close, a missing close is
      the price, and a missing open, high or low is that price. */
  lemma NormalizedMeans(bar: Bar)
    ensures var r := NormalizedBar(bar);
            && r.price == (if bar.price != 0.0 then bar.price else bar.close)
            && r.close == (if bar.close != 0.0 then bar.close else bar.price)
            && r.open == (if bar.open != 0.0 then bar.open else r.price)
            && r.high == (if bar.high != 0.0 then bar.high else r.price)
            && r.low == (if bar.low != 0.0 then bar.low else r.price)
            && r.volume == bar.volume && r.turnover == bar.turnover && r.direction == bar.direction
            && r.confirmed && r.ts == bar.ts - bar.ts % 60_000
  {
  }

  /** What a payload says: its close for anything missing or zero. */
  lemma PayloadMeans(p: BarPayload)
    requires p.close.Some? && p.close.value > 0.0 && p.ts.At?
    ensures var r := BarFromPayload(p);
            && r.Some? && r.value.ts == p.ts.ms && r.value.price == r.value.close == p.close.value
            && r.value.open == (if p.open.Some? && p.open.value != 0.0 then p.open.value else p.close.value)
            && r.value.high == (if p.high.Some? && p.high.value != 0.0 then p.high.value else p.close.value)
            && r.value.low == (if p.low.Some? && p.low.value != 0.0 then p.low.value else p.close.value)
            && r.value.volume == p.volume && r.value.turnover == p.turnover
  {
  }

  // ---------- ticks and directions ----------

  /** A payload with a positive close for a regular minute of the date. */
  predicate IsPriced(p: BarPayload, date: int) {
    p.close.Some? && p.close.value > 0.0 && p.ts.At? && IsRegularMinute(MinuteOf(p.ts.ms), Some(date))
  }

  function Higher(x: real, y: real): real {
    if x >= y then x else y
  }

  function Lower(x: real, y: real): real {
    if x <= y then x else y
  }

  /** What a tick does to the snapshot: a missing high or low counts as the tick's price, and a
      full-tick seed sets the totals that an ordinary tick adds to. */
  lemma TickSnapshot(s: State, tick: TickInput, date: int, now: int)
    ensures var r, before := TickApplied(s, tick, date, now).snapshot, s.snapshot;
            var same := before.date == Some(date);
            && r.date == Some(date) && r.price == tick.price
            && r.open == (if same then before.open else tick.price)
            && r.high == (if same && before.high != 0.0 then Higher(before.high, tick.price) else tick.price)
            && r.low == (if same && before.low != 0.0 then Lower(before.low, tick.price) else tick.price)
            && r.volume == (if same && !tick.fullTickSeed then before.volume else 0) + tick.volume
            && r.turnover == (if same && !tick.fullTickSeed then before.turnover else 0.0) + tick.turnover
            && r.change == tick.price - r.previousClose
  {
  }

  lemma {:induction false} ChartedTick(s: State, tick: TickInput, date: int, now: int)
    requires WellFormed(s, now) && s.snapshot.date == Some(date)
    ensures TickApplied(s, tick, date, now).bars
            == if tick.fullTickSeed || !IsRegularMinute(MinuteOf(tick.ts), Some(date)) then s.bars
               else Upserted(s.bars, Directed(s.snapshot, tick), Some(date))
  {
    PrunedOneDay(s.bars, date, now);
  }

  lemma {:induction false} DirectionMeans(s: Snapshot, tick: TickInput)
    ensures var t := Directed(s, tick);
            && t == Tick(tick.ts, tick.price, tick.volume, tick.turnover, t.direction)
            && (t.direction.Up? <==> tick.price > s.price) && (t.direction.Down? <==> tick.price < s.price)
  {
  }

  /** What it does to the bars: a seed, or a tick outside the session, leaves them alone, and any
      other changes its minute only, with a direction against the price before. */
  lemma {:induction false} TickBarsMean(s: State, tick: TickInput, date: int, now: int)
    requires WellFormed(s, now) && s.snapshot.date == Some(date)
    ensures var r, k := TickApplied(s, tick, date, now), MinuteOf(tick.ts);
            var before, after := BarMap(s.bars), BarMap(r.bars);
            if tick.fullTickSeed || !IsRegularMinute(k, Some(date)) then r.bars == s.bars
            else
              && after.Keys == before.Keys + {k}
              && (forall j :: j in before && j != k ==> after[j] == before[j])
              && after[k].price == tick.price
              && after[k].volume == (if k in before then before[k].volume else 0) + tick.volume
              && (after[k].direction.Up? <==> tick.price > s.snapshot.price)
              && (after[k].direction.Down? <==> tick.price < s.snapshot.price)
  {
    ChartedTick(s, tick, date, now);
    DirectionMeans(s.snapshot, tick);
    if !tick.fullTickSeed && IsRegularMinute(MinuteOf(tick.ts), Some(date)) {
      TickMeans(s.bars, Directed(s.snapshot, tick), date);
    }
  }

  /** A confirmed bar's direction is against the price before it, or flat without one. */
  lemma {:induction false} ConfirmedDirection(s: State, p: BarPayload, date: int, now: int)
    requires WellFormed(s, now) && s.snapshot.date == Some(date) && IsPriced(p, date) && p.ts.ms < now - now % 60_000
    ensures var k, before := MinuteOf(p.ts.ms), s.snapshot.price;
            var after := BarMap(BarApplied(s, p, date, now).bars);
            && k in after
            && (after[k].direction.Up? <==> before != 0.0 && p.close.value > before)
            && (after[k].direction.Down? <==> before != 0.0 && p.close.value < before)
  {
    assert MinuteOf(p.ts.ms) < MinuteOf(now);
    BarStep(s, p, date, now);
    UpsertedBar(s.bars, DirectedBar(s.snapshot, p), date);
  }

  // ---------- confirmed bars ----------

  /** The clock never goes back. */
  ghost predicate ClockForward(start: int, steps: seq<Step>) {
    steps != [] ==>
      var front := steps[..|steps| - 1];
      ClockForward(start, front) && ClockAfter(start, front) <= steps[|steps| - 1].now
  }

  /** Confirmed bars lie in minutes that are over. */
  ghost predicate ConfirmedIsOver(bars: seq<Bar>, now: int) {
    forall b :: b in bars && b.confirmed ==> b.ts < now - now % 60_000
  }

  lemma {:induction false} PrunedMembers(bars: seq<Bar>, now: int)
    ensures forall b :: b in Pruned(BarStamp, bars, now) ==> b in bars
  {
    KeepPastMembers(BarStamp, bars, now);
  }

  lemma {:induction false} SortedCapMembers(bars: seq<Bar>)
    ensures forall b :: b in LastN(Sort(EarlierBar, bars), BAR_CAP) ==> b in bars
  {
    SortMembers(EarlierBar, bars);
  }

  lemma {:induction false} TickLeavesConfirmed(bars: seq<Bar>, tick: Tick, date: int, now: int)
    requires ConfirmedIsOver(bars, now)
    ensures ConfirmedIsOver(Upserted(bars, tick, Some(date)), now)
  {
    var at := FirstAt(bars, MinuteOf(tick.ts));
    if IsRegularMinute(MinuteOf(tick.ts), Some(date)) {
      var x := if at.Some? then MergeTick(bars[at.value], tick) else OpenBar(tick);
      if at.Some? {
        assert bars[at.value] in bars;
        SameBucket(bars[at.value].ts, x.ts, now);
        SortedCapMembers(bars[at.value := x]);
      } else {
        SortedCapMembers(bars + [x]);
      }
    }
  }

  /** Instants of one minute are both over or both not, if one of them starts it. */
  lemma SameBucket(ts: int, start: int, now: int)
    requires MinuteOf(ts) == MinuteOf(start) && start % 60_000 == 0
    ensures ts < now - now % 60_000 <==> start < now - now % 60_000
  {
  }

  lemma {:induction false} BarIsOver(bars: seq<Bar>, bar: Bar, date: int, now: int)
    requires ConfirmedIsOver(bars, now) && MinuteOf(bar.ts) < MinuteOf(now)
    ensures ConfirmedIsOver(UpsertedConfirmed(bars, bar, Some(date)), now)
  {
    var x := NormalizedBar(bar);
    var replaced := ReplaceAt(bars, MinuteOf(bar.ts), x);
    assert forall b :: b in replaced ==> b in bars || b == x;
    SortedCapMembers(if FirstAt(bars, MinuteOf(bar.ts)).Some? then replaced else replaced + [x]);
    assert x.ts == MinuteOf(bar.ts) * 60_000 && now - now % 60_000 == MinuteOf(now) * 60_000;
  }

  lemma {:induction false} BarLeavesConfirmed(s: State, p: BarPayload, date: int, now: int)
    requires ConfirmedIsOver(s.bars, now)
    ensures ConfirmedIsOver(BarApplied(s, p, date, now).bars, now)
  {
    var rolled := RolledOver(s, date);
    PrunedMembers(rolled.bars, now);
    var base := rolled.(bars := Pruned(BarStamp, rolled.bars, now));
    if Accepts(p, now) {
      var bars := UpsertedConfirmed(base.bars, DirectedBar(base.snapshot, p), Some(date));
      BarIsOver(base.bars, DirectedBar(base.snapshot, p), date, now);
      PrunedMembers(bars, now);
      SortedCapMembers(Pruned(BarStamp, bars, now));
    }
  }

  lemma {:induction false} BarsLeaveConfirmed(s: State, ps: seq<BarPayload>, date: int, now: int)
    requires ConfirmedIsOver(s.bars, now)
    ensures ConfirmedIsOver(BarsApplied(s, ps, date, now).bars, now)
  {
    if ps != [] {
      BarsLeaveConfirmed(s, ps[..|ps| - 1], date, now);
      BarLeavesConfirmed(BarsApplied(s, ps[..|ps| - 1], date, now), ps[|ps| - 1], date, now);
    }
  }

  lemma {:induction false} StepLeavesConfirmed(s: State, step: Step)
    requires ConfirmedIsOver(s.bars, step.now)
    ensures ConfirmedIsOver(Applied(s, step).bars, step.now)
  {
    PrunedMembers(s.bars, step.now);
    match step.event {
      case TickEvent(tick) =>
        var base := TickBase(s, tick, step.date, step.now);
        TickLeavesConfirmed(base.bars, Directed(base.snapshot, tick), step.date, step.now);
      case BarEvent(p) => BarLeavesConfirmed(s, p, step.date, step.now);
      case BackfillEvent(ps) =>
        var pruned := s.(bars := Pruned(BarStamp, s.bars, step.now));
        BarsLeaveConfirmed(pruned, Sort(EarlierPayload, Taken(ps, step.now)), step.date, step.now);
      case QueueEvent =>
      case BookEvent =>
    }
  }

  /** Over any run under a clock that never goes back, whatever the events are stamped, every
      confirmed bar lies in a minute that is over. */
  lemma {:induction false} ConfirmedBarsAreOver(s: State, start: int, steps: seq<Step>)
    requires ConfirmedIsOver(s.bars, start) && ClockForward(start, steps)
    ensures ConfirmedIsOver(Run(s, steps).bars, ClockAfter(start, steps))
  {
    if steps != [] {
      var front, step := steps[..|steps| - 1], steps[|steps| - 1];
      ConfirmedBarsAreOver(s, start, front);
      assert ClockAfter(start, front) / 60_000 <= step.now / 60_000;
      StepLeavesConfirmed(Run(s, front), step);
    }
  }

  ghost predicate IsConfirmedAt(bars: seq<Bar>, ms: int) {
    exists b :: b in bars && b.confirmed && b.ts == ms - ms % 60_000
  }

  /** After its event, such a payload's minute is confirmed exactly when it is over. */
  lemma {:induction false} ConfirmedExactlyWhenOver(s: State, p: BarPayload, date: int, now: int)
    requires WellFormed(s, now) && ConfirmedIsOver(s.bars, now) && IsPriced(p, date)
    ensures IsConfirmedAt(BarApplied(s, p, date, now).bars, p.ts.ms) <==> p.ts.ms < now - now % 60_000
  {
    var r := BarApplied(s, p, date, now);
    BarLeavesConfirmed(s, p, date, now);
    SameBucket(p.ts.ms, p.ts.ms - p.ts.ms % 60_000, now);
    if p.ts.ms < now - now % 60_000 {
      BarAfterRollover(s, p, date, now);
      assert MinuteOf(p.ts.ms) < MinuteOf(now);
      ConfirmedBarOverrides(RolledOver(s, date), p, date, now);
      BarMapEntries(r.bars);
      assert BarMap(r.bars)[MinuteOf(p.ts.ms)] in r.bars;
    }
  }

  /** The same for every payload of a backfill in which no priced bar has an unreadable time. */
  lemma {:induction false} BackfillConfirmsWhatIsOver(s: State, ps: seq<BarPayload>, date: int, now: int, p: BarPayload)
    requires WellFormed(s, now) && ConfirmedIsOver(s.bars, now) && p in ps && IsPriced(p, date)
    requires forall q :: q in ps && q.close.Some? && q.close.value > 0.0 ==> !q.ts.Unreadable?
    ensures IsConfirmedAt(Backfilled(s, ps, date, now).bars, p.ts.ms) <==> p.ts.ms < now - now % 60_000
  {
    StepLeavesConfirmed(s, Step(BackfillEvent(ps), date, now));
    SameBucket(p.ts.ms, p.ts.ms - p.ts.ms % 60_000, now);
    if p.ts.ms < now - now % 60_000 {
      assert MinuteOf(p.ts.ms) < MinuteOf(now);
      BackfilledMinute(s, ps, date, now, p);
    }
  }

  lemma {:induction false} AcceptedMember(ps: seq<BarPayload>, now: int, p: BarPayload)
    requires p in ps && Accepts(p, now)
    ensures p in AcceptedOf(ps, now)
  {
    var front, last := ps[..|ps| - 1], ps[|ps| - 1];
    if p != last {
      assert ps == front + [last];
      AcceptedMember(front, now, p);
    }
  }

  ghost predicate AllConfirmed(m: map<int, Bar>) {
    forall k :: k in m ==> m[k].confirmed && m[k].ts == k * 60_000
  }

  lemma ConfirmedEntry(m: map<int, Bar>, k: int, x: Bar)
    requires AllConfirmed(m) && x.confirmed && x.ts == k * 60_000
    ensures AllConfirmed(m[k := x])
  {
  }

  /** The dictionary that a backfill overrides with has only confirmed bars, */
  lemma {:induction false} DirectedIsConfirmed(s: State, ps: seq<BarPayload>, date: int, now: int)
    ensures AllConfirmed(LastDirected(s, ps, date, now))
  {
    if ps != [] {
      var front, p := ps[..|ps| - 1], ps[|ps| - 1];
      DirectedIsConfirmed(s, front, date, now);
      if Accepts(p, now) {
        var x := NormalizedBar(DirectedBar(Batched(s, front, date, now).snapshot, p));
        ConfirmedEntry(LastDirected(s, front, date, now), MinuteOf(p.ts.ms), x);
      }
    }
  }

  /** and one for each accepted minute. */
  lemma {:induction false} DirectedHasMinute(s: State, ps: seq<BarPayload>, date: int, now: int, p: BarPayload)
    requires p in ps && Accepts(p, now) && IsRegularMinute(MinuteOf(p.ts.ms), Some(date))
    ensures MinuteOf(p.ts.ms) in LastDirected(s, ps, date, now)
  {
    var front, last := ps[..|ps| - 1], ps[|ps| - 1];
    if p != last {
      assert ps == front + [last];
      DirectedHasMinute(s, front, date, now, p);
    }
  }

  lemma {:induction false} ConfirmedMinute(s: State, ps: seq<BarPayload>, date: int, now: int, p: BarPayload)
    requires WellFormed(s, now) && s.snapshot.date == Some(date)
    requires p in ps && Accepts(p, now) && IsRegularMinute(MinuteOf(p.ts.ms), Some(date))
    ensures IsConfirmedAt(BarsApplied(s, ps, date, now).bars, p.ts.ms)
  {
    var k, bars := MinuteOf(p.ts.ms), BarsApplied(s, ps, date, now).bars;
    OneByOneDirected(s, ps, date, now);
    DirectedIsConfirmed(s, ps, date, now);
    DirectedHasMinute(s, ps, date, now, p);
    BarMapEntries(bars);
    assert BarMap(bars)[k] in bars && BarMap(bars)[k].ts == k * 60_000;
  }

  lemma {:induction false} BackfilledMinute(s: State, ps: seq<BarPayload>, date: int, now: int, p: BarPayload)
    requires WellFormed(s, now) && p in ps && IsPriced(p, date) && Accepts(p, now)
    requires forall q :: q in ps && q.close.Some? && q.close.value > 0.0 ==> !q.ts.Unreadable?
    ensures IsConfirmedAt(Backfilled(s, ps, date, now).bars, p.ts.ms)
  {
    AcceptedMember(ps, now, p);
    assert Taken(ps, now) == AcceptedOf(ps, now) != [];
    var sorted := Sort(EarlierPayload, Taken(ps, now));
    SortMembers(EarlierPayload, Taken(ps, now));
    BackfillIsSortedBars(s, ps, date, now);
    BarsAfterRollover(s, sorted, date, now);
    ConfirmedMinute(RolledOver(s, date), sorted, date, now, p);
  }

  /** A payload without a positive close or a readable time, or for a minute that is not over,
      does nothing beyond the rollover and the prune. */
  lemma RejectedMeans(s: State, p: BarPayload, date: int, now: int)
    requires p.close.None? || p.close.value <= 0.0 || !p.ts.At? || p.ts.ms >= now - now % 60_000
    ensures var rolled := RolledOver(s, date);
            BarApplied(s, p, date, now) == rolled.(bars := Pruned(BarStamp, rolled.bars, now))
  {
    if p.ts.At? && p.ts.ms >= now - now % 60_000 {
      assert MinuteOf(p.ts.ms) >= MinuteOf(now);
    }
  }

  /** An error is raised exactly for an unreadable time beside a positive close, and then a
      backfill does nothing beyond the prune. */
  lemma RaisedMeans(s: State, ps: seq<BarPayload>, date: int, now: int)
    ensures forall p :: p in ps ==> (Raises(p) <==> p.close.Some? && p.close.value > 0.0 && p.ts == Unreadable)
    ensures (exists p :: p in ps && p.close.Some? && p.close.value > 0.0 && p.ts == Unreadable) ==>
              Backfilled(s, ps, date, now) == s.(bars := Pruned(BarStamp, s.bars, now))
  {
    if p :| p in ps && p.close.Some? && p.close.value > 0.0 && p.ts == Unreadable {
      assert Raises(p);
    }
  }

  /** A backfill is applied in time order. */
  lemma AppliedInTimeOrder(ps: seq<BarPayload>, now: int, i: nat, j: nat)
    requires i < j < |Sort(EarlierPayload, Taken(ps, now))|
    ensures var sorted := Sort(EarlierPayload, Taken(ps, now));
            sorted[i].ts.At? && sorted[j].ts.At? && sorted[i].ts.ms / 60_000 <= sorted[j].ts.ms / 60_000
  {
    SortSorted(EarlierPayload, Taken(ps, now));
    SortMembers(EarlierPayload, Taken(ps, now));
    AcceptedFrom(ps, now);
    var sorted := Sort(EarlierPayload, Taken(ps, now));
    assert sorted[i] in sorted && sorted[j] in sorted;
  }
}
