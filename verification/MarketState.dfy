/** The per-symbol session state of pipeline.py: ticks, confirmed minute bars, queue and
    book events, and the session rollover, over one snapshot and one bar list.

    The clock is a parameter of every step. Prices are reals; a price of 0.0 is what the
    program's `or` chains treat as missing. */
module MarketState {
  import opened Sequences
  import opened TradingSession
  import opened MinuteBars

  datatype Snapshot = Snapshot(
    date: Option<int>, price: real, previousClose: real, open: real, high: real, low: real,
    volume: int, turnover: real, change: real, changePercent: real, nextPreviousClose: real)

  datatype State = State(snapshot: Snapshot, bars: seq<Bar>)

  datatype TickInput = TickInput(ts: int, price: real, volume: int, turnover: real, fullTickSeed: bool)

  /** When a bar is for. Reading text that is not a timestamp raises an error. */
  datatype BarTime = Missing | Unreadable | At(ms: int)

  /** The readable fields of a 1m event; absent or unreadable numbers are `None`. */
  datatype BarPayload = BarPayload(ts: BarTime, close: Option<real>, open: Option<real>,
                                   high: Option<real>, low: Option<real>, volume: int, turnover: real)

  datatype Event =
    | TickEvent(tick: TickInput)
    | BarEvent(payload: BarPayload)
    | BackfillEvent(payloads: seq<BarPayload>)
    | QueueEvent
    | BookEvent

  function DirectionFrom(previous: real, price: real): Direction {
    if price > previous then Up else if price < previous then Down else Flat
  }

  function Percent(change: real, previousClose: real): real {
    if previousClose == 0.0 then 0.0 else change / previousClose * 100.0
  }

  function BarsVolume(bars: seq<Bar>): int {
    if bars == [] then 0 else BarsVolume(bars[..|bars| - 1]) + bars[|bars| - 1].volume
  }

  function BarsTurnover(bars: seq<Bar>): real {
    if bars == [] then 0.0 else BarsTurnover(bars[..|bars| - 1]) + bars[|bars| - 1].turnover
  }

  function HighOf(bar: Bar, price: real): real {
    Or(bar.high, Or(bar.price, price))
  }

  function LowOf(bar: Bar, price: real): real {
    Or(bar.low, Or(bar.price, price))
  }

  function BarsHigh(bars: seq<Bar>, price: real): real
    requires bars != []
  {
    var last := HighOf(bars[|bars| - 1], price);
    if |bars| == 1 then last else Max(BarsHigh(bars[..|bars| - 1], price), last)
  }

  function BarsLow(bars: seq<Bar>, price: real): real
    requires bars != []
  {
    var last := LowOf(bars[|bars| - 1], price);
    if |bars| == 1 then last else Min(BarsLow(bars[..|bars| - 1], price), last)
  }

  // ---------- the steps as functions ----------

  /** The snapshot that a non-empty bar list implies. */
  function FromBars(snapshot: Snapshot, bars: seq<Bar>): Snapshot
    requires bars != []
  {
    var latest := bars[|bars| - 1];
    var price := Or(latest.price, Or(latest.close, snapshot.previousClose));
    var change := price - snapshot.previousClose;
    snapshot.(price := price,
              open := Or(bars[0].open, Or(bars[0].price, price)),
              high := BarsHigh(bars, price), low := BarsLow(bars, price),
              volume := BarsVolume(bars), turnover := BarsTurnover(bars),
              change := change, changePercent := Percent(change, snapshot.previousClose))
  }

  function Recomputed(s: State, now: int): State {
    var pruned := Pruned(BarStamp, s.bars, now);
    if pruned == [] then s
    else
      var sorted := Sort(EarlierBar, pruned);
      SortMembers(EarlierBar, pruned);
      State(FromBars(s.snapshot, sorted), LastN(sorted, BAR_CAP))
  }

  function ReferencePrice(s: Snapshot): real {
    Or(s.nextPreviousClose, Or(s.price, s.previousClose))
  }

  function RolledOver(s: State, date: int): State {
    if s.snapshot.date == Some(date) then s
    else
      var reference := ReferencePrice(s.snapshot);
      State(Snapshot(Some(date), reference, reference, reference, reference, reference,
                     0, 0.0, 0.0, 0.0, s.snapshot.nextPreviousClose), [])
  }

  /** The state a tick starts from: pruned, or cleared on a session change. */
  function TickBase(s: State, tick: TickInput, date: int, now: int): State {
    if s.snapshot.date == Some(date) then s.(bars := Pruned(BarStamp, s.bars, now))
    else State(s.snapshot.(date := Some(date), previousClose := ReferencePrice(s.snapshot),
                           open := tick.price, high := tick.price, low := tick.price,
                           volume := 0, turnover := 0.0), [])
  }

  predicate UpdatesChart(tick: TickInput, date: int) {
    !tick.fullTickSeed && IsRegularMinute(MinuteOf(tick.ts), Some(date))
  }

  function Directed(s: Snapshot, tick: TickInput): Tick {
    Tick(tick.ts, tick.price, tick.volume, tick.turnover, DirectionFrom(s.price, tick.price))
  }

  function TickApplied(s: State, tick: TickInput, date: int, now: int): State {
    var base := TickBase(s, tick, date, now);
    var snap := base.snapshot;
    var change := tick.price - snap.previousClose;
    State(snap.(price := tick.price,
                high := Max(Or(snap.high, tick.price), tick.price),
                low := Min(Or(snap.low, tick.price), tick.price),
                volume := if tick.fullTickSeed then tick.volume else snap.volume + tick.volume,
                turnover := if tick.fullTickSeed then tick.turnover else snap.turnover + tick.turnover,
                change := change, changePercent := Percent(change, snap.previousClose)),
          if UpdatesChart(tick, date) then Upserted(base.bars, Directed(snap, tick), Some(date)) else base.bars)
  }

  /** `minute_bar_from_payload`: no positive close or no timestamp means no bar. */
  function BarFromPayload(p: BarPayload): (r: Option<Bar>)
    ensures r.Some? ==> r.value.price > 0.0 && NormalizedBar(r.value) == r.value.(ts := BucketStamp(r.value.ts))
  {
    if p.close.None? || p.close.value <= 0.0 || !p.ts.At? then None
    else
      var close := p.close.value;
      Some(Bar(p.ts.ms, close, Or(p.open.GetOr(0.0), close), Or(p.high.GetOr(0.0), close),
               Or(p.low.GetOr(0.0), close), close, p.volume, p.turnover, Flat, true))
  }

  /** Confirmed bars of the running minute or later are not accepted. */
  predicate Accepts(p: BarPayload, now: int) {
    BarFromPayload(p).Some? && MinuteOf(p.ts.ms) < MinuteOf(now)
  }

  /** The payload has a price, so the program goes on to read its timestamp, in vain. */
  predicate Raises(p: BarPayload) {
    p.close.Some? && p.close.value > 0.0 && p.ts.Unreadable?
  }

  /** The bar of an accepted payload, with its direction against the price before it. */
  function DirectedBar(s: Snapshot, p: BarPayload): (bar: Bar)
    requires BarFromPayload(p).Some?
    ensures bar == BarFromPayload(p).value.(direction := bar.direction)
  {
    var bar := BarFromPayload(p).value;
    bar.(direction := DirectionFrom(Or(s.price, bar.price), bar.price))
  }

  function BarApplied(s: State, p: BarPayload, date: int, now: int): State {
    var rolled := RolledOver(s, date);
    var base := rolled.(bars := Pruned(BarStamp, rolled.bars, now));
    if !Accepts(p, now) then base
    else Recomputed(base.(bars := UpsertedConfirmed(base.bars, DirectedBar(base.snapshot, p), Some(date))), now)
  }

  function BarsApplied(s: State, ps: seq<BarPayload>, date: int, now: int): State {
    if ps == [] then s
    else BarApplied(BarsApplied(s, ps[..|ps| - 1], date, now), ps[|ps| - 1], date, now)
  }

  function AcceptedOf(ps: seq<BarPayload>, now: int): seq<BarPayload> {
    if ps == [] then []
    else AcceptedOf(ps[..|ps| - 1], now) + if Accepts(ps[|ps| - 1], now) then [ps[|ps| - 1]] else []
  }

  /** What a backfill takes over: nothing at all if one of its timestamps raises an error. */
  function Taken(ps: seq<BarPayload>, now: int): seq<BarPayload> {
    if exists p :: p in ps && Raises(p) then [] else AcceptedOf(ps, now)
  }

  function MinuteOfPayload(p: BarPayload): int {
    if p.ts.At? then MinuteOf(p.ts.ms) else 0
  }

  predicate EarlierPayload(x: BarPayload, y: BarPayload) {
    MinuteOfPayload(x) <= MinuteOfPayload(y)
  }

  function Backfilled(s: State, ps: seq<BarPayload>, date: int, now: int): State {
    var pruned := s.(bars := Pruned(BarStamp, s.bars, now));
    BarsApplied(pruned, Sort(EarlierPayload, Taken(ps, now)), date, now)
  }

  function Stepped(s: State, e: Event, date: int, now: int): State {
    match e
    case TickEvent(tick) => TickApplied(s, tick, date, now)
    case BarEvent(p) => BarApplied(s, p, date, now)
    case BackfillEvent(ps) => Backfilled(s, ps, date, now)
    case QueueEvent => RolledOver(s, date)
    case BookEvent => RolledOver(s, date)
  }

  // ---------- the state as the program keeps it ----------

  class SymbolState {
    var snapshot: Snapshot
    var minuteBars: seq<Bar>

    ghost function View(): State
      reads this
    {
      State(snapshot, minuteBars)
    }

    constructor (snapshot: Snapshot, minuteBars: seq<Bar>)
      ensures View() == State(snapshot, minuteBars)
    {
      this.snapshot, this.minuteBars := snapshot, minuteBars;
    }

    /** `rollover_realtime_session`. */
    method Rollover(date: int)
      modifies this
      ensures View() == RolledOver(old(View()), date)
    {
      if snapshot.date == Some(date) {
        return;
      }
      var reference := ReferencePrice(snapshot);
      minuteBars := [];
      snapshot := snapshot.(date := Some(date), price := reference, previousClose := reference,
                            open := reference, high := reference, low := reference,
                            volume := 0, turnover := 0.0, change := 0.0, changePercent := 0.0);
    }

    /** `update_snapshot_from_minute_bars`. */
    method UpdateSnapshotFromMinuteBars(now: int)
      modifies this
      ensures View() == Recomputed(old(View()), now)
    {
      var pruned := PruneFutureMinuteBars(BarStamp, minuteBars, now);
      if pruned == [] {
        return;
      }
      var sorted := Sort(EarlierBar, pruned);
      SortMembers(EarlierBar, pruned);
      minuteBars := LastN(sorted, BAR_CAP);
      snapshot := FromBars(snapshot, sorted);
    }

    /** `apply_tick_to_state`. */
    method ApplyTick(tick: TickInput, date: int, now: int)
      modifies this
      ensures View() == TickApplied(old(View()), tick, date, now)
    {
      minuteBars := PruneFutureMinuteBars(BarStamp, minuteBars, now);
      if snapshot.date != Some(date) {
        minuteBars := [];
        snapshot := snapshot.(date := Some(date), previousClose := ReferencePrice(snapshot),
                              open := tick.price, high := tick.price, low := tick.price,
                              volume := 0, turnover := 0.0);
      }
      var direction := DirectionFrom(snapshot.price, tick.price);
      snapshot := snapshot.(price := tick.price,
                            high := Max(Or(snapshot.high, tick.price), tick.price),
                            low := Min(Or(snapshot.low, tick.price), tick.price),
                            volume := if tick.fullTickSeed then tick.volume else snapshot.volume + tick.volume,
                            turnover := if tick.fullTickSeed then tick.turnover else snapshot.turnover + tick.turnover,
                            change := tick.price - snapshot.previousClose);
      snapshot := snapshot.(changePercent := Percent(snapshot.change, snapshot.previousClose));
      if !tick.fullTickSeed && IsRegularMinute(MinuteOf(tick.ts), Some(date)) {
        minuteBars := UpsertMinuteBar(
          minuteBars, Tick(tick.ts, tick.price, tick.volume, tick.turnover, direction), Some(date));
      }
    }

    /** `apply_minute_bar_to_state`; an unreadable timestamp raises after the rollover and the prune. */
    method ApplyMinuteBar(p: BarPayload, date: int, now: int) returns (raised: bool)
      modifies this
      ensures View() == BarApplied(old(View()), p, date, now) && raised == Raises(p)
    {
      Rollover(date);
      minuteBars := PruneFutureMinuteBars(BarStamp, minuteBars, now);
      if Raises(p) {
        return true;
      }
      var parsed := BarFromPayload(p);
      if parsed.None? || MinuteOf(parsed.value.ts) >= MinuteOf(now) {
        return false;
      }
      var bar := parsed.value;
      bar := bar.(direction := DirectionFrom(Or(snapshot.price, bar.price), bar.price));
      minuteBars := UpsertConfirmedMinuteBar(minuteBars, bar, Some(date));
      UpdateSnapshotFromMinuteBars(now);
      return false;
    }

    /** The comprehension of `process_minute_bar_backfill` that filters the bars. */
    static method AcceptedBars(ps: seq<BarPayload>, now: int) returns (raised: bool, normalized: seq<BarPayload>)
      ensures raised <==> exists p :: p in ps && Raises(p)
      ensures !raised ==> normalized == Taken(ps, now)
    {
      raised, normalized := false, [];
      for i := 0 to |ps|
        invariant normalized == AcceptedOf(ps[..i], now)
        invariant forall k :: 0 <= k < i ==> !Raises(ps[k])
      {
        assert ps[..i + 1][..i] == ps[..i];
        if Raises(ps[i]) {
          return true, [];
        }
        if Accepts(ps[i], now) {
          normalized := normalized + [ps[i]];
        }
      }
      assert ps[..|ps|] == ps;
    }

    /** The state changes of `process_minute_bar_backfill`. */
    method Backfill(ps: seq<BarPayload>, date: int, now: int) returns (raised: bool)
      modifies this
      ensures View() == Backfilled(old(View()), ps, date, now)
      ensures raised <==> exists p :: p in ps && Raises(p)
    {
      minuteBars := PruneFutureMinuteBars(BarStamp, minuteBars, now);
      ghost var start := View();
      var normalized;
      raised, normalized := AcceptedBars(ps, now);
      if raised || normalized == [] {
        return;
      }
      normalized := Sort(EarlierPayload, normalized);
      for i := 0 to |normalized|
        invariant View() == BarsApplied(start, normalized[..i], date, now)
      {
        BarsAppliedStep(start, normalized, i, date, now);
        var _ := ApplyMinuteBar(normalized[i], date, now);
      }
      assert normalized[..|normalized|] == normalized;
    }
  }

  lemma BarsAppliedStep(s: State, ps: seq<BarPayload>, i: nat, date: int, now: int)
    requires i < |ps|
    ensures BarsApplied(s, ps[..i + 1], date, now) == BarApplied(BarsApplied(s, ps[..i], date, now), ps[i], date, now)
  {
    assert ps[..i + 1][..i] == ps[..i];
  }

  lemma {:induction false} AcceptedFrom(ps: seq<BarPayload>, now: int)
    ensures forall p :: p in AcceptedOf(ps, now) ==> p in ps && Accepts(p, now)
  {
    if ps != [] {
      AcceptedFrom(ps[..|ps| - 1], now);
      assert ps == ps[..|ps| - 1] + [ps[|ps| - 1]];
    }
  }

  // ---------- the invariant of reachable states ----------

  /** Bars are ordered regular bars of the session date and none lies after the clock. */
  ghost predicate WellFormed(s: State, now: int) {
    && s.snapshot.date.Some?
    && Ordered(s.bars) && OnDate(s.bars, s.snapshot.date.value) && AllPast(s.bars, now)
  }

  ghost predicate ChangeConsistent(s: Snapshot) {
    s.change == s.price - s.previousClose && s.changePercent == Percent(s.change, s.previousClose)
  }

  lemma {:induction false} VolumeOfInsert(bars: seq<Bar>, x: Bar)
    ensures BarsVolume(Insert(EarlierBar, bars, x)) == BarsVolume(bars) + x.volume
    ensures BarsTurnover(Insert(EarlierBar, bars, x)) == BarsTurnover(bars) + x.turnover
  {
    if bars == [] || EarlierBar(bars[|bars| - 1], x) {
      assert (bars + [x])[..|bars|] == bars;
    } else {
      var r := Insert(EarlierBar, bars[..|bars| - 1], x);
      VolumeOfInsert(bars[..|bars| - 1], x);
      assert (r + [bars[|bars| - 1]])[..|r|] == r;
    }
  }

  lemma {:induction false} VolumeOfUpdate(bars: seq<Bar>, k: nat, x: Bar)
    requires k < |bars|
    ensures BarsVolume(bars[k := x]) == BarsVolume(bars) - bars[k].volume + x.volume
    ensures BarsTurnover(bars[k := x]) == BarsTurnover(bars) - bars[k].turnover + x.turnover
  {
    var front := bars[..|bars| - 1];
    if k < |bars| - 1 {
      VolumeOfUpdate(front, k, x);
      assert bars[k := x][..|bars| - 1] == front[k := x];
    } else {
      assert bars[k := x][..|bars| - 1] == front;
    }
  }

  /** Setting one minute's entry changes the totals by the difference of the two entries. */
  lemma SetMinuteTotals(bars: seq<Bar>, x: Bar)
    requires Ordered(bars)
    ensures var at := FirstAt(bars, x.Minute());
            var r := Sort(EarlierBar, if at.Some? then bars[at.value := x] else bars + [x]);
            && BarsVolume(r) == BarsVolume(bars) + x.volume - (if at.Some? then bars[at.value].volume else 0)
            && BarsTurnover(r) == BarsTurnover(bars) + x.turnover - (if at.Some? then bars[at.value].turnover else 0.0)
  {
    var at := FirstAt(bars, x.Minute());
    if at.Some? {
      VolumeOfUpdate(bars, at.value, x);
      UpdateAt(bars, at.value, x);
      SortIdentity(EarlierBar, bars[at.value := x]);
    } else {
      SortAppend(EarlierBar, bars, x);
      SortIdentity(EarlierBar, bars);
      VolumeOfInsert(bars, x);
    }
  }

  /** Setting one minute's entry in a one-day list: the cap does not bite. */
  lemma SetMinuteOfDay(bars: seq<Bar>, x: Bar, date: int)
    requires Ordered(bars) && OnDate(bars, date) && IsRegularMinute(x.Minute(), Some(date))
    ensures var at := FirstAt(bars, x.Minute());
            var r := LastN(Sort(EarlierBar, if at.Some? then bars[at.value := x] else bars + [x]), BAR_CAP);
            && Ordered(r) && OnDate(r, date) && (forall b :: b in r ==> b in bars || b == x)
            && BarsVolume(r) == BarsVolume(bars) + x.volume - (if at.Some? then bars[at.value].volume else 0)
            && BarsTurnover(r) == BarsTurnover(bars) + x.turnover - (if at.Some? then bars[at.value].turnover else 0.0)
  {
    SetMinute(bars, x);
    SetMinuteTotals(bars, x);
    var at := FirstAt(bars, x.Minute());
    var r := Sort(EarlierBar, if at.Some? then bars[at.value := x] else bars + [x]);
    StaysOnDate(bars, x, r, date);
    OneDayFitsCap(r, date);
  }

  /** A charted tick adds exactly its volume and turnover to the bars. */
  lemma UpsertConserves(bars: seq<Bar>, tick: Tick, date: int)
    requires Ordered(bars) && OnDate(bars, date) && IsRegularMinute(MinuteOf(tick.ts), Some(date))
    ensures var r := Upserted(bars, tick, Some(date));
            && Ordered(r) && OnDate(r, date)
            && BarsVolume(r) == BarsVolume(bars) + tick.volume
            && BarsTurnover(r) == BarsTurnover(bars) + tick.turnover
            && (forall b :: b in r ==> b in bars || b.Minute() == MinuteOf(tick.ts))
  {
    var at := FirstAt(bars, MinuteOf(tick.ts));
    var x := if at.Some? then MergeTick(bars[at.value], tick) else OpenBar(tick);
    assert x.Minute() == MinuteOf(tick.ts);
    SetMinuteOfDay(bars, x, date);
  }

  lemma AllPastFrom(r: seq<Bar>, bars: seq<Bar>, minute: int, now: int)
    requires AllPast(bars, now) && minute <= MinuteOf(now)
    requires forall b :: b in r ==> b in bars || b.Minute() == minute
    ensures AllPast(r, now)
  {
    forall i | 0 <= i < |r|
      ensures r[i].Minute() <= MinuteOf(now)
    {
      assert r[i] in r;
    }
  }

  /** On well-formed states recomputing keeps the bars and reads the snapshot off them. */
  lemma RecomputeWellFormed(s: State, now: int)
    requires WellFormed(s, now)
    ensures Recomputed(s, now) == if s.bars == [] then s else State(FromBars(s.snapshot, s.bars), s.bars)
  {
    PrunedOneDay(s.bars, s.snapshot.date.value, now);
    SortIdentity(EarlierBar, s.bars);
    OneDayFitsCap(s.bars, s.snapshot.date.value);
  }

  /** What a confirmed bar does to a well-formed state of the same session. */
  lemma BarStep(s: State, p: BarPayload, date: int, now: int)
    requires WellFormed(s, now) && s.snapshot.date == Some(date)
    ensures var r := BarApplied(s, p, date, now);
            && WellFormed(r, now) && r.snapshot.date == Some(date)
            && r.snapshot.previousClose == s.snapshot.previousClose
            && (!Accepts(p, now) ==> r == s)
            && (Accepts(p, now) ==>
                  && (r.snapshot == if r.bars == [] then s.snapshot else FromBars(s.snapshot, r.bars))
                  && r.bars == UpsertedConfirmed(s.bars, DirectedBar(s.snapshot, p), Some(date)))
  {
    PrunedOneDay(s.bars, date, now);
    if Accepts(p, now) {
      var bar := DirectedBar(s.snapshot, p);
      UpsertedBar(s.bars, bar, date);
      var r := UpsertedConfirmed(s.bars, bar, Some(date));
      AllPastFrom(r, s.bars, bar.Minute(), now);
      RecomputeWellFormed(s.(bars := r), now);
    }
  }

  /** Bars as ticks and confirmed events make them: no field is the 0.0 that counts as missing. */
  ghost predicate Priced(bars: seq<Bar>) {
    forall i {:trigger bars[i]} :: 0 <= i < |bars| ==>
      bars[i].price != 0.0 && bars[i].open != 0.0 && bars[i].high != 0.0 && bars[i].low != 0.0
  }

  lemma {:induction false} EnvelopeOfBars(bars: seq<Bar>, price: real)
    requires bars != [] && Priced(bars)
    ensures forall b :: b in bars ==> BarsLow(bars, price) <= b.low && b.high <= BarsHigh(bars, price)
    ensures (exists b :: b in bars && b.high == BarsHigh(bars, price))
    ensures (exists b :: b in bars && b.low == BarsLow(bars, price))
  {
    var front, last := bars[..|bars| - 1], bars[|bars| - 1];
    assert bars == front + [last];
    assert last.high == HighOf(last, price) && last.low == LowOf(last, price);
    if front != [] {
      EnvelopeOfBars(front, price);
      var h :| h in front && h.high == BarsHigh(front, price);
      var l :| l in front && l.low == BarsLow(front, price);
      assert h in bars && l in bars && last in bars;
    } else {
      assert last in bars;
    }
  }

  /** What recomputing reads off the bars: first open, last price, the extremes of all bars,
      and a change against the unchanged previous close. */
  lemma SnapshotOfBars(s: Snapshot, bars: seq<Bar>)
    requires bars != [] && Priced(bars)
    ensures var r := FromBars(s, bars);
            && r.open == bars[0].open && r.price == bars[|bars| - 1].price
            && (forall b :: b in bars ==> r.low <= b.low && b.high <= r.high)
            && (exists b :: b in bars && b.high == r.high) && (exists b :: b in bars && b.low == r.low)
            && r.previousClose == s.previousClose && ChangeConsistent(r)
  {
    EnvelopeOfBars(bars, bars[|bars| - 1].price);
  }

  /** A confirmed bar takes the place of whatever its minute held; other minutes stay. */
  lemma ConfirmedBarOverrides(s: State, p: BarPayload, date: int, now: int)
    requires WellFormed(s, now) && s.snapshot.date == Some(date)
    requires Accepts(p, now) && IsRegularMinute(MinuteOf(p.ts.ms), Some(date))
    ensures var before, after, k := BarMap(s.bars), BarMap(BarApplied(s, p, date, now).bars), MinuteOf(p.ts.ms);
            && after.Keys == before.Keys + {k}
            && (forall j :: j in before && j != k ==> after[j] == before[j])
            && after[k].confirmed && after[k].ts == BucketStamp(p.ts.ms)
            && after[k].price == after[k].close == p.close.value
            && after[k].open == Or(p.open.GetOr(0.0), p.close.value)
            && after[k].high == Or(p.high.GetOr(0.0), p.close.value)
            && after[k].low == Or(p.low.GetOr(0.0), p.close.value)
            && after[k].volume == p.volume && after[k].turnover == p.turnover
  {
    BarStep(s, p, date, now);
    UpsertedBar(s.bars, DirectedBar(s.snapshot, p), date);
  }
}
