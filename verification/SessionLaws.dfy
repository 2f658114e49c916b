/** Laws of whole runs of a symbol session: the snapshot's volume always reconciles with
    the bars, and applying confirmed bars one by one equals overriding the bars once. */
module SessionLaws {
  import opened Sequences
  import opened TradingSession
  import opened MinuteBars
  import opened MarketState

  // ---------- volume reconciliation ----------

  /** What the snapshot's volume and turnover are made of. `SinceBars`: the bars plus the
      off-session ticks since they were last read off the bars. `SinceSeed`: a full-tick
      seed plus every tick since. */
  datatype Ledger =
    | SinceBars(volume: int, turnover: real)
    | SinceSeed(volume: int, turnover: real)

  const SETTLED := SinceBars(0, 0.0)

  ghost predicate Reconciles(s: State, l: Ledger) {
    match l
    case SinceBars(v, t) =>
      s.snapshot.volume == BarsVolume(s.bars) + v && s.snapshot.turnover == BarsTurnover(s.bars) + t
    case SinceSeed(v, t) =>
      s.snapshot.volume == v && s.snapshot.turnover == t
  }

  datatype Step = Step(event: Event, date: int, now: int)

  function Applied(s: State, step: Step): State {
    Stepped(s, step.event, step.date, step.now)
  }

  /** A tick on the chart is in the bars, any other tick is booked; reading the snapshot off
      the bars, and a new session, settle the ledger. */
  function Booked(l: Ledger, s: State, step: Step): Ledger {
    var entered := if s.snapshot.date == Some(step.date) then l else SETTLED;
    match step.event
    case TickEvent(tick) =>
      if tick.fullTickSeed then SinceSeed(tick.volume, tick.turnover)
      else if entered.SinceBars? && IsRegularMinute(MinuteOf(tick.ts), Some(step.date)) then entered
      else entered.(volume := entered.volume + tick.volume, turnover := entered.turnover + tick.turnover)
    case BarEvent(p) =>
      if Accepts(p, step.now) && Applied(s, step).bars != [] then SETTLED else entered
    case BackfillEvent(ps) =>
      if Taken(ps, step.now) == [] then l
      else if Applied(s, step).bars != [] then SETTLED
      else entered
    case QueueEvent => entered
    case BookEvent => entered
  }

  function Run(s: State, steps: seq<Step>): State {
    if steps == [] then s else Applied(Run(s, steps[..|steps| - 1]), steps[|steps| - 1])
  }

  function RunLedger(l: Ledger, s: State, steps: seq<Step>): Ledger {
    if steps == [] then l
    else
      var front := steps[..|steps| - 1];
      Booked(RunLedger(l, s, front), Run(s, front), steps[|steps| - 1])
  }

  function ClockAfter(start: int, steps: seq<Step>): int {
    if steps == [] then start else steps[|steps| - 1].now
  }

  /** The clock never goes back and no tick is stamped with a minute ahead of it. */
  ghost predicate OnTime(start: int, steps: seq<Step>) {
    steps != [] ==>
      var front, step := steps[..|steps| - 1], steps[|steps| - 1];
      && OnTime(start, front)
      && ClockAfter(start, front) <= step.now
      && (step.event.TickEvent? ==> MinuteOf(step.event.tick.ts) <= MinuteOf(step.now))
  }

  /** Everything the reconciliation law maintains. */
  ghost predicate Sound(s: State, l: Ledger, now: int) {
    WellFormed(s, now) && Reconciles(s, l) && ChangeConsistent(s.snapshot)
  }

  lemma LaterClock(s: State, now: int, later: int)
    requires WellFormed(s, now) && now <= later
    ensures WellFormed(s, later)
  {
    assert MinuteOf(now) <= MinuteOf(later);
  }

  /** The bars after a tick: a charted tick is added to them exactly once. */
  lemma TickBars(s: State, tick: TickInput, date: int, now: int)
    requires WellFormed(s, now) && MinuteOf(tick.ts) <= MinuteOf(now)
    ensures var r, base := TickApplied(s, tick, date, now), TickBase(s, tick, date, now);
            && WellFormed(r, now)
            && (s.snapshot.date == Some(date) ==> base.bars == s.bars)
            && BarsVolume(r.bars) == BarsVolume(base.bars) + (if UpdatesChart(tick, date) then tick.volume else 0)
            && BarsTurnover(r.bars)
               == BarsTurnover(base.bars) + (if UpdatesChart(tick, date) then tick.turnover else 0.0)
  {
    var base := TickBase(s, tick, date, now);
    PrunedOneDay(s.bars, s.snapshot.date.value, now);
    if UpdatesChart(tick, date) {
      var directed := Directed(base.snapshot, tick);
      UpsertConserves(base.bars, directed, date);
      AllPastFrom(Upserted(base.bars, directed, Some(date)), base.bars, MinuteOf(tick.ts), now);
    }
  }

  lemma TickReconciles(s: State, l: Ledger, tick: TickInput, date: int, now: int)
    requires Sound(s, l, now) && MinuteOf(tick.ts) <= MinuteOf(now)
    ensures Reconciles(TickApplied(s, tick, date, now), Booked(l, s, Step(TickEvent(tick), date, now)))
  {
    TickBars(s, tick, date, now);
  }

  lemma TickIsSound(s: State, l: Ledger, tick: TickInput, date: int, now: int)
    requires Sound(s, l, now) && MinuteOf(tick.ts) <= MinuteOf(now)
    ensures Sound(TickApplied(s, tick, date, now), Booked(l, s, Step(TickEvent(tick), date, now)), now)
  {
    TickBars(s, tick, date, now);
    TickReconciles(s, l, tick, date, now);
  }

  /** Whatever is stamped, an ordinary tick of the running session reconciles exactly when the
      bars that it prunes as lying after the clock hold no volume and no turnover. */
  lemma TickReconcilesExactly(s: State, l: Ledger, tick: TickInput, date: int, now: int)
    requires Ordered(s.bars) && OnDate(s.bars, date) && s.snapshot.date == Some(date)
    requires Reconciles(s, l) && l.SinceBars? && !tick.fullTickSeed
    ensures var pruned := Pruned(BarStamp, s.bars, now);
            Reconciles(TickApplied(s, tick, date, now), Booked(l, s, Step(TickEvent(tick), date, now)))
            <==> BarsVolume(pruned) == BarsVolume(s.bars) && BarsTurnover(pruned) == BarsTurnover(s.bars)
  {
    var pruned := Pruned(BarStamp, s.bars, now);
    assert Ordered(pruned) && OnDate(pruned, date) by { PrunedOneDay(s.bars, date, now); }
    if UpdatesChart(tick, date) {
      UpsertConserves(pruned, Directed(s.snapshot, tick), date);
    }
  }

  /** Bars that all lie after the clock are pruned altogether. */
  lemma AllAheadPruned(bars: seq<Bar>, date: int, now: int)
    requires Ordered(bars) && OnDate(bars, date) && forall b :: b in bars ==> b.Minute() > MinuteOf(now)
    ensures Pruned(BarStamp, bars, now) == []
  {
    var pruned := Pruned(BarStamp, bars, now);
    assert |pruned| > 0 ==> pruned[0] in pruned;
    PrunedOneDay(bars, date, now);
  }

  /** A tick ahead of the clock is charted, and the next tick prunes its bar: its volume then
      is in the snapshot alone. */
  lemma TickAheadOfClock(s: State, first: TickInput, second: TickInput, date: int, now: int)
    requires s.bars == [] && s.snapshot.date == Some(date) && Reconciles(s, SETTLED)
    requires UpdatesChart(first, date) && UpdatesChart(second, date)
    requires MinuteOf(first.ts) > MinuteOf(now) && first.volume != 0
    ensures var m := TickApplied(s, first, date, now);
            Reconciles(m, SETTLED) && !Reconciles(TickApplied(m, second, date, now), SETTLED)
  {
    var m := TickApplied(s, first, date, now);
    AllAheadPruned([], date, now);
    UpsertConserves([], Directed(s.snapshot, first), date);
    assert m.bars == Upserted([], Directed(s.snapshot, first), Some(date)) && m.snapshot.date == Some(date);
    TickReconcilesExactly(s, SETTLED, first, date, now);
    AllAheadPruned(m.bars, date, now);
    assert BarsVolume(m.bars) == first.volume && BarsVolume([]) == 0;
    assert Booked(SETTLED, s, Step(TickEvent(first), date, now)) == SETTLED;
    assert Booked(SETTLED, m, Step(TickEvent(second), date, now)) == SETTLED;
    TickReconcilesExactly(m, SETTLED, second, date, now);
  }

  lemma RolloverIsSound(s: State, l: Ledger, date: int, now: int)
    requires Sound(s, l, now)
    ensures Sound(RolledOver(s, date), if s.snapshot.date == Some(date) then l else SETTLED, now)
  {
  }

  /** On rolling over first, a confirmed bar does what it does without. */
  lemma BarAfterRollover(s: State, p: BarPayload, date: int, now: int)
    ensures BarApplied(RolledOver(s, date), p, date, now) == BarApplied(s, p, date, now)
  {
  }

  lemma ReadOffBars(snapshot: Snapshot, bars: seq<Bar>)
    requires bars != []
    ensures ChangeConsistent(FromBars(snapshot, bars))
    ensures Reconciles(State(FromBars(snapshot, bars), bars), SETTLED)
  {
  }

  function BarBooked(l: Ledger, r: State, accepted: bool): Ledger {
    if accepted && r.bars != [] then SETTLED else l
  }

  /** A confirmed bar of the running session. */
  lemma SameSessionBarIsSound(s: State, l: Ledger, p: BarPayload, date: int, now: int)
    requires Sound(s, l, now) && s.snapshot.date == Some(date)
    ensures var r := BarApplied(s, p, date, now);
            Sound(r, BarBooked(l, r, Accepts(p, now)), now) && r.snapshot.date == Some(date)
  {
    BarStep(s, p, date, now);
    var r := BarApplied(s, p, date, now);
    if Accepts(p, now) {
      if r.bars != [] {
        ReadOffBars(s.snapshot, r.bars);
      } else if s.bars != [] {
        BarsNeverEmptied(s, p, date, now);
      }
    }
  }

  lemma BarIsSound(s: State, l: Ledger, p: BarPayload, date: int, now: int)
    requires Sound(s, l, now)
    ensures Sound(BarApplied(s, p, date, now), Booked(l, s, Step(BarEvent(p), date, now)), now)
  {
    var rolled := RolledOver(s, date);
    var entered := if s.snapshot.date == Some(date) then l else SETTLED;
    RolloverIsSound(s, l, date, now);
    BarAfterRollover(s, p, date, now);
    SameSessionBarIsSound(rolled, entered, p, date, now);
    assert Booked(l, s, Step(BarEvent(p), date, now))
        == BarBooked(entered, BarApplied(s, p, date, now), Accepts(p, now));
  }

  lemma {:induction false} BarsAreSound(s: State, l: Ledger, ps: seq<BarPayload>, date: int, now: int)
    requires Sound(s, l, now) && s.snapshot.date == Some(date)
    requires ps != [] && forall p :: p in ps ==> Accepts(p, now)
    ensures var r := BarsApplied(s, ps, date, now);
            Sound(r, BarBooked(l, r, true), now) && r.snapshot.date == Some(date)
  {
    var front, p := ps[..|ps| - 1], ps[|ps| - 1];
    if front == [] {
      SameSessionBarIsSound(s, l, p, date, now);
    } else {
      BarsAreSound(s, l, front, date, now);
      var m := BarsApplied(s, front, date, now);
      SameSessionBarIsSound(m, BarBooked(l, m, true), p, date, now);
      if m.bars != [] {
        BarsNeverEmptied(m, p, date, now);
      }
    }
  }

  lemma {:induction false} BarsAfterRollover(s: State, ps: seq<BarPayload>, date: int, now: int)
    requires ps != []
    ensures BarsApplied(RolledOver(s, date), ps, date, now) == BarsApplied(s, ps, date, now)
  {
    var front := ps[..|ps| - 1];
    if front == [] {
      BarAfterRollover(s, ps[0], date, now);
    } else {
      BarsAfterRollover(s, front, date, now);
    }
  }

  lemma BarsNeverEmptied(s: State, p: BarPayload, date: int, now: int)
    requires WellFormed(s, now) && s.snapshot.date == Some(date) && s.bars != []
    ensures BarApplied(s, p, date, now).bars != []
  {
    BarStep(s, p, date, now);
    if Accepts(p, now) {
      var bar := DirectedBar(s.snapshot, p);
      UpsertedBar(s.bars, bar, date);
      BarMapEntries(s.bars);
      assert s.bars[0] in s.bars;
      assert s.bars[0].Minute() in BarMap(UpsertedConfirmed(s.bars, bar, Some(date)));
    }
  }

  /** On well-formed states a backfill is its accepted bars in time order. */
  lemma BackfillIsSortedBars(s: State, ps: seq<BarPayload>, date: int, now: int)
    requires WellFormed(s, now)
    ensures Backfilled(s, ps, date, now) == BarsApplied(s, Sort(EarlierPayload, Taken(ps, now)), date, now)
    ensures Taken(ps, now) == [] <==> Sort(EarlierPayload, Taken(ps, now)) == []
    ensures forall p :: p in Sort(EarlierPayload, Taken(ps, now)) ==> Accepts(p, now)
  {
    PrunedOneDay(s.bars, s.snapshot.date.value, now);
    assert s.(bars := s.bars) == s;
    AcceptedFrom(ps, now);
    SortMembers(EarlierPayload, Taken(ps, now));
  }

  /** The bars of a backfill, once they are sorted. */
  lemma SortedBarsAreSound(s: State, l: Ledger, sorted: seq<BarPayload>, date: int, now: int)
    requires Sound(s, l, now) && sorted != [] && forall p :: p in sorted ==> Accepts(p, now)
    ensures var r := BarsApplied(s, sorted, date, now);
            Sound(r, BarBooked(if s.snapshot.date == Some(date) then l else SETTLED, r, true), now)
  {
    RolloverIsSound(s, l, date, now);
    BarsAfterRollover(s, sorted, date, now);
    BarsAreSound(RolledOver(s, date), if s.snapshot.date == Some(date) then l else SETTLED, sorted, date, now);
  }

  lemma BackfillIsSound(s: State, l: Ledger, ps: seq<BarPayload>, date: int, now: int)
    requires Sound(s, l, now)
    ensures Sound(Backfilled(s, ps, date, now), Booked(l, s, Step(BackfillEvent(ps), date, now)), now)
  {
    BackfillIsSortedBars(s, ps, date, now);
    if Taken(ps, now) != [] {
      SortedBarsAreSound(s, l, Sort(EarlierPayload, Taken(ps, now)), date, now);
    }
  }

  /** In every reachable state the volume and turnover reconcile with the ledger, change is
      price minus previous close, and the bars are ordered regular bars of the session date. */
  lemma {:induction false} RunReconciles(s: State, l: Ledger, start: int, steps: seq<Step>)
    requires Sound(s, l, start) && OnTime(start, steps)
    ensures Sound(Run(s, steps), RunLedger(l, s, steps), ClockAfter(start, steps))
  {
    if steps != [] {
      var front, step := steps[..|steps| - 1], steps[|steps| - 1];
      RunReconciles(s, l, start, front);
      var m, lm := Run(s, front), RunLedger(l, s, front);
      LaterClock(m, ClockAfter(start, front), step.now);
      match step.event {
        case TickEvent(tick) => TickIsSound(m, lm, tick, step.date, step.now);
        case BarEvent(p) => BarIsSound(m, lm, p, step.date, step.now);
        case BackfillEvent(ps) => BackfillIsSound(m, lm, ps, step.date, step.now);
        case QueueEvent => RolloverIsSound(m, lm, step.date, step.now);
        case BookEvent => RolloverIsSound(m, lm, step.date, step.now);
      }
    }
  }

  ghost predicate Unseeded(steps: seq<Step>) {
    forall i {:trigger steps[i]} :: 0 <= i < |steps| && steps[i].event.TickEvent? ==> !steps[i].event.tick.fullTickSeed
  }

  lemma {:induction false} UnseededStaysOnBars(l: Ledger, s: State, steps: seq<Step>)
    requires l.SinceBars? && Unseeded(steps)
    ensures RunLedger(l, s, steps).SinceBars?
  {
    if steps != [] {
      UnseededStaysOnBars(l, s, steps[..|steps| - 1]);
    }
  }

  /** Without full-tick seeds: volume = bar volumes + what off-session ticks booked. */
  lemma UnseededVolumeIsBarsPlusOffSession(s: State, l: Ledger, start: int, steps: seq<Step>)
    requires Sound(s, l, start) && OnTime(start, steps) && l.SinceBars? && Unseeded(steps)
    ensures var r := Run(s, steps);
            && r.snapshot.volume == BarsVolume(r.bars) + RunLedger(l, s, steps).volume
            && r.snapshot.change == r.snapshot.price - r.snapshot.previousClose
  {
    RunReconciles(s, l, start, steps);
    UnseededStaysOnBars(l, s, steps);
  }

  datatype DailyBar = DailyBar(date: int, open: real, high: real, low: real, close: real)

  /** The start-of-day snapshot that `preload_bod` builds from stored bars. */
  function Preloaded(date: int, bars: seq<Bar>, previous: Option<DailyBar>, current: Option<DailyBar>): State {
    var previousClose := if previous.Some? then previous.value.close
                         else if current.Some? then current.value.close
                         else 0.0;
    var price := if bars != [] then bars[|bars| - 1].price else previousClose;
    var today := current.Some? && current.value.date == date;
    var change := price - previousClose;
    State(Snapshot(Some(date), price, previousClose,
                   if today then current.value.open else previousClose,
                   if today then current.value.high else previousClose,
                   if today then current.value.low else previousClose,
                   BarsVolume(bars), BarsTurnover(bars), change, Percent(change, previousClose),
                   if current.Some? then current.value.close else price),
          bars)
  }

  // ---------- confirmed bars one by one, or all at once ----------

  /** Bars up to the tick direction, the one field that depends on the order of arrival. */
  function Plain(bar: Bar): Bar {
    bar.(direction := Flat)
  }

  function PlainMap(m: map<int, Bar>): map<int, Bar> {
    map k | k in m :: Plain(m[k])
  }

  function PlainList(bars: seq<Bar>): seq<Bar> {
    if bars == [] then [] else PlainList(bars[..|bars| - 1]) + [Plain(bars[|bars| - 1])]
  }

  /** For each regular minute the last accepted bar. */
  function LastAccepted(ps: seq<BarPayload>, date: int, now: int): map<int, Bar> {
    if ps == [] then map[]
    else
      var p := ps[|ps| - 1];
      var front := LastAccepted(ps[..|ps| - 1], date, now);
      if Accepts(p, now) && IsRegularMinute(MinuteOf(p.ts.ms), Some(date))
      then front[MinuteOf(p.ts.ms) := Plain(NormalizedBar(BarFromPayload(p).value))]
      else front
  }

  /** Override the bars once with all accepted bars, then read the snapshot off them once. */
  function Batched(s: State, ps: seq<BarPayload>, date: int, now: int): State {
    var bars := InKeyOrder(PlainMap(BarMap(s.bars)) + LastAccepted(ps, date, now));
    State(if AcceptedOf(ps, now) == [] || bars == [] then s.snapshot else FromBars(s.snapshot, bars), bars)
  }

  function PlainState(s: State): State {
    s.(bars := PlainList(s.bars))
  }

  lemma {:induction false} PlainListShape(bars: seq<Bar>)
    ensures |PlainList(bars)| == |bars|
    ensures forall i :: 0 <= i < |bars| ==> PlainList(bars)[i] == Plain(bars[i])
    ensures BarMap(PlainList(bars)) == PlainMap(BarMap(bars))
  {
    if bars != [] {
      var front, last := bars[..|bars| - 1], bars[|bars| - 1];
      PlainListShape(front);
      assert (PlainList(front) + [Plain(last)])[..|front|] == PlainList(front);
    }
  }

  lemma {:induction false} PlainTotals(bars: seq<Bar>, price: real)
    ensures BarsVolume(PlainList(bars)) == BarsVolume(bars)
    ensures BarsTurnover(PlainList(bars)) == BarsTurnover(bars)
    ensures bars != [] ==> PlainList(bars) != []
                           && BarsHigh(PlainList(bars), price) == BarsHigh(bars, price)
                           && BarsLow(PlainList(bars), price) == BarsLow(bars, price)
  {
    if bars != [] {
      var front, last := bars[..|bars| - 1], bars[|bars| - 1];
      PlainTotals(front, price);
      PlainListShape(bars);
      assert PlainList(bars)[..|front|] == PlainList(front);
    }
  }

  /** The snapshot does not depend on bar directions. */
  lemma FromPlainBars(s: Snapshot, bars: seq<Bar>)
    requires bars != []
    ensures PlainList(bars) != [] && FromBars(s, PlainList(bars)) == FromBars(s, bars)
  {
    PlainListShape(bars);
    var latest := bars[|bars| - 1];
    PlainTotals(bars, Or(latest.price, Or(latest.close, s.previousClose)));
  }

  lemma PlainMapSet(m: map<int, Bar>, k: int, x: Bar)
    ensures PlainMap(m[k := x]) == PlainMap(m)[k := Plain(x)]
  {
  }

  lemma MergeSet<V>(m: map<int, V>, n: map<int, V>, k: int, v: V)
    ensures m + n[k := v] == (m + n)[k := v]
  {
  }

  /** One accepted bar sets the entry of its minute, if that is a regular one. */
  lemma BarStepMap(m: State, p: BarPayload, date: int, now: int)
    requires WellFormed(m, now) && m.snapshot.date == Some(date) && Accepts(p, now)
    ensures var k, x := MinuteOf(p.ts.ms), Plain(NormalizedBar(BarFromPayload(p).value));
            PlainMap(BarMap(BarApplied(m, p, date, now).bars))
            == if IsRegularMinute(k, Some(date)) then PlainMap(BarMap(m.bars))[k := x] else PlainMap(BarMap(m.bars))
  {
    BarStep(m, p, date, now);
    var r := BarApplied(m, p, date, now);
    var bar := DirectedBar(m.snapshot, p);
    UpsertedBar(m.bars, bar, date);
    PlainMapSet(BarMap(m.bars), MinuteOf(bar.ts), NormalizedBar(bar));
  }

  lemma {:induction false} OneByOneBars(s: State, ps: seq<BarPayload>, date: int, now: int)
    requires WellFormed(s, now) && s.snapshot.date == Some(date)
    ensures var r := BarsApplied(s, ps, date, now);
            && WellFormed(r, now) && r.snapshot.date == Some(date)
            && PlainMap(BarMap(r.bars)) == PlainMap(BarMap(s.bars)) + LastAccepted(ps, date, now)
  {
    if ps == [] {
      assert PlainMap(BarMap(s.bars)) + map[] == PlainMap(BarMap(s.bars));
    } else {
      var front, p := ps[..|ps| - 1], ps[|ps| - 1];
      OneByOneBars(s, front, date, now);
      var m := BarsApplied(s, front, date, now);
      BarStep(m, p, date, now);
      if Accepts(p, now) {
        BarStepMap(m, p, date, now);
        MergeSet(PlainMap(BarMap(s.bars)), LastAccepted(front, date, now), MinuteOf(p.ts.ms),
                 Plain(NormalizedBar(BarFromPayload(p).value)));
      }
    }
  }

  /** Reading the snapshot off the bars again forgets the earlier reading. */
  lemma Reread(s: Snapshot, a: seq<Bar>, b: seq<Bar>)
    requires a != [] && b != []
    ensures FromBars(FromBars(s, a), b) == FromBars(s, b)
  {
  }

  lemma {:induction false} OneByOneSnapshot(s: State, ps: seq<BarPayload>, date: int, now: int)
    requires WellFormed(s, now) && s.snapshot.date == Some(date)
    ensures var r := BarsApplied(s, ps, date, now);
            r.snapshot == if AcceptedOf(ps, now) == [] || r.bars == [] then s.snapshot
                          else FromBars(s.snapshot, r.bars)
  {
    if ps != [] {
      var front, p := ps[..|ps| - 1], ps[|ps| - 1];
      OneByOneBars(s, front, date, now);
      OneByOneSnapshot(s, front, date, now);
      var m := BarsApplied(s, front, date, now);
      BarStep(m, p, date, now);
      if m.bars != [] {
        BarsNeverEmptied(m, p, date, now);
        Reread(s.snapshot, m.bars, BarApplied(m, p, date, now).bars);
      }
    }
  }

  lemma {:induction false} LastAcceptedMinutes(ps: seq<BarPayload>, date: int, now: int)
    ensures forall k :: k in LastAccepted(ps, date, now) ==> LastAccepted(ps, date, now)[k].Minute() == k
  {
    if ps != [] {
      LastAcceptedMinutes(ps[..|ps| - 1], date, now);
    }
  }

  lemma OneByOnePlain(s: State, ps: seq<BarPayload>, date: int, now: int)
    requires WellFormed(s, now) && s.snapshot.date == Some(date)
    ensures PlainState(BarsApplied(s, ps, date, now)) == Batched(s, ps, date, now)
  {
    var r := BarsApplied(s, ps, date, now);
    OneByOneBars(s, ps, date, now);
    OneByOneSnapshot(s, ps, date, now);
    var target := PlainMap(BarMap(s.bars)) + LastAccepted(ps, date, now);
    PlainListShape(r.bars);
    LastAcceptedMinutes(ps, date, now);
    BarMapEntries(s.bars);
    forall k | k in target
      ensures target[k].Minute() == k
    {
    }
    ListedByMinute(target);
    OrderedUnique(PlainList(r.bars), InKeyOrder(target));
    if r.bars != [] {
      FromPlainBars(s.snapshot, r.bars);
    }
  }

  /** For each regular minute the last accepted bar, with its direction: against the price that
      overriding with the bars before it gives. */
  function LastDirected(s: State, ps: seq<BarPayload>, date: int, now: int): map<int, Bar> {
    if ps == [] then map[]
    else
      var rest, p := ps[..|ps| - 1], ps[|ps| - 1];
      var front := LastDirected(s, rest, date, now);
      if Accepts(p, now) && IsRegularMinute(MinuteOf(p.ts.ms), Some(date))
      then front[MinuteOf(p.ts.ms) := NormalizedBar(DirectedBar(Batched(s, rest, date, now).snapshot, p))]
      else front
  }

  lemma {:induction false} OneByOneDirected(s: State, ps: seq<BarPayload>, date: int, now: int)
    requires WellFormed(s, now) && s.snapshot.date == Some(date)
    ensures BarMap(BarsApplied(s, ps, date, now).bars) == BarMap(s.bars) + LastDirected(s, ps, date, now)
  {
    if ps == [] {
      assert BarMap(s.bars) + map[] == BarMap(s.bars);
    } else {
      var front, p := ps[..|ps| - 1], ps[|ps| - 1];
      OneByOneDirected(s, front, date, now);
      OneByOneBars(s, front, date, now);
      OneByOnePlain(s, front, date, now);
      var m := BarsApplied(s, front, date, now);
      BarStep(m, p, date, now);
      if Accepts(p, now) {
        assert m.snapshot == Batched(s, front, date, now).snapshot;
        UpsertedBar(m.bars, DirectedBar(m.snapshot, p), date);
        MergeSet(BarMap(s.bars), LastDirected(s, front, date, now), MinuteOf(p.ts.ms),
                 NormalizedBar(DirectedBar(m.snapshot, p)));
      }
    }
  }

  lemma {:induction false} LastDirectedMinutes(s: State, ps: seq<BarPayload>, date: int, now: int)
    ensures forall k :: k in LastDirected(s, ps, date, now) ==> LastDirected(s, ps, date, now)[k].Minute() == k
  {
    if ps != [] {
      LastDirectedMinutes(s, ps[..|ps| - 1], date, now);
    }
  }

  /** Applying confirmed bars one by one, recomputing after each, ends exactly where overriding
      the bar dictionary once and recomputing once does. The directions in that dictionary are
      the only part that depends on the order of arrival of different minutes. */
  lemma IncrementalIsBatch(s: State, ps: seq<BarPayload>, date: int, now: int)
    requires WellFormed(s, now) && s.snapshot.date == Some(date)
    ensures var r := BarsApplied(s, ps, date, now);
            && r == State(Batched(s, ps, date, now).snapshot,
                          InKeyOrder(BarMap(s.bars) + LastDirected(s, ps, date, now)))
            && PlainState(r) == Batched(s, ps, date, now)
  {
    var r := BarsApplied(s, ps, date, now);
    OneByOnePlain(s, ps, date, now);
    OneByOneBars(s, ps, date, now);
    OneByOneDirected(s, ps, date, now);
    LastDirectedMinutes(s, ps, date, now);
    BarMapEntries(s.bars);
    var target := BarMap(s.bars) + LastDirected(s, ps, date, now);
    ListedByMinute(target);
    OrderedUnique(r.bars, InKeyOrder(target));
  }

  /** The order of a backfill does not matter beyond the order within one minute. */
  lemma {:induction false} InsertedLastAccepted(ps: seq<BarPayload>, p: BarPayload, date: int, now: int)
    requires Accepts(p, now) && forall q :: q in ps ==> Accepts(q, now)
    ensures LastAccepted(Insert(EarlierPayload, ps, p), date, now) == LastAccepted(ps + [p], date, now)
  {
    if ps == [] || EarlierPayload(ps[|ps| - 1], p) {
    } else {
      var front, last := ps[..|ps| - 1], ps[|ps| - 1];
      assert last in ps;
      InsertedLastAccepted(front, p, date, now);
      var r := Insert(EarlierPayload, front, p);
      assert (r + [last])[..|r|] == r;
      assert (front + [p])[..|front|] == front && (ps + [p])[..|ps|] == ps;
      var m, kp, kl := LastAccepted(front, date, now), MinuteOf(p.ts.ms), MinuteOf(last.ts.ms);
      UpdatesCommute(m, kp, Plain(NormalizedBar(BarFromPayload(p).value)),
                     kl, Plain(NormalizedBar(BarFromPayload(last).value)));
    }
  }

  lemma {:induction false} SortedLastAccepted(ps: seq<BarPayload>, date: int, now: int)
    ensures LastAccepted(Sort(EarlierPayload, AcceptedOf(ps, now)), date, now) == LastAccepted(ps, date, now)
  {
    if ps != [] {
      var front, p := ps[..|ps| - 1], ps[|ps| - 1];
      SortedLastAccepted(front, date, now);
      if Accepts(p, now) {
        var before := AcceptedOf(front, now);
        assert AcceptedOf(ps, now) == before + [p];
        var sorted := Sort(EarlierPayload, before);
        AcceptedFrom(front, now);
        SortMembers(EarlierPayload, before);
        SortAppend(EarlierPayload, before, p);
        InsertedLastAccepted(sorted, p, date, now);
        assert (sorted + [p])[..|sorted|] == sorted;
      } else {
        assert AcceptedOf(ps, now) == AcceptedOf(front, now);
      }
    }
  }

  lemma {:induction false} AllAccepted(ps: seq<BarPayload>, now: int)
    requires forall p :: p in ps ==> Accepts(p, now)
    ensures AcceptedOf(ps, now) == ps
  {
    if ps != [] {
      AllAccepted(ps[..|ps| - 1], now);
    }
  }

  lemma BackfillIsBatchOfSorted(s: State, ps: seq<BarPayload>, date: int, now: int)
    requires WellFormed(s, now) && Taken(ps, now) != []
    ensures var rolled, sorted := RolledOver(s, date), Sort(EarlierPayload, Taken(ps, now));
            && AcceptedOf(sorted, now) == sorted != []
            && Backfilled(s, ps, date, now)
               == State(Batched(rolled, sorted, date, now).snapshot,
                        InKeyOrder(BarMap(rolled.bars) + LastDirected(rolled, sorted, date, now)))
            && PlainState(Backfilled(s, ps, date, now)) == Batched(rolled, sorted, date, now)
  {
    var sorted := Sort(EarlierPayload, Taken(ps, now));
    BackfillIsSortedBars(s, ps, date, now);
    AllAccepted(sorted, now);
    BarsAfterRollover(s, sorted, date, now);
    IncrementalIsBatch(RolledOver(s, date), sorted, date, now);
  }

  /** A backfill in any order is one override and one recompute of the session it belongs to,
      with directions taken in time order. Without an accepted bar, or with a timestamp that
      raises an error, it changes nothing, not even the session. */
  lemma BackfillIsBatch(s: State, ps: seq<BarPayload>, date: int, now: int)
    requires WellFormed(s, now)
    ensures var rolled, r := RolledOver(s, date), Backfilled(s, ps, date, now);
            var sorted := Sort(EarlierPayload, AcceptedOf(ps, now));
            && (AcceptedOf(ps, now) == [] || (exists p :: p in ps && Raises(p)) ==> r == s)
            && (AcceptedOf(ps, now) != [] && !(exists p :: p in ps && Raises(p)) ==>
                  && PlainState(r) == Batched(rolled, ps, date, now)
                  && r == State(Batched(rolled, ps, date, now).snapshot,
                                InKeyOrder(BarMap(rolled.bars) + LastDirected(rolled, sorted, date, now))))
  {
    BackfillIsSortedBars(s, ps, date, now);
    if Taken(ps, now) != [] {
      BackfillIsBatchOfSorted(s, ps, date, now);
      SortedLastAccepted(ps, date, now);
    }
  }

  // ---------- when a step reconciles ----------

  /** Pruning first changes nothing about a step that prunes. */
  lemma PruneFirst(s: State, date: int, now: int)
    requires Ordered(s.bars) && s.snapshot.date.Some? && OnDate(s.bars, s.snapshot.date.value)
    ensures var pruned := s.(bars := Pruned(BarStamp, s.bars, now));
            && WellFormed(pruned, now)
            && Pruned(BarStamp, pruned.bars, now) == pruned.bars
  {
    PrunedOneDay(s.bars, s.snapshot.date.value, now);
    PrunedOneDay(Pruned(BarStamp, s.bars, now), s.snapshot.date.value, now);
  }

  predicate IsRegularBar(p: BarPayload, date: int) {
    p.ts.At? && IsRegularMinute(MinuteOf(p.ts.ms), Some(date))
  }

  /** The step prunes the bars, and nothing in it makes up for what it prunes: it opens no
      session, carries no full-tick seed, and recomputes nothing. */
  ghost predicate Exposed(l: Ledger, s: State, step: Step) {
    var same, kept := s.snapshot.date == Some(step.date), Pruned(BarStamp, s.bars, step.now);
    && l.SinceBars?
    && match step.event
       case TickEvent(tick) => same && !tick.fullTickSeed
       case BarEvent(p) => same && !(Accepts(p, step.now) && (kept != [] || IsRegularBar(p, step.date)))
       case BackfillEvent(ps) =>
         || Taken(ps, step.now) == []
         || (same && kept == [] && forall p :: p in Taken(ps, step.now) ==> !IsRegularBar(p, step.date))
       case QueueEvent => false
       case BookEvent => false
  }

  ghost predicate PrunesNothing(bars: seq<Bar>, now: int) {
    var kept := Pruned(BarStamp, bars, now);
    BarsVolume(kept) == BarsVolume(bars) && BarsTurnover(kept) == BarsTurnover(bars)
  }

  lemma FreshSession(s: State, date: int, now: int)
    requires s.snapshot.date != Some(date)
    ensures Sound(RolledOver(s, date), SETTLED, now) && RolledOver(s, date).snapshot.date == Some(date)
  {
  }

  lemma TickStepExactly(s: State, l: Ledger, tick: TickInput, date: int, now: int)
    requires Ordered(s.bars) && s.snapshot.date.Some? && OnDate(s.bars, s.snapshot.date.value) && Reconciles(s, l)
    ensures var step := Step(TickEvent(tick), date, now);
            Reconciles(Applied(s, step), Booked(l, s, step)) <==> !Exposed(l, s, step) || PrunesNothing(s.bars, now)
  {
    if s.snapshot.date == Some(date) {
      if l.SinceBars? && !tick.fullTickSeed {
        TickReconcilesExactly(s, l, tick, date, now);
      }
    } else if UpdatesChart(tick, date) {
      UpsertConserves([], Directed(TickBase(s, tick, date, now).snapshot, tick), date);
    }
  }

  lemma EmptyMap(bars: seq<Bar>)
    requires Ordered(bars)
    ensures bars == [] <==> BarMap(bars) == map[]
  {
    BarMapSize(bars);
  }

  /** Confirmed bars leave the list empty exactly when it was and none of them is a regular one. */
  lemma {:induction false} BarsLeaveEmpty(s: State, ps: seq<BarPayload>, date: int, now: int)
    requires WellFormed(s, now) && s.snapshot.date == Some(date) && forall p :: p in ps ==> Accepts(p, now)
    ensures BarsApplied(s, ps, date, now).bars == [] <==> s.bars == [] && forall p :: p in ps ==> !IsRegularBar(p, date)
  {
    OneByOneDirected(s, ps, date, now);
    OneByOneBars(s, ps, date, now);
    EmptyMap(BarsApplied(s, ps, date, now).bars);
    EmptyMap(s.bars);
    DirectedMinutes(s, ps, date, now);
    EmptyUnion(BarMap(s.bars), LastDirected(s, ps, date, now));
  }

  lemma EmptyUnion<V>(m: map<int, V>, n: map<int, V>)
    ensures m + n == map[] <==> m == map[] && n == map[]
  {
    if m + n == map[] {
      assert m.Keys <= (m + n).Keys && n.Keys <= (m + n).Keys;
    }
  }

  /** What confirmed bars of the running session leave of the ledger. */
  lemma {:induction false} BarsLeave(s: State, ps: seq<BarPayload>, date: int, now: int)
    requires WellFormed(s, now) && s.snapshot.date == Some(date) && AcceptedOf(ps, now) != []
    ensures var r := BarsApplied(s, ps, date, now);
            if r.bars == [] then r.snapshot == s.snapshot else Reconciles(r, SETTLED)
  {
    var r := BarsApplied(s, ps, date, now);
    OneByOneSnapshot(s, ps, date, now);
    if r.bars != [] {
      ReadOffBars(s.snapshot, r.bars);
    }
  }

  lemma {:induction false} DirectedMinutes(s: State, ps: seq<BarPayload>, date: int, now: int)
    requires forall p :: p in ps ==> Accepts(p, now)
    ensures LastDirected(s, ps, date, now) == map[] <==> forall p :: p in ps ==> !IsRegularBar(p, date)
  {
    if ps != [] {
      var front, p := ps[..|ps| - 1], ps[|ps| - 1];
      DirectedMinutes(s, front, date, now);
      assert ps == front + [p];
      assert p in ps;
      if IsRegularBar(p, date) {
        assert MinuteOf(p.ts.ms) in LastDirected(s, ps, date, now);
      }
    }
  }

  /** A confirmed bar on its own: what it leaves of bars and ledger. */
  lemma OneBarLeaves(s: State, p: BarPayload, date: int, now: int)
    requires WellFormed(s, now) && s.snapshot.date == Some(date) && Accepts(p, now)
    ensures var r := BarApplied(s, p, date, now);
            && (r.bars == [] <==> s.bars == [] && !IsRegularBar(p, date))
            && (if r.bars == [] then r.snapshot == s.snapshot else Reconciles(r, SETTLED))
  {
    assert [p][..0] == [];
    assert BarsApplied(s, [], date, now) == s;
    assert AcceptedOf([p], now) == AcceptedOf([], now) + [p];
    BarsLeaveEmpty(s, [p], date, now);
    BarsLeave(s, [p], date, now);
    assert p in [p];
  }

  lemma {:induction false} BarStepExactly(s: State, l: Ledger, p: BarPayload, date: int, now: int)
    requires Ordered(s.bars) && s.snapshot.date.Some? && OnDate(s.bars, s.snapshot.date.value) && Reconciles(s, l)
    ensures var step := Step(BarEvent(p), date, now);
            Reconciles(Applied(s, step), Booked(l, s, step)) <==> !Exposed(l, s, step) || PrunesNothing(s.bars, now)
  {
    if s.snapshot.date == Some(date) {
      var pruned := s.(bars := Pruned(BarStamp, s.bars, now));
      PruneFirst(s, date, now);
      assert BarApplied(s, p, date, now) == BarApplied(pruned, p, date, now);
      if Accepts(p, now) {
        OneBarLeaves(pruned, p, date, now);
      } else {
        BarStep(pruned, p, date, now);
      }
    } else {
      FreshSession(s, date, now);
      BarAfterRollover(s, p, date, now);
      SameSessionBarIsSound(RolledOver(s, date), SETTLED, p, date, now);
    }
  }

  lemma BackfillStepExactly(s: State, l: Ledger, ps: seq<BarPayload>, date: int, now: int)
    requires Ordered(s.bars) && s.snapshot.date.Some? && OnDate(s.bars, s.snapshot.date.value) && Reconciles(s, l)
    ensures var step := Step(BackfillEvent(ps), date, now);
            Reconciles(Applied(s, step), Booked(l, s, step)) <==> !Exposed(l, s, step) || PrunesNothing(s.bars, now)
  {
    var pruned := s.(bars := Pruned(BarStamp, s.bars, now));
    var taken := Taken(ps, now);
    PruneFirst(s, date, now);
    BackfillIsSortedBars(pruned, ps, date, now);
    if taken != [] {
      var sorted := Sort(EarlierPayload, taken);
      SortMembers(EarlierPayload, taken);
      AllAccepted(sorted, now);
      if s.snapshot.date == Some(date) {
        BarsLeaveEmpty(pruned, sorted, date, now);
        BarsLeave(pruned, sorted, date, now);
      } else {
        FreshSession(pruned, date, now);
        BarsAfterRollover(pruned, sorted, date, now);
        BarsAreSound(RolledOver(pruned, date), SETTLED, sorted, date, now);
      }
    }
  }

  /** From any ordered one-day state that reconciles, whatever lies after the clock, a step
      reconciles exactly when it opens a session, is a seed or recomputes from bars, or else
      the bars that it prunes hold no volume and no turnover. */
  lemma StepReconcilesExactly(s: State, l: Ledger, step: Step)
    requires Ordered(s.bars) && s.snapshot.date.Some? && OnDate(s.bars, s.snapshot.date.value) && Reconciles(s, l)
    ensures Reconciles(Applied(s, step), Booked(l, s, step))
            <==> !Exposed(l, s, step) || PrunesNothing(s.bars, step.now)
  {
    match step.event {
      case TickEvent(tick) => TickStepExactly(s, l, tick, step.date, step.now);
      case BarEvent(p) => BarStepExactly(s, l, p, step.date, step.now);
      case BackfillEvent(ps) => BackfillStepExactly(s, l, ps, step.date, step.now);
      case QueueEvent =>
      case BookEvent =>
    }
  }

  /** A rejected confirmed bar prunes too: bars ahead of the clock then leave their volume in
      the snapshot alone. */
  lemma RejectedBarCanBreak(s: State, p: BarPayload, date: int, now: int)
    requires Ordered(s.bars) && OnDate(s.bars, date) && s.snapshot.date == Some(date) && Reconciles(s, SETTLED)
    requires (forall b :: b in s.bars ==> b.Minute() > MinuteOf(now)) && BarsVolume(s.bars) != 0
    requires !Accepts(p, now)
    ensures !Reconciles(BarApplied(s, p, date, now), Booked(SETTLED, s, Step(BarEvent(p), date, now)))
  {
    AllAheadPruned(s.bars, date, now);
    BarStepExactly(s, SETTLED, p, date, now);
  }

  // ---------- two ways into a session ----------

  /** The first bar of a session, up to its direction. */
  lemma FirstBar(x: Tick, y: Tick, date: int)
    requires x == y.(direction := x.direction) && IsRegularMinute(MinuteOf(x.ts), Some(date))
    ensures PlainList(Upserted([], x, Some(date))) == PlainList(Upserted([], y, Some(date)))
  {
    SortIdentity(EarlierBar, [OpenBar(x)]);
    SortIdentity(EarlierBar, [OpenBar(y)]);
    PlainListShape([OpenBar(x)]);
    PlainListShape([OpenBar(y)]);
  }

  lemma {:induction false} BarsOfFirstTick(s: State, tick: TickInput, date: int, now: int)
    requires s.snapshot.date != Some(date)
    ensures PlainList(TickApplied(RolledOver(s, date), tick, date, now).bars)
            == PlainList(TickApplied(s, tick, date, now).bars)
  {
    var rolled := RolledOver(s, date);
    assert TickBase(rolled, tick, date, now).bars == [] == TickBase(s, tick, date, now).bars;
    if UpdatesChart(tick, date) {
      FirstBar(Directed(rolled.snapshot, tick), Directed(s.snapshot, tick), date);
    }
  }

  /** A session that a queue or book event opened and one that its first tick opens agree on
      price, previous close, change, totals and bars (directions aside). They differ in the
      open, and with it in high and low: the first starts from the reference price. */
  lemma {:induction false} RolloverBeforeTick(s: State, tick: TickInput, date: int, now: int)
    requires s.snapshot.date != Some(date)
    ensures var direct, late := TickApplied(s, tick, date, now), TickApplied(RolledOver(s, date), tick, date, now);
            && late.snapshot.(open := 0.0, high := 0.0, low := 0.0)
               == direct.snapshot.(open := 0.0, high := 0.0, low := 0.0)
            && PlainList(late.bars) == PlainList(direct.bars)
            && direct.snapshot.open == tick.price && late.snapshot.open == ReferencePrice(s.snapshot)
  {
    BarsOfFirstTick(s, tick, date, now);
  }

  // ---------- a session built from ticks alone ----------

  /** Ordinary (not full-tick) ticks of one date with positive prices. */
  ghost predicate TicksOf(steps: seq<Step>, date: int) {
    forall i {:trigger steps[i]} :: 0 <= i < |steps| ==>
      && steps[i].date == date && steps[i].event.TickEvent?
      && !steps[i].event.tick.fullTickSeed && steps[i].event.tick.price > 0.0
  }

  /** The ticks with their direction relative to the price before each. */
  function DirectedTicks(price: real, steps: seq<Step>): (r: seq<Tick>)
    requires forall i :: 0 <= i < |steps| ==> steps[i].event.TickEvent?
    ensures |r| == |steps|
  {
    if steps == [] then []
    else
      var front, t := DirectedTicks(price, steps[..|steps| - 1]), steps[|steps| - 1].event.tick;
      var before := if front == [] then price else front[|front| - 1].price;
      front + [Tick(t.ts, t.price, t.volume, t.turnover, DirectionFrom(before, t.price))]
  }

  /** The snapshot is the open/high/low/last/volume aggregate of all these ticks. */
  ghost predicate SnapshotAggregates(s: Snapshot, ticks: seq<Tick>) {
    && ticks != []
    && s.open == ticks[0].price && s.price == ticks[|ticks| - 1].price
    && (forall t :: t in ticks ==> 0.0 < s.low <= t.price <= s.high)
    && (exists t :: t in ticks && t.price == s.high)
    && (exists t :: t in ticks && t.price == s.low)
    && s.volume == TickVolume(ticks) && s.turnover == TickTurnover(ticks)
  }

  lemma SnapshotAggregatesStep(s: Snapshot, ticks: seq<Tick>, t: Tick, s': Snapshot)
    requires SnapshotAggregates(s, ticks) && t.price > 0.0
    requires s'.open == s.open && s'.price == t.price
    requires s'.high == Max(s.high, t.price) && s'.low == Min(s.low, t.price)
    requires s'.volume == s.volume + t.volume && s'.turnover == s.turnover + t.turnover
    ensures SnapshotAggregates(s', ticks + [t])
  {
    var all := ticks + [t];
    assert all[..|ticks|] == ticks;
    var h :| h in ticks && h.price == s.high;
    var l :| l in ticks && l.price == s.low;
    assert h in all && l in all && t in all;
    assert exists u :: u in all && u.price == s'.high;
    assert exists u :: u in all && u.price == s'.low;
  }

  /** A tick in the session it belongs to. */
  lemma SameSessionTick(s: State, tick: TickInput, date: int, now: int)
    requires WellFormed(s, now) && s.snapshot.date == Some(date) && MinuteOf(tick.ts) <= MinuteOf(now)
    requires !tick.fullTickSeed
    ensures var r := TickApplied(s, tick, date, now);
            && r.bars == Upserted(s.bars, Directed(s.snapshot, tick), Some(date))
            && r.snapshot.date == Some(date)
  {
    PrunedOneDay(s.bars, date, now);
    OneDayFitsCap(s.bars, date);
  }

  /** The first tick of a new session opens it. */
  lemma FirstTick(s: State, tick: TickInput, date: int, now: int)
    requires s.snapshot.date != Some(date) && !tick.fullTickSeed && tick.price > 0.0
    ensures var r, t := TickApplied(s, tick, date, now), Directed(s.snapshot, tick);
            && r.bars == FoldTicks([t], Some(date))
            && SnapshotAggregates(r.snapshot, [t])
            && r.snapshot.date == Some(date) && r.snapshot.previousClose == ReferencePrice(s.snapshot)
  {
    var t := Directed(s.snapshot, tick);
    assert [t][..0] == [];
    assert t in [t];
    assert TickVolume([t]) == TickVolume([]) + t.volume;
    assert TickTurnover([t]) == TickTurnover([]) + t.turnover;
    assert FoldTicks([t], Some(date)) == Upserted([], t, Some(date));
  }

  lemma {:induction false} TickDayRun(s: State, start: int, steps: seq<Step>, date: int)
    requires WellFormed(s, start) && s.snapshot.date != Some(date)
    requires steps != [] && OnTime(start, steps) && TicksOf(steps, date)
    ensures var r, ticks := Run(s, steps), DirectedTicks(s.snapshot.price, steps);
            && WellFormed(r, ClockAfter(start, steps)) && r.snapshot.date == Some(date)
            && r.snapshot.previousClose == ReferencePrice(s.snapshot)
            && r.bars == FoldTicks(ticks, Some(date))
            && SnapshotAggregates(r.snapshot, ticks)
  {
    var n := |steps| - 1;
    var front, step := steps[..n], steps[n];
    var tick := step.event.tick;
    if n == 0 {
      assert Run(s, front) == s;
      LaterClock(s, start, step.now);
      TickBars(s, tick, date, step.now);
      FirstTick(s, tick, date, step.now);
      assert DirectedTicks(s.snapshot.price, steps) == [Directed(s.snapshot, tick)];
    } else {
      TickDayRun(s, start, front, date);
      var m, before := Run(s, front), DirectedTicks(s.snapshot.price, front);
      var t := Directed(m.snapshot, tick);
      LaterClock(m, ClockAfter(start, front), step.now);
      TickBars(m, tick, date, step.now);
      SameSessionTick(m, tick, date, step.now);
      assert DirectedTicks(s.snapshot.price, steps) == before + [t];
      assert (before + [t])[..n] == before;
      assert before[0] in before;
      SnapshotAggregatesStep(m.snapshot, before, t, TickApplied(m, tick, date, step.now).snapshot);
    }
  }

  /** A new session fed by ticks alone: the snapshot is the aggregate of all its ticks, the
      bars are the group-by of the charted ones, and the previous close is the price that the
      session before left for it. */
  lemma TickDayIsGroupBy(s: State, start: int, steps: seq<Step>, date: int)
    requires WellFormed(s, start) && s.snapshot.date != Some(date)
    requires steps != [] && OnTime(start, steps) && TicksOf(steps, date)
    ensures var r, ticks := Run(s, steps), DirectedTicks(s.snapshot.price, steps);
            && SnapshotAggregates(r.snapshot, ticks)
            && IsGroupBy(r.bars, ticks, Some(date))
            && r.snapshot.previousClose == ReferencePrice(s.snapshot)
  {
    TickDayRun(s, start, steps, date);
    FoldOfOneDayIsGroupBy(DirectedTicks(s.snapshot.price, steps), date);
  }
}
