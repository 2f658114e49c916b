/** Sessions that start from a table with several rows for one minute (pipeline.py). Such bar
    lists are in time order but not strictly, and may fill the cap before the session is over:
    then a tick in a new minute drops the oldest bar. The reconciliation law holds for every
    run exactly when the extra rows leave the cap room for a whole session. */
module RepeatedMinutes {
  import opened Sequences
  import opened TradingSession
  import opened MinuteBars
  import opened MarketState
  import opened SessionLaws

  /** How many extra rows fit beside a bar for every minute of a session. */
  const SPARE := BAR_CAP - MINUTES_PER_SESSION

  function MinuteSet(bars: seq<Bar>): set<int> {
    set b | b in bars :: b.Minute()
  }

  /** Bars of one date in time order, as many as the cap allows. */
  ghost predicate Crowded(bars: seq<Bar>, date: int) {
    SortedBy(EarlierBar, bars) && OnDate(bars, date) && |bars| <= BAR_CAP
  }

  /** At most 89 more bars than minutes. */
  predicate Roomy(bars: seq<Bar>) {
    |bars| <= |MinuteSet(bars)| + SPARE
  }

  ghost predicate CrowdedState(s: State, now: int) {
    s.snapshot.date.Some? && Crowded(s.bars, s.snapshot.date.value) && AllPast(s.bars, now)
  }

  ghost predicate CrowdedSound(s: State, l: Ledger, now: int) {
    CrowdedState(s, now) && Reconciles(s, l) && ChangeConsistent(s.snapshot)
  }

  // ---------- bar lists ----------

  lemma MinutesAreRegular(bars: seq<Bar>, date: int)
    requires OnDate(bars, date)
    ensures forall m :: m in MinuteSet(bars) ==> IsRegularMinute(m, Some(date))
    ensures |MinuteSet(bars)| <= MINUTES_PER_SESSION
  {
    forall m | m in MinuteSet(bars)
      ensures IsRegularMinute(m, Some(date))
    {
      var b :| b in bars && b.Minute() == m;
      var i :| 0 <= i < |bars| && bars[i] == b;
    }
    MinutesFitSession(MinuteSet(bars), date);
  }

  /** The cap never bites on a roomy list. */
  lemma RoomyFitsCap(bars: seq<Bar>, date: int)
    requires OnDate(bars, date) && Roomy(bars)
    ensures |bars| <= BAR_CAP
  {
    MinutesAreRegular(bars, date);
  }

  lemma CrowdedPruned(bars: seq<Bar>, date: int, now: int)
    requires Crowded(bars, date) && AllPast(bars, now)
    ensures Pruned(BarStamp, bars, now) == bars && Sort(EarlierBar, bars) == bars
  {
    KeepPastIdentity(BarStamp, bars, now);
    SortIdentity(EarlierBar, bars);
  }

  lemma SameMinuteSet(bars: seq<Bar>, r: seq<Bar>)
    requires |r| == |bars| && forall i :: 0 <= i < |bars| ==> r[i].Minute() == bars[i].Minute()
    ensures MinuteSet(bars) <= MinuteSet(r)
  {
    forall m | m in MinuteSet(bars)
      ensures m in MinuteSet(r)
    {
      var b :| b in bars && b.Minute() == m;
      var i :| 0 <= i < |bars| && bars[i] == b;
      assert r[i] in r;
    }
  }

  /** Changing bars within their minutes keeps the list in order. */
  lemma {:induction false} SameMinutes(bars: seq<Bar>, r: seq<Bar>, date: int)
    requires Crowded(bars, date) && |r| == |bars| && forall i :: 0 <= i < |bars| ==> r[i].Minute() == bars[i].Minute()
    ensures Crowded(r, date) && MinuteSet(r) == MinuteSet(bars) && LastN(Sort(EarlierBar, r), BAR_CAP) == r
  {
    SameMinuteSet(bars, r);
    SameMinuteSet(r, bars);
    SameOrder(bars, r, date);
    SortIdentity(EarlierBar, r);
  }

  lemma {:induction false} SameOrder(bars: seq<Bar>, r: seq<Bar>, date: int)
    requires Crowded(bars, date) && |r| == |bars| && forall i :: 0 <= i < |bars| ==> r[i].Minute() == bars[i].Minute()
    ensures Crowded(r, date)
  {
    forall i, j | 0 <= i < j < |r|
      ensures EarlierBar(r[i], r[j])
    {
      assert EarlierBar(bars[i], bars[j]);
    }
    forall i | 0 <= i < |r|
      ensures IsRegularMinute(r[i].Minute(), Some(date))
    {
      assert IsRegularMinute(bars[i].Minute(), Some(date));
    }
  }

  lemma InsertedMinutes(bars: seq<Bar>, x: Bar)
    ensures var r := Insert(EarlierBar, bars, x);
            |r| == |bars| + 1 && MinuteSet(r) == MinuteSet(bars) + {x.Minute()}
  {
    InsertMembers(bars, x);
    InsertMultiset(EarlierBar, bars, x);
    var r := Insert(EarlierBar, bars, x);
    assert |r| == |multiset(r)| == |bars| + 1;
  }

  /** A bar for a new minute, before the cap. */
  lemma {:induction false} NewMinute(bars: seq<Bar>, x: Bar, date: int)
    requires Crowded(bars, date) && x.Minute() !in MinuteSet(bars) && IsRegularMinute(x.Minute(), Some(date))
    ensures var r := Sort(EarlierBar, bars + [x]);
            && r == Insert(EarlierBar, bars, x)
            && SortedBy(EarlierBar, r) && OnDate(r, date) && |r| == |bars| + 1
            && |MinuteSet(r)| == |MinuteSet(bars)| + 1
            && (forall b :: b in r <==> b in bars || b == x)
  {
    SortAppend(EarlierBar, bars, x);
    SortIdentity(EarlierBar, bars);
    InsertSorted(EarlierBar, bars, x);
    InsertedMinutes(bars, x);
    InsertMembers(bars, x);
    StaysOnDate(bars, x, Insert(EarlierBar, bars, x), date);
  }

  /** What the cap leaves of a list in order. */
  lemma Capped(all: seq<Bar>, date: int)
    requires SortedBy(EarlierBar, all) && OnDate(all, date)
    ensures var r := LastN(all, BAR_CAP);
            && Crowded(r, date) && (forall b :: b in r ==> b in all)
            && (Roomy(all) ==> r == all)
  {
    if Roomy(all) {
      RoomyFitsCap(all, date);
    }
  }

  lemma BarAt(bars: seq<Bar>, minute: int)
    ensures FirstAt(bars, minute).Some? <==> minute in MinuteSet(bars)
  {
    var at := FirstAt(bars, minute);
    if at.Some? {
      assert bars[at.value] in bars;
    }
  }

  lemma {:induction false} DropFirst(bars: seq<Bar>)
    requires bars != []
    ensures BarsVolume(bars) == bars[0].volume + BarsVolume(bars[1..])
    ensures BarsTurnover(bars) == bars[0].turnover + BarsTurnover(bars[1..])
  {
    var n := |bars| - 1;
    if n > 0 {
      DropFirst(bars[..n]);
      assert bars[..n][1..] == bars[1..][..n - 1];
    }
  }

  lemma {:induction false} InsertFirst(bars: seq<Bar>, x: Bar)
    requires bars != [] && SortedBy(EarlierBar, bars)
    ensures var r := Insert(EarlierBar, bars, x);
            r != [] && r[0] == if x.Minute() < bars[0].Minute() then x else bars[0]
  {
    var n := |bars| - 1;
    if !EarlierBar(bars[n], x) && n > 0 {
      InsertFirst(bars[..n], x);
    } else if n > 0 {
      assert EarlierBar(bars[0], bars[n]);
    }
  }

  // ---------- a charted tick ----------

  /** The list is full and has no bar for the minute yet. */
  predicate IsFullAt(bars: seq<Bar>, minute: int) {
    |bars| == BAR_CAP && FirstAt(bars, minute).None?
  }

  /** The earliest of the bars and a new one: what the cap drops. */
  function Earliest(bars: seq<Bar>, x: Bar): Bar {
    if bars == [] || x.Minute() < bars[0].Minute() then x else bars[0]
  }

  lemma {:induction false} NewBarTotals(bars: seq<Bar>, x: Bar, date: int)
    requires Crowded(bars, date) && x.Minute() !in MinuteSet(bars) && IsRegularMinute(x.Minute(), Some(date))
    ensures var r, full := LastN(Sort(EarlierBar, bars + [x]), BAR_CAP), |bars| == BAR_CAP;
            && |r| == (if full then |bars| else |bars| + 1)
            && BarsVolume(r) == BarsVolume(bars) + x.volume - (if full then Earliest(bars, x).volume else 0)
            && BarsTurnover(r) == BarsTurnover(bars) + x.turnover - (if full then Earliest(bars, x).turnover else 0.0)
  {
    var all := Insert(EarlierBar, bars, x);
    NewMinute(bars, x, date);
    VolumeOfInsert(bars, x);
    if |bars| == BAR_CAP {
      InsertFirst(bars, x);
      DropFirst(all);
      assert LastN(all, BAR_CAP) == all[1..];
    }
  }

  /** A tick keeps the list crowded, and a roomy list roomy. */
  lemma {:induction false} TickKeeps(bars: seq<Bar>, tick: Tick, date: int)
    requires Crowded(bars, date) && IsRegularMinute(MinuteOf(tick.ts), Some(date))
    ensures var r := Upserted(bars, tick, Some(date));
            && Crowded(r, date) && (Roomy(bars) ==> Roomy(r))
            && (forall b :: b in r ==> b in bars || b.Minute() == MinuteOf(tick.ts))
  {
    var at := FirstAt(bars, MinuteOf(tick.ts));
    if at.Some? {
      SameMinutes(bars, bars[at.value := MergeTick(bars[at.value], tick)], date);
    } else {
      var x := OpenBar(tick);
      BarAt(bars, x.Minute());
      NewMinute(bars, x, date);
      Capped(Sort(EarlierBar, bars + [x]), date);
    }
  }

  /** A charted tick adds exactly its volume and turnover, less those of a bar that the cap drops. */
  lemma {:induction false} TickTotals(bars: seq<Bar>, tick: Tick, date: int)
    requires Crowded(bars, date) && IsRegularMinute(MinuteOf(tick.ts), Some(date))
    ensures var r, drops := Upserted(bars, tick, Some(date)), IsFullAt(bars, MinuteOf(tick.ts));
            var dropped := Earliest(bars, OpenBar(tick));
            && BarsVolume(r) == BarsVolume(bars) + tick.volume - (if drops then dropped.volume else 0)
            && BarsTurnover(r) == BarsTurnover(bars) + tick.turnover - (if drops then dropped.turnover else 0.0)
  {
    var at := FirstAt(bars, MinuteOf(tick.ts));
    if at.Some? {
      var x := MergeTick(bars[at.value], tick);
      SameMinutes(bars, bars[at.value := x], date);
      VolumeOfUpdate(bars, at.value, x);
    } else {
      var x := OpenBar(tick);
      BarAt(bars, x.Minute());
      NewBarTotals(bars, x, date);
    }
  }

  lemma {:induction false} CrowdedTick(s: State, tick: TickInput, date: int, now: int)
    requires CrowdedState(s, now)
    ensures var r, base := TickApplied(s, tick, date, now), TickBase(s, tick, date, now);
            && Crowded(base.bars, date) && (s.snapshot.date == Some(date) ==> base.bars == s.bars)
            && r.snapshot.date == Some(date) && Crowded(r.bars, date)
            && (Roomy(s.bars) ==> Roomy(r.bars))
            && (MinuteOf(tick.ts) <= MinuteOf(now) ==> AllPast(r.bars, now))
  {
    var base := TickBase(s, tick, date, now);
    CrowdedPruned(s.bars, s.snapshot.date.value, now);
    assert AllPast(base.bars, now);
    if UpdatesChart(tick, date) {
      var directed := Directed(base.snapshot, tick);
      TickKeeps(base.bars, directed, date);
      if MinuteOf(tick.ts) <= MinuteOf(now) {
        AllPastFrom(Upserted(base.bars, directed, Some(date)), base.bars, MinuteOf(tick.ts), now);
      }
    }
  }

  // ---------- confirmed bars ----------

  /** A confirmed bar replaces every bar of its minute, or is added. */
  lemma {:induction false} ConfirmedKeeps(bars: seq<Bar>, bar: Bar, date: int)
    requires Crowded(bars, date)
    ensures var r := UpsertedConfirmed(bars, bar, Some(date));
            && Crowded(r, date) && |r| >= |bars| && (Roomy(bars) ==> Roomy(r))
            && (forall b :: b in r ==> b in bars || b.Minute() == MinuteOf(bar.ts))
  {
    if IsRegularMinute(MinuteOf(bar.ts), Some(date)) {
      var x := NormalizedBar(bar);
      assert x.Minute() == MinuteOf(bar.ts);
      var replaced := ReplaceAt(bars, x.Minute(), x);
      if FirstAt(bars, x.Minute()).Some? {
        SameMinutes(bars, replaced, date);
      } else {
        assert replaced == bars;
        BarAt(bars, x.Minute());
        NewMinute(bars, x, date);
        Capped(Sort(EarlierBar, bars + [x]), date);
      }
    }
  }

  lemma CrowdedRollover(s: State, l: Ledger, date: int, now: int)
    requires CrowdedSound(s, l, now)
    ensures var r := RolledOver(s, date);
            && CrowdedSound(r, if s.snapshot.date == Some(date) then l else SETTLED, now)
            && (Roomy(s.bars) ==> Roomy(r.bars))
  {
  }

  lemma {:induction false} CrowdedBar(s: State, l: Ledger, p: BarPayload, date: int, now: int)
    requires CrowdedSound(s, l, now) && s.snapshot.date == Some(date)
    ensures var r := BarApplied(s, p, date, now);
            && CrowdedSound(r, BarBooked(l, r, Accepts(p, now)), now) && r.snapshot.date == Some(date)
            && (s.bars != [] ==> r.bars != []) && (Roomy(s.bars) ==> Roomy(r.bars))
  {
    CrowdedPruned(s.bars, date, now);
    if Accepts(p, now) {
      var bar := DirectedBar(s.snapshot, p);
      var bars := UpsertedConfirmed(s.bars, bar, Some(date));
      ConfirmedKeeps(s.bars, bar, date);
      AllPastFrom(bars, s.bars, MinuteOf(bar.ts), now);
      CrowdedPruned(bars, date, now);
      if bars != [] {
        ReadOffBars(s.snapshot, bars);
      }
    }
  }

  lemma {:induction false} CrowdedBarStep(s: State, l: Ledger, p: BarPayload, date: int, now: int)
    requires CrowdedSound(s, l, now)
    ensures var r := BarApplied(s, p, date, now);
            && CrowdedSound(r, Booked(l, s, Step(BarEvent(p), date, now)), now)
            && (Roomy(s.bars) ==> Roomy(r.bars))
  {
    var entered := if s.snapshot.date == Some(date) then l else SETTLED;
    CrowdedRollover(s, l, date, now);
    BarAfterRollover(s, p, date, now);
    CrowdedBar(RolledOver(s, date), entered, p, date, now);
    assert Booked(l, s, Step(BarEvent(p), date, now))
        == BarBooked(entered, BarApplied(s, p, date, now), Accepts(p, now));
  }

  lemma {:induction false} CrowdedBars(s: State, l: Ledger, ps: seq<BarPayload>, date: int, now: int)
    requires CrowdedSound(s, l, now) && s.snapshot.date == Some(date)
    requires ps != [] && forall p :: p in ps ==> Accepts(p, now)
    ensures var r := BarsApplied(s, ps, date, now);
            && CrowdedSound(r, BarBooked(l, r, true), now) && r.snapshot.date == Some(date)
            && (Roomy(s.bars) ==> Roomy(r.bars))
  {
    var front, p := ps[..|ps| - 1], ps[|ps| - 1];
    if front == [] {
      CrowdedBar(s, l, p, date, now);
    } else {
      CrowdedBars(s, l, front, date, now);
      var m := BarsApplied(s, front, date, now);
      CrowdedBar(m, BarBooked(l, m, true), p, date, now);
    }
  }

  lemma {:induction false} CrowdedBackfillIsSortedBars(s: State, ps: seq<BarPayload>, date: int, now: int)
    requires CrowdedState(s, now)
    ensures var sorted := Sort(EarlierPayload, Taken(ps, now));
            && Backfilled(s, ps, date, now) == BarsApplied(s, sorted, date, now)
            && (Taken(ps, now) == [] <==> sorted == [])
            && (forall p :: p in sorted ==> Accepts(p, now))
  {
    CrowdedPruned(s.bars, s.snapshot.date.value, now);
    assert s.(bars := s.bars) == s;
    AcceptedFrom(ps, now);
    SortMembers(EarlierPayload, Taken(ps, now));
  }

  lemma {:induction false} CrowdedSortedBars(s: State, l: Ledger, sorted: seq<BarPayload>, date: int, now: int)
    requires CrowdedSound(s, l, now) && sorted != [] && forall p :: p in sorted ==> Accepts(p, now)
    ensures var r := BarsApplied(s, sorted, date, now);
            && CrowdedSound(r, BarBooked(if s.snapshot.date == Some(date) then l else SETTLED, r, true), now)
            && (Roomy(s.bars) ==> Roomy(r.bars))
  {
    CrowdedRollover(s, l, date, now);
    BarsAfterRollover(s, sorted, date, now);
    CrowdedBars(RolledOver(s, date), if s.snapshot.date == Some(date) then l else SETTLED, sorted, date, now);
  }

  lemma {:induction false} CrowdedBackfill(s: State, l: Ledger, ps: seq<BarPayload>, date: int, now: int)
    requires CrowdedSound(s, l, now)
    ensures var r := Backfilled(s, ps, date, now);
            && CrowdedSound(r, Booked(l, s, Step(BackfillEvent(ps), date, now)), now)
            && (Roomy(s.bars) ==> Roomy(r.bars))
  {
    CrowdedBackfillIsSortedBars(s, ps, date, now);
    if Taken(ps, now) != [] {
      CrowdedSortedBars(s, l, Sort(EarlierPayload, Taken(ps, now)), date, now);
    }
  }

  // ---------- when a step reconciles ----------

  /** The step charts an ordinary tick of the running session in a new minute of a full list. */
  predicate Overflows(l: Ledger, s: State, step: Step) {
    && l.SinceBars? && s.snapshot.date == Some(step.date) && step.event.TickEvent?
    && UpdatesChart(step.event.tick, step.date)
    && IsFullAt(s.bars, MinuteOf(step.event.tick.ts))
  }

  /** The bar that such a step drops: the oldest one, or the tick's own if it is older. */
  function DroppedBy(s: State, tick: TickInput): Bar {
    Earliest(s.bars, OpenBar(Directed(s.snapshot, tick)))
  }

  predicate HoldsNothing(bar: Bar) {
    bar.volume == 0 && bar.turnover == 0.0
  }

  lemma {:induction false} CrowdedTickExactly(s: State, l: Ledger, tick: TickInput, date: int, now: int)
    requires CrowdedState(s, now) && Reconciles(s, l)
    ensures var step := Step(TickEvent(tick), date, now);
            Reconciles(Applied(s, step), Booked(l, s, step))
            <==> !Overflows(l, s, step) || HoldsNothing(DroppedBy(s, tick))
  {
    CrowdedTick(s, tick, date, now);
    var base := TickBase(s, tick, date, now);
    if UpdatesChart(tick, date) {
      TickTotals(base.bars, Directed(base.snapshot, tick), date);
    }
  }

  /** From any time-ordered list up to the clock, repeated minutes or not, a step reconciles
      exactly when it does not overflow, or the bar that it drops holds nothing. */
  lemma CrowdedStepExactly(s: State, l: Ledger, step: Step)
    requires CrowdedSound(s, l, step.now)
    ensures Reconciles(Applied(s, step), Booked(l, s, step))
            <==> !Overflows(l, s, step) || HoldsNothing(DroppedBy(s, step.event.tick))
  {
    match step.event {
      case TickEvent(tick) => CrowdedTickExactly(s, l, tick, step.date, step.now);
      case BarEvent(p) => CrowdedBarStep(s, l, p, step.date, step.now);
      case BackfillEvent(ps) => CrowdedBackfill(s, l, ps, step.date, step.now);
      case QueueEvent => CrowdedRollover(s, l, step.date, step.now);
      case BookEvent => CrowdedRollover(s, l, step.date, step.now);
    }
  }

  // ---------- runs ----------

  lemma {:induction false} RoomyTick(s: State, l: Ledger, tick: TickInput, date: int, now: int)
    requires CrowdedSound(s, l, now) && Roomy(s.bars) && MinuteOf(tick.ts) <= MinuteOf(now)
    ensures var r := TickApplied(s, tick, date, now);
            CrowdedSound(r, Booked(l, s, Step(TickEvent(tick), date, now)), now) && Roomy(r.bars)
  {
    CrowdedTick(s, tick, date, now);
    CrowdedTickExactly(s, l, tick, date, now);
    if Overflows(l, s, Step(TickEvent(tick), date, now)) {
      FullIsNotRoomy(s.bars, MinuteOf(tick.ts), date);
    }
  }

  /** A full list that lacks a minute of its session repeats more minutes than the cap spares. */
  lemma FullIsNotRoomy(bars: seq<Bar>, minute: int, date: int)
    requires Crowded(bars, date) && IsFullAt(bars, minute) && IsRegularMinute(minute, Some(date))
    ensures !Roomy(bars)
  {
    BarAt(bars, minute);
    MinutesAreRegular(bars, date);
    MinutesFitSession(MinuteSet(bars) + {minute}, date);
  }

  /** From a roomy list every run keeps the reconciliation law, the order and the room. */
  lemma {:induction false} RoomyRunReconciles(s: State, l: Ledger, start: int, steps: seq<Step>)
    requires CrowdedSound(s, l, start) && Roomy(s.bars) && OnTime(start, steps)
    ensures CrowdedSound(Run(s, steps), RunLedger(l, s, steps), ClockAfter(start, steps)) && Roomy(Run(s, steps).bars)
  {
    if steps != [] {
      var front, step := steps[..|steps| - 1], steps[|steps| - 1];
      RoomyRunReconciles(s, l, start, front);
      var m, lm := Run(s, front), RunLedger(l, s, front);
      assert MinuteOf(ClockAfter(start, front)) <= MinuteOf(step.now);
      assert CrowdedSound(m, lm, step.now);
      match step.event {
        case TickEvent(tick) => RoomyTick(m, lm, tick, step.date, step.now);
        case BarEvent(p) => CrowdedBarStep(m, lm, p, step.date, step.now);
        case BackfillEvent(ps) => CrowdedBackfill(m, lm, ps, step.date, step.now);
        case QueueEvent => CrowdedRollover(m, lm, step.date, step.now);
        case BookEvent => CrowdedRollover(m, lm, step.date, step.now);
      }
    }
  }

  // ---------- a run that breaks ----------

  /** A clock past the whole session. */
  function Late(date: int, start: int): (now: int)
    ensures start <= now && MinuteAt(date, MINUTES_PER_SESSION - 1) <= MinuteOf(now)
  {
    var close := MinuteAt(date, MINUTES_PER_SESSION - 1) * MS_PER_MINUTE;
    if start < close then close else start
  }

  function TickAt(minute: int): TickInput {
    TickInput(minute * MS_PER_MINUTE, 1.0, 1, 1.0, false)
  }

  function StepAt(minute: int, date: int, start: int): Step {
    Step(TickEvent(TickAt(minute)), date, Late(date, start))
  }

  lemma {:induction false} RegularIsNotLate(minute: int, date: int, start: int)
    requires IsRegularMinute(minute, Some(date))
    ensures MinuteOf(TickAt(minute).ts) == minute <= MinuteOf(Late(date, start))
  {
    assert minute == MinuteAt(date, Slot(minute));
  }

  /** A run so far that reconciles, on a list that repeats too many minutes. */
  ghost predicate Doomed(s: State, l: Ledger, start: int, steps: seq<Step>, date: int) {
    var r, lr := Run(s, steps), RunLedger(l, s, steps);
    && OnTime(start, steps) && ClockAfter(start, steps) <= Late(date, start)
    && CrowdedSound(r, lr, Late(date, start))
    && r.snapshot.date == Some(date) && lr.SinceBars? && !Roomy(r.bars)
  }

  lemma {:induction false} AppendTick(s: State, l: Ledger, start: int, steps: seq<Step>, date: int, minute: int)
    requires Doomed(s, l, start, steps, date) && IsRegularMinute(minute, Some(date))
    ensures var r, more := Run(s, steps), steps + [StepAt(minute, date, start)];
            && OnTime(start, more) && ClockAfter(start, more) == Late(date, start)
            && Run(s, more) == TickApplied(r, TickAt(minute), date, Late(date, start))
            && RunLedger(l, s, more) == RunLedger(l, s, steps)
            && (Reconciles(Run(s, more), RunLedger(l, s, more))
                <==> !IsFullAt(r.bars, minute) || HoldsNothing(DroppedBy(r, TickAt(minute))))
  {
    var more := steps + [StepAt(minute, date, start)];
    assert more[..|steps|] == steps;
    RegularIsNotLate(minute, date, start);
    CrowdedTickExactly(Run(s, steps), RunLedger(l, s, steps), TickAt(minute), date, Late(date, start));
  }

  /** A minute of the session that a list with too many repetitions lacks. */
  lemma MissingMinute(bars: seq<Bar>, date: int) returns (minute: int)
    requires Crowded(bars, date) && !Roomy(bars)
    ensures IsRegularMinute(minute, Some(date)) && FirstAt(bars, minute).None?
  {
    var slots := seq(MINUTES_PER_SESSION, i => MinuteAt(date, i));
    SessionIsFull(date);
    IncreasingSet(slots);
    var session := set m | m in slots;
    if session <= MinuteSet(bars) {
      SetSizes(session, MinuteSet(bars));
    }
    minute :| minute in session && minute !in MinuteSet(bars);
    BarAt(bars, minute);
  }

  lemma {:induction false} GrowOnce(s: State, l: Ledger, start: int, steps: seq<Step>, date: int)
    returns (more: seq<Step>)
    requires Doomed(s, l, start, steps, date) && |Run(s, steps).bars| < BAR_CAP
    ensures Doomed(s, l, start, more, date) && |Run(s, more).bars| == |Run(s, steps).bars| + 1
  {
    var r := Run(s, steps);
    var minute := MissingMinute(r.bars, date);
    more := steps + [StepAt(minute, date, start)];
    AppendTick(s, l, start, steps, date, minute);
    RegularIsNotLate(minute, date, start);
    ChartedState(r, date, minute, Late(date, start));
    GrownBars(r.bars, Directed(r.snapshot, TickAt(minute)), date);
  }

  lemma {:induction false} ChartedBars(r: State, date: int, minute: int, now: int)
    requires CrowdedState(r, now) && r.snapshot.date == Some(date) && IsRegularMinute(minute, Some(date))
    ensures TickApplied(r, TickAt(minute), date, now).bars
            == Upserted(r.bars, Directed(r.snapshot, TickAt(minute)), Some(date))
  {
    CrowdedPruned(r.bars, date, now);
    assert TickBase(r, TickAt(minute), date, now).bars == r.bars;
    assert MinuteOf(TickAt(minute).ts) == minute;
  }

  /** The state after such a tick, whose bars are known. */
  lemma {:induction false} ChartedState(r: State, date: int, minute: int, now: int)
    requires CrowdedState(r, now) && r.snapshot.date == Some(date)
    requires IsRegularMinute(minute, Some(date)) && minute <= MinuteOf(now)
    ensures var q := TickApplied(r, TickAt(minute), date, now);
            && CrowdedState(q, now) && q.snapshot.date == Some(date) && ChangeConsistent(q.snapshot)
            && q.bars == Upserted(r.bars, Directed(r.snapshot, TickAt(minute)), Some(date))
  {
    assert MinuteOf(TickAt(minute).ts) == minute;
    ChartedBars(r, date, minute, now);
    CrowdedTick(r, TickAt(minute), date, now);
  }

  lemma {:induction false} GrownBars(bars: seq<Bar>, tick: Tick, date: int)
    requires Crowded(bars, date) && !Roomy(bars) && |bars| < BAR_CAP
    requires IsRegularMinute(MinuteOf(tick.ts), Some(date)) && FirstAt(bars, MinuteOf(tick.ts)).None?
    ensures var r := Upserted(bars, tick, Some(date));
            |r| == |bars| + 1 && !Roomy(r)
  {
    BarAt(bars, MinuteOf(tick.ts));
    NewMinute(bars, OpenBar(tick), date);
  }

  lemma {:induction false} Fill(s: State, l: Ledger, start: int, steps: seq<Step>, date: int) returns (more: seq<Step>)
    requires Doomed(s, l, start, steps, date)
    ensures Doomed(s, l, start, more, date) && |Run(s, more).bars| == BAR_CAP
    decreases BAR_CAP - |Run(s, steps).bars|
  {
    more := steps;
    if |Run(s, steps).bars| < BAR_CAP {
      more := GrowOnce(s, l, start, steps, date);
      more := Fill(s, l, start, more, date);
    }
  }

  /** If the oldest bar holds nothing, a tick in its minute gives it volume. */
  lemma {:induction false} WeighFirst(s: State, l: Ledger, start: int, steps: seq<Step>, date: int)
    returns (more: seq<Step>)
    requires Doomed(s, l, start, steps, date) && |Run(s, steps).bars| == BAR_CAP
    ensures Doomed(s, l, start, more, date) && |Run(s, more).bars| == BAR_CAP && !HoldsNothing(Run(s, more).bars[0])
  {
    var r := Run(s, steps);
    more := steps;
    if HoldsNothing(r.bars[0]) {
      var minute := r.bars[0].Minute();
      assert IsRegularMinute(minute, Some(date));
      more := steps + [StepAt(minute, date, start)];
      AppendTick(s, l, start, steps, date, minute);
      RegularIsNotLate(minute, date, start);
      ChartedState(r, date, minute, Late(date, start));
      WeighedBars(r.bars, Directed(r.snapshot, TickAt(minute)), date);
    }
  }

  lemma {:induction false} WeighedBars(bars: seq<Bar>, tick: Tick, date: int)
    requires Crowded(bars, date) && !Roomy(bars) && |bars| == BAR_CAP
    requires HoldsNothing(bars[0]) && MinuteOf(tick.ts) == bars[0].Minute() && tick.volume != 0
    requires IsRegularMinute(MinuteOf(tick.ts), Some(date))
    ensures var r := Upserted(bars, tick, Some(date));
            && |r| == BAR_CAP && !Roomy(r) && !HoldsNothing(r[0])
            && !IsFullAt(bars, MinuteOf(tick.ts))
  {
    assert FirstAt(bars, MinuteOf(tick.ts)) == Some(0);
    SameMinutes(bars, bars[0 := MergeTick(bars[0], tick)], date);
  }

  /** From a list with too many repetitions some run on time breaks the law. */
  lemma {:induction false} CrowdedRunBreaks(s: State, l: Ledger, start: int) returns (steps: seq<Step>)
    requires CrowdedSound(s, l, start) && l.SinceBars? && !Roomy(s.bars)
    ensures OnTime(start, steps) && !Reconciles(Run(s, steps), RunLedger(l, s, steps))
  {
    var date := s.snapshot.date.value;
    assert MinuteOf(start) <= MinuteOf(Late(date, start));
    steps := Fill(s, l, start, [], date);
    steps := WeighFirst(s, l, start, steps, date);
    var minute := MissingMinute(Run(s, steps).bars, date);
    AppendTick(s, l, start, steps, date, minute);
    steps := steps + [StepAt(minute, date, start)];
  }

  ghost predicate AlwaysReconciles(s: State, l: Ledger, start: int) {
    forall steps :: OnTime(start, steps) ==> Reconciles(Run(s, steps), RunLedger(l, s, steps))
  }

  /** Every run on time from a time-ordered list reconciles exactly when the list has at most
      89 bars more than minutes. */
  lemma CrowdedRunsExactly(s: State, l: Ledger, start: int)
    requires CrowdedSound(s, l, start) && l.SinceBars?
    ensures AlwaysReconciles(s, l, start) <==> Roomy(s.bars)
  {
    if Roomy(s.bars) {
      forall steps | OnTime(start, steps)
        ensures Reconciles(Run(s, steps), RunLedger(l, s, steps))
      {
        RoomyRunReconciles(s, l, start, steps);
      }
    } else {
      var steps := CrowdedRunBreaks(s, l, start);
    }
  }

  /** A preloaded day, whatever rows its table repeats: every run on time reconciles exactly
      when there are at most 89 bars more than minutes. */
  lemma PreloadedRunReconciles(date: int, bars: seq<Bar>, previous: Option<DailyBar>, current: Option<DailyBar>,
                               start: int)
    requires Crowded(bars, date) && AllPast(bars, start)
    ensures AlwaysReconciles(Preloaded(date, bars, previous, current), SETTLED, start) <==> Roomy(bars)
  {
    CrowdedRunsExactly(Preloaded(date, bars, previous, current), SETTLED, start);
  }

  /** A table without repeated minutes has room. */
  lemma StrictIsRoomy(bars: seq<Bar>, date: int)
    requires Ordered(bars) && OnDate(bars, date)
    ensures Crowded(bars, date) && Roomy(bars)
  {
    OneDayFitsCap(bars, date);
    BarMapSize(bars);
    BarMapEntries(bars);
    forall k | k in BarMap(bars).Keys
      ensures k in MinuteSet(bars)
    {
      assert BarMap(bars)[k] in bars;
    }
    SetSizes(BarMap(bars).Keys, MinuteSet(bars));
  }

  // ---------- an input that breaks ----------

  /** The first 140 minutes of a session, each stored three times. */
  function TripledMorning(date: int): (bars: seq<Bar>)
    ensures |bars| == BAR_CAP
    ensures forall i :: 0 <= i < BAR_CAP ==> bars[i].Minute() == MinuteAt(date, i / 3) && bars[i].volume == 1
  {
    seq(BAR_CAP, i => Bar(MinuteAt(date, i / 3) * MS_PER_MINUTE, 1.0, 1.0, 1.0, 1.0, 1.0, 1, 1.0, Flat, true))
  }

  /** The next minute's tick drops the first of these bars, and with it a volume of 1. */
  lemma TripledMorningBreaks(date: int)
    ensures var s, step := Preloaded(date, TripledMorning(date), None, None), StepAt(MinuteAt(date, 140), date, 0);
            Reconciles(s, SETTLED) && !Reconciles(Applied(s, step), Booked(SETTLED, s, step))
  {
    var bars, now := TripledMorning(date), Late(date, 0);
    var s, minute := Preloaded(date, bars, None, None), MinuteAt(date, 140);
    RegularIsNotLate(minute, date, 0);
    forall i | 0 <= i < |bars|
      ensures IsRegularMinute(bars[i].Minute(), Some(date)) && bars[i].Minute() < minute
    {
    }
    assert Crowded(bars, date) && AllPast(bars, now);
    CrowdedTickExactly(s, SETTLED, TickAt(minute), date, now);
  }
}
