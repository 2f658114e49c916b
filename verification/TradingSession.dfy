/** The Hong Kong trading session (trading_session.py). Instants are milliseconds of
    Hong Kong wall-clock time; a minute is the index of a whole minute on that clock. */
module TradingSession {
  import opened Sequences

  const MS_PER_MINUTE := 60_000
  const MINUTES_PER_DAY := 1440
  const MORNING_OPEN := 9 * 60 + 30
  const MORNING_CLOSE := 12 * 60
  const AFTERNOON_OPEN := 13 * 60
  const AFTERNOON_LAST := 16 * 60
  /** 150 morning minutes and 181 afternoon ones: the closing minute 16:00 counts. */
  const MINUTES_PER_SESSION := 331
  /** How many bars every bar list keeps at most. */
  const BAR_CAP := 420

  /** Floor, also before the epoch: Dafny's `/` is Euclidean and the divisor positive. */
  function MinuteOf(ts: int): int {
    ts / MS_PER_MINUTE
  }

  function DayOf(minute: int): int {
    minute / MINUTES_PER_DAY
  }

  /** `None` is the absent or empty trade date, which restricts nothing. */
  predicate IsRegularMinute(minute: int, date: Option<int>) {
    && (date.Some? ==> DayOf(minute) == date.value)
    && var ofDay := minute % MINUTES_PER_DAY;
       (MORNING_OPEN <= ofDay < MORNING_CLOSE || AFTERNOON_OPEN <= ofDay <= AFTERNOON_LAST)
  }

  /** The session in instants of the day: from 09:30:00.000 to before 12:00, and from 13:00 to
      before 16:01, on the date of the instant. */
  lemma SessionInstants(ts: int, date: int)
    ensures var ofDay := ts % 86_400_000;
            && (IsRegularMinute(MinuteOf(ts), None)
                <==> 34_200_000 <= ofDay < 43_200_000 || 46_800_000 <= ofDay < 57_660_000)
            && (IsRegularMinute(MinuteOf(ts), Some(date))
                <==> ts / 86_400_000 == date && IsRegularMinute(MinuteOf(ts), None))
  {
    var minute, rest := ts / 60_000, ts % 60_000;
    assert ts == minute * 60_000 + rest;
    assert minute == minute / 1440 * 1440 + minute % 1440;
    assert ts == minute / 1440 * 86_400_000 + (minute % 1440 * 60_000 + rest);
    QuotientAndRest(ts, minute / 1440, minute % 1440 * 60_000 + rest);
  }

  lemma QuotientAndRest(ts: int, q: int, r: int)
    requires ts == q * 86_400_000 + r && 0 <= r < 86_400_000
    ensures ts / 86_400_000 == q && ts % 86_400_000 == r
  {
  }

  ghost predicate AllRegular(s: seq<int>, date: int) {
    forall i {:trigger s[i]} :: 0 <= i < |s| ==> IsRegularMinute(s[i], Some(date))
  }

  /** Position of a regular minute in its day, 0 for 09:30 up to 330 for 16:00. */
  function Slot(minute: int): (slot: int)
    requires IsRegularMinute(minute, None)
    ensures 0 <= slot < MINUTES_PER_SESSION
  {
    var ofDay := minute % MINUTES_PER_DAY;
    if ofDay < MORNING_CLOSE then ofDay - MORNING_OPEN
    else ofDay - AFTERNOON_OPEN + (MORNING_CLOSE - MORNING_OPEN)
  }

  lemma {:induction false} SlotsBound(s: seq<int>, date: int)
    requires StrictlyIncreasing(s)
    requires AllRegular(s, date)
    ensures |s| > 0 ==> |s| <= Slot(s[|s| - 1]) + 1
  {
    if |s| > 1 {
      var n := |s| - 1;
      SlotsBound(s[..n], date);
      assert s[n - 1] < s[n];
      assert Slot(s[n - 1]) < Slot(s[n]);
    }
  }

  /** One trade date never fills the 420-bar cap. */
  lemma SessionFitsCap(s: seq<int>, date: int)
    requires StrictlyIncreasing(s)
    requires AllRegular(s, date)
    ensures |s| <= 331
    ensures LastN(s, BAR_CAP) == s && BAR_CAP == 420
  {
    SlotsBound(s, date);
  }

  function MinuteAt(date: int, slot: int): (minute: int) {
    date * MINUTES_PER_DAY
    + if slot < MORNING_CLOSE - MORNING_OPEN then MORNING_OPEN + slot
      else AFTERNOON_OPEN + slot - (MORNING_CLOSE - MORNING_OPEN)
  }

  /** The bound is attained: every date has exactly 331 regular minutes, in slot order. */
  lemma SessionIsFull(date: int)
    ensures var s := seq(MINUTES_PER_SESSION, i => MinuteAt(date, i));
            && StrictlyIncreasing(s)
            && (forall m :: IsRegularMinute(m, Some(date)) <==> m in s)
  {
    var s := seq(MINUTES_PER_SESSION, i => MinuteAt(date, i));
    forall m | IsRegularMinute(m, Some(date))
      ensures m in s
    {
      assert m == MinuteAt(date, Slot(m));
      assert s[Slot(m)] == m;
    }
  }
}
