/** Intraday recovery (app_runtime.py): replay the local raw-event log without duplicates,
    then backfill from the stored tick table, appending what was new to the log. */
module IntradayRecovery {
  import opened Sequences
  import opened Deduplication

  /** A timestamp as written, with the instant it denotes; text "" is a missing one. */
  datatype Stamp = Stamp(text: string, instant: int)

  /** A raw market event: the fields that ordering and deduplication look at. A missing id
      is "". Prices and sizes stand for their own textual rendering. */
  datatype RawEvent = RawEvent(isTick: bool, eventId: string, ts: Stamp, price: real, volume: int,
                               turnover: real, tradeId: string, rowHash: string)

  /** A row of the stored trade-tick table. */
  datatype Row = Row(ts: Stamp, price: real, volume: int, turnover: real, tradeId: string, rowHash: string)

  datatype Key =
    | EventKey(id: string)
    | TradeKey(id: string)
    | TickKey(ts: string, price: real, volume: int, turnover: real)

  datatype Report = Report(localRawReplayed: nat, backfilledTicks: nat, recoveredRawEvents: nat,
                           lastRecoveredTs: Stamp)

  const NO_STAMP := Stamp("", 0)

  // ---------- ordering ----------

  /** `iso_sort_value`: an unreadable timestamp counts as 0. */
  function SortValue(s: Stamp): int {
    if s.text == "" then 0 else s.instant
  }

  /** `iso_after`. */
  predicate IsoAfter(left: Stamp, right: Stamp) {
    if right.text == "" then left.text != "" else SortValue(left) > SortValue(right)
  }

  /** `raw_event_sort_key`: instant, then event id. */
  predicate EventLe(x: RawEvent, y: RawEvent) {
    SortValue(x.ts) < SortValue(y.ts) || (SortValue(x.ts) == SortValue(y.ts) && LexLe(x.eventId, y.eventId))
  }

  predicate RowLe(x: Row, y: Row) {
    LexLe(x.ts.text, y.ts.text)
  }

  lemma EventOrder()
    ensures TotalPreorder(EventLe)
  {
    forall x, y
      ensures EventLe(x, y) || EventLe(y, x)
    {
      LexTotal(x.eventId, y.eventId);
    }
    forall x, y, z | EventLe(x, y) && EventLe(y, z)
      ensures EventLe(x, z)
    {
      if SortValue(x.ts) == SortValue(z.ts) {
        LexTransitive(x.eventId, y.eventId, z.eventId);
      }
    }
  }

  // ---------- deduplication ----------

  /** The trade id, or else the row hash. */
  function TradeIdOf(e: RawEvent): string {
    if e.tradeId != "" then e.tradeId else e.rowHash
  }

  /** `raw_event_dedupe_keys`. */
  function DedupeKeys(e: RawEvent): set<Key> {
    (if e.eventId != "" then {EventKey(e.eventId)} else {})
    + if !e.isTick then {}
      else
        (if TradeIdOf(e) != "" then {TradeKey(TradeIdOf(e))} else {})
        + {TickKey(e.ts.text, e.price, e.volume, e.turnover)}
  }

  /** The latest of these timestamps, "" if none is there. */
  function LatestOf(stamps: seq<Stamp>): Stamp {
    if stamps == [] then NO_STAMP
    else
      var last, s := LatestOf(stamps[..|stamps| - 1]), stamps[|stamps| - 1];
      if s.text != "" && IsoAfter(s, last) then s else last
  }

  function StampsOf(events: seq<RawEvent>): (r: seq<Stamp>)
    ensures |r| == |events| && forall i :: 0 <= i < |events| ==> r[i] == events[i].ts
  {
    seq(|events|, i requires 0 <= i < |events| => events[i].ts)
  }

  function LastTs(events: seq<RawEvent>): Stamp {
    LatestOf(StampsOf(events))
  }

  lemma LastTsStep(events: seq<RawEvent>, e: RawEvent)
    ensures LastTs(events + [e]) == if e.ts.text != "" && IsoAfter(e.ts, LastTs(events)) then e.ts else LastTs(events)
  {
    assert StampsOf(events + [e]) == StampsOf(events) + [e.ts];
    assert (StampsOf(events) + [e.ts])[..|events|] == StampsOf(events);
  }

  /** The timestamps that a cached snapshot carries: three in its freshness, which an alert
      rewrites, and the others, which recovery leaves alone. */
  datatype CachedStamps = CachedStamps(source: Stamp, ingest: Stamp, updated: Stamp, others: seq<Stamp>)
  {
    function All(): seq<Stamp> {
      [source, ingest, updated] + others
    }

    /** `snapshot_recovered_ts`. */
    function Recovered(): Stamp {
      LatestOf(All())
    }
  }

  /** What processing one backfilled event does to the snapshot in use: a big trade raises an
      alert and moves the freshness to that event and the clock. */
  function Alerted(cached: Option<CachedStamps>, e: RawEvent, isBigTrade: RawEvent -> bool, now: Stamp)
    : Option<CachedStamps>
  {
    if cached.Some? && isBigTrade(e) then Some(cached.value.(source := e.ts, ingest := now, updated := now)) else cached
  }

  function AfterAlerts(cached: Option<CachedStamps>, events: seq<RawEvent>, isBigTrade: RawEvent -> bool, now: Stamp)
    : Option<CachedStamps>
  {
    if events == [] then cached
    else Alerted(AfterAlerts(cached, events[..|events| - 1], isBigTrade, now), events[|events| - 1], isBigTrade, now)
  }

  lemma AfterAlertsStep(cached: Option<CachedStamps>, events: seq<RawEvent>, e: RawEvent,
                        isBigTrade: RawEvent -> bool, now: Stamp)
    ensures AfterAlerts(cached, events + [e], isBigTrade, now)
            == Alerted(AfterAlerts(cached, events, isBigTrade, now), e, isBigTrade, now)
  {
    assert (events + [e])[..|events|] == events;
  }

  // ---------- backfill events ----------

  function Digits(n: nat): string {
    if n < 10 then ["0123456789"[n]] else Digits(n / 10) + ["0123456789"[n % 10]]
  }

  predicate IsSafeChar(c: char) {
    'A' <= c <= 'Z' || 'a' <= c <= 'z' || '0' <= c <= '9' || c == '_' || c == '.' || c == '-'
  }

  /** Every run of other characters becomes one '-'. */
  function Collapsed(s: string): string {
    if s == "" then ""
    else
      var front, c := s[..|s| - 1], s[|s| - 1];
      if IsSafeChar(c) then Collapsed(front) + [c]
      else if front != "" && !IsSafeChar(front[|front| - 1]) then Collapsed(front)
      else Collapsed(front) + "-"
  }

  function StripLeft(s: string): string {
    if s != "" && s[0] == '-' then StripLeft(s[1..]) else s
  }

  function StripRight(s: string): string {
    if s != "" && s[|s| - 1] == '-' then StripRight(s[..|s| - 1]) else s
  }

  /** `safe_event_id_part`. */
  function SafePart(s: string): string {
    var stripped := StripRight(StripLeft(Collapsed(s)));
    if stripped == "" then "unknown" else stripped
  }

  function IdentityOf(row: Row, index: nat): string {
    if row.tradeId != "" then row.tradeId else if row.rowHash != "" then row.rowHash else Digits(index)
  }

  /** The event of one table row; `index` numbers it within the backfill. */
  function EventOf(symbol: string, row: Row, index: nat, now: Stamp): RawEvent {
    RawEvent(true,
             "raw-mammoth-backfill-" + symbol + "-" + SafePart(row.ts.text) + "-" + SafePart(IdentityOf(row, index)),
             if row.ts.text == "" then now else row.ts,
             row.price, row.volume, row.turnover, row.tradeId, row.rowHash)
  }

  predicate IsMissing(row: Row, last: Stamp) {
    last.text == "" || IsoAfter(row.ts, last)
  }

  function EventsOfRows(symbol: string, rows: seq<Row>, last: Stamp, now: Stamp): seq<RawEvent> {
    if rows == [] then []
    else
      var front, row := EventsOfRows(symbol, rows[..|rows| - 1], last, now), rows[|rows| - 1];
      if IsMissing(row, last) then front + [EventOf(symbol, row, |front| + 1, now)] else front
  }

  lemma EventsOfRowsStep(symbol: string, rows: seq<Row>, i: nat, last: Stamp, now: Stamp)
    requires i < |rows|
    ensures var front := EventsOfRows(symbol, rows[..i], last, now);
            EventsOfRows(symbol, rows[..i + 1], last, now)
            == if IsMissing(rows[i], last) then front + [EventOf(symbol, rows[i], |front| + 1, now)] else front
  {
    assert rows[..i + 1][..i] == rows[..i];
  }

  /** A table that cannot be read (`None`) backfills nothing. */
  function BackfillEvents(symbol: string, table: Option<seq<Row>>, last: Stamp, now: Stamp): seq<RawEvent> {
    if table.None? then [] else EventsOfRows(symbol, Sort(RowLe, table.value), last, now)
  }

  lemma ConcatStep(a: seq<RawEvent>, b: seq<RawEvent>, e: RawEvent)
    ensures a + b + [e] == a + (b + [e])
  {
  }

  // ---------- one recovery ----------

  function Stamped(cached: Option<CachedStamps>): Option<Stamp> {
    if cached.Some? then Some(cached.value.Recovered()) else None
  }

  /** The local replay; the recovered timestamp of a fresh cached snapshot replaces it. */
  function Replayed(log: seq<RawEvent>, cached: Option<Stamp>): seq<RawEvent> {
    if cached.Some? then [] else Replay(DedupeKeys, EventLe, log)
  }

  function RecoveredTs(log: seq<RawEvent>, cached: Option<Stamp>): Stamp {
    if cached.Some? then cached.value else LastTs(Replayed(log, None))
  }

  function Backfilled(log: seq<RawEvent>, cached: Option<Stamp>, symbol: string, table: Option<seq<Row>>, now: Stamp)
    : seq<RawEvent>
  {
    Accepted(DedupeKeys, AllKeys(DedupeKeys, Replayed(log, cached)),
             BackfillEvents(symbol, table, RecoveredTs(log, cached), now))
  }

  /** One event's turn in a deduplicating loop. */
  lemma Turn(already: set<Key>, events: seq<RawEvent>, i: nat)
    requires i < |events|
    ensures var a, e := Accepted(DedupeKeys, already, events[..i]), events[i];
            && Accepted(DedupeKeys, already, events[..i + 1])
               == (if DedupeKeys(e) !! already + AllKeys(DedupeKeys, a) then a + [e] else a)
            && AllKeys(DedupeKeys, a + [e]) == AllKeys(DedupeKeys, a) + DedupeKeys(e)
  {
    assert events[..i + 1] == events[..i] + [events[i]];
    AcceptedStep(DedupeKeys, already, events[..i], events[i]);
    AllKeysStep(DedupeKeys, Accepted(DedupeKeys, already, events[..i]), events[i]);
  }

  /** The same in the replaying loop, which also tracks the latest timestamp. */
  lemma {:induction false} ReplayTurn(sorted: seq<RawEvent>, i: nat, replay: seq<RawEvent>)
    requires i < |sorted| && replay == Accepted(DedupeKeys, {}, sorted[..i])
    ensures var e, next := sorted[i], Accepted(DedupeKeys, {}, sorted[..i + 1]);
            if DedupeKeys(e) !! AllKeys(DedupeKeys, replay) then
              && next == replay + [e]
              && AllKeys(DedupeKeys, next) == AllKeys(DedupeKeys, replay) + DedupeKeys(e)
              && LastTs(next) == if e.ts.text != "" && IsoAfter(e.ts, LastTs(replay)) then e.ts else LastTs(replay)
            else next == replay
  {
    Turn({}, sorted, i);
    LastTsStep(replay, sorted[i]);
  }

  class Recovery {
    /** The stored raw-event log. */
    var log: seq<RawEvent>
    /** Every event handed to the compute step so far. */
    var processed: seq<RawEvent>
    /** The fresh cached snapshot that the compute step uses as its state, if any. */
    var cached: Option<CachedStamps>

    constructor (log: seq<RawEvent>)
      ensures this.log == log && processed == [] && cached == None
    {
      this.log, processed, cached := log, [], None;
    }

    /** `backfill_trade_tick_events`. */
    static method TradeTickEvents(symbol: string, table: Option<seq<Row>>, last: Stamp, now: Stamp)
      returns (events: seq<RawEvent>)
      ensures events == BackfillEvents(symbol, table, last, now)
    {
      if table.None? {
        return [];
      }
      var rows := Sort(RowLe, table.value);
      events := [];
      for i := 0 to |rows|
        invariant events == EventsOfRows(symbol, rows[..i], last, now)
      {
        EventsOfRowsStep(symbol, rows, i, last, now);
        if last.text != "" && !IsoAfter(rows[i].ts, last) {
          continue;
        }
        events := events + [EventOf(symbol, rows[i], |events| + 1, now)];
      }
      assert rows[..|rows|] == rows;
    }

    /** The first loop of `recover_symbol_intraday`: replay the log in time order. */
    method ReplayLog() returns (seen: set<Key>, replayed: nat, last: Stamp)
      modifies this`processed
      ensures var replay := Replayed(log, None);
              && processed == old(processed) + replay
              && seen == AllKeys(DedupeKeys, replay) && replayed == |replay| && last == LastTs(replay)
    {
      seen, replayed, last := {}, 0, NO_STAMP;
      ghost var replay := [];
      var sorted := Sort(EventLe, log);
      for i := 0 to |sorted|
        invariant replay == Accepted(DedupeKeys, {}, sorted[..i]) && replayed == |replay|
        invariant seen == AllKeys(DedupeKeys, replay) && last == LastTs(replay)
        invariant processed == old(processed) + replay
      {
        var e := sorted[i];
        ReplayTurn(sorted, i, replay);
        if !(DedupeKeys(e) !! seen) {
          continue;
        }
        ConcatStep(old(processed), replay, e);
        seen := seen + DedupeKeys(e);
        processed := processed + [e];
        replayed := replayed + 1;
        if e.ts.text != "" && IsoAfter(e.ts, last) {
          last := e.ts;
        }
        replay := replay + [e];
      }
      assert sorted[..|sorted|] == sorted;
    }

    /** Its second loop: backfill what the table has and append it to the log. */
    method BackfillLog(events: seq<RawEvent>, already: set<Key>, isBigTrade: RawEvent -> bool, now: Stamp)
      returns (backfilled: nat)
      modifies this
      ensures var added := Accepted(DedupeKeys, already, events);
              && log == old(log) + added && processed == old(processed) + added && backfilled == |added|
              && cached == AfterAlerts(old(cached), added, isBigTrade, now)
    {
      var seen := already;
      backfilled := 0;
      ghost var added := [];
      for i := 0 to |events|
        invariant added == Accepted(DedupeKeys, already, events[..i]) && backfilled == |added|
        invariant seen == already + AllKeys(DedupeKeys, added)
        invariant processed == old(processed) + added && log == old(log) + added
        invariant cached == AfterAlerts(old(cached), added, isBigTrade, now)
      {
        var e := events[i];
        Turn(already, events, i);
        if !(DedupeKeys(e) !! seen) {
          continue;
        }
        ConcatStep(old(log), added, e);
        ConcatStep(old(processed), added, e);
        AfterAlertsStep(old(cached), added, e, isBigTrade, now);
        seen := seen + DedupeKeys(e);
        processed := processed + [e];
        cached := Alerted(cached, e, isBigTrade, now);
        log := log + [e];
        backfilled := backfilled + 1;
        added := added + [e];
      }
      assert events[..|events|] == events;
    }

    /** `recover_symbol_intraday`; `snapshot` holds the timestamps of a fresh cached snapshot. */
    method Recover(symbol: string, table: Option<seq<Row>>, snapshot: Option<CachedStamps>,
                   isBigTrade: RawEvent -> bool, now: Stamp)
      returns (report: Report)
      modifies this
      ensures var replayed, added := Replayed(old(log), Stamped(snapshot)),
                                     Backfilled(old(log), Stamped(snapshot), symbol, table, now);
              && log == old(log) + added
              && processed == old(processed) + replayed + added
              && cached == AfterAlerts(snapshot, added, isBigTrade, now)
              && report == Report(|replayed|, |added|, |added|, RecoveredTs(old(log), Stamped(snapshot)))
    {
      var seen: set<Key>, replayed: nat, last := {}, 0, NO_STAMP;
      cached := snapshot;
      if snapshot.Some? {
        last := snapshot.value.Recovered();
      } else {
        seen, replayed, last := ReplayLog();
      }
      var events := TradeTickEvents(symbol, table, last, now);
      var backfilled := BackfillLog(events, seen, isBigTrade, now);
      report := Report(replayed, backfilled, backfilled, last);
    }
  }

  // ---------- recovering twice ----------

  lemma {:induction false} LatestIsGreatest(stamps: seq<Stamp>)
    ensures var last := LatestOf(stamps);
            && (last.text == "" <==> forall s :: s in stamps ==> s.text == "")
            && (last.text != "" ==> last in stamps)
            && (last.text != "" ==> forall s :: s in stamps && s.text != "" ==> SortValue(s) <= SortValue(last))
  {
    if stamps != [] {
      LatestIsGreatest(stamps[..|stamps| - 1]);
      assert stamps == stamps[..|stamps| - 1] + [stamps[|stamps| - 1]];
    }
  }

  lemma LastTsIsLatest(events: seq<RawEvent>)
    ensures var last := LastTs(events);
            && (last.text == "" <==> forall e :: e in events ==> e.ts.text == "")
            && (last.text != "" ==> forall e :: e in events && e.ts.text != "" ==> SortValue(e.ts) <= SortValue(last))
            && (last.text != "" ==> exists e :: e in events && e.ts == last)
  {
    LatestIsGreatest(StampsOf(events));
    forall e | e in events
      ensures e.ts in StampsOf(events)
    {
      var i :| 0 <= i < |events| && events[i] == e;
      assert StampsOf(events)[i] == e.ts;
    }
    forall s | s in StampsOf(events)
      ensures exists e :: e in events && e.ts == s
    {
      var i :| 0 <= i < |events| && StampsOf(events)[i] == s;
      assert events[i] in events;
    }
  }

  ghost predicate Identified(table: Option<seq<Row>>) {
    table.Some? ==> forall r :: r in table.value ==> r.ts.text != "" && (r.tradeId != "" || r.rowHash != "")
  }

  /** Which events a backfill considers, when every row identifies itself. */
  lemma {:induction false} EventsOfRowsMembers(symbol: string, rows: seq<Row>, last: Stamp, now: Stamp)
    requires forall r :: r in rows ==> r.ts.text != "" && (r.tradeId != "" || r.rowHash != "")
    ensures forall e :: e in EventsOfRows(symbol, rows, last, now) <==>
              exists r :: r in rows && IsMissing(r, last) && e == EventOf(symbol, r, 0, now)
  {
    if rows != [] {
      var front, row := rows[..|rows| - 1], rows[|rows| - 1];
      EventsOfRowsMembers(symbol, front, last, now);
      assert rows == front + [row];
      assert row in rows;
      assert forall n: nat :: EventOf(symbol, row, n, now) == EventOf(symbol, row, 0, now);
    }
  }

  /** Recovering again from the log that a recovery just wrote, over the same identified
      table: the same events are accepted, in time order, and nothing is backfilled. */
  lemma RecoverTwice(log: seq<RawEvent>, symbol: string, table: Option<seq<Row>>, now: Stamp, later: Stamp)
    requires Identified(table)
    ensures var added := Backfilled(log, None, symbol, table, now);
            && Replayed(log + added, None) == Sort(EventLe, Replayed(log, None) + added)
            && Backfilled(log + added, None, symbol, table, later) == []
  {
    var a, last := Replayed(log, None), RecoveredTs(log, None);
    var candidates := BackfillEvents(symbol, table, last, now);
    var added := Backfilled(log, None, symbol, table, now);
    AcceptedAreDistinct(DedupeKeys, AllKeys(DedupeKeys, a), candidates);
    EventOrder();
    ReplayExtended(DedupeKeys, EventLe, log, added);
    var again := Replayed(log + added, None);
    SortMembers(EventLe, a + added);
    KeysOfSort(DedupeKeys, EventLe, a + added);
    AllKeysConcat(DedupeKeys, a, added);
    var candidates' := BackfillEvents(symbol, table, RecoveredTs(log + added, None), later);
    forall e | e in candidates'
      ensures !(DedupeKeys(e) !! AllKeys(DedupeKeys, again))
    {
      SecondCandidate(log, symbol, table, now, later, e);
      AcceptedMembers(DedupeKeys, AllKeys(DedupeKeys, a), candidates);
    }
    AllRejected(DedupeKeys, AllKeys(DedupeKeys, again), candidates');
  }

  /** The second recovery looks only at rows that the first one looked at too, and only at
      those later than everything it accepted. */
  lemma SecondCandidate(log: seq<RawEvent>, symbol: string, table: Option<seq<Row>>, now: Stamp, later: Stamp,
                        e: RawEvent)
    requires Identified(table)
    requires var added := Backfilled(log, None, symbol, table, now);
             && Replayed(log + added, None) == Sort(EventLe, Replayed(log, None) + added)
             && e in BackfillEvents(symbol, table, RecoveredTs(log + added, None), later)
    ensures e in BackfillEvents(symbol, table, RecoveredTs(log, None), now)
    ensures e !in Backfilled(log, None, symbol, table, now)
  {
    var a, last := Replayed(log, None), RecoveredTs(log, None);
    var added := Backfilled(log, None, symbol, table, now);
    var again := Replayed(log + added, None);
    var rows := Sort(RowLe, table.value);
    SortMembers(RowLe, table.value);
    SortMembers(EventLe, a + added);
    EventsOfRowsMembers(symbol, rows, last, now);
    EventsOfRowsMembers(symbol, rows, LastTs(again), later);
    var r :| r in rows && IsMissing(r, LastTs(again)) && e == EventOf(symbol, r, 0, later);
    MissingAfterMore(r, a, again);
    assert e == EventOf(symbol, r, 0, now);
    assert e in added ==> e in again;
  }

  /** A row missing after some events is missing after fewer, and none of them has its timestamp. */
  lemma {:induction false} MissingAfterMore(r: Row, some: seq<RawEvent>, all: seq<RawEvent>)
    requires r.ts.text != "" && IsMissing(r, LastTs(all)) && forall e :: e in some ==> e in all
    ensures IsMissing(r, LastTs(some)) && forall e :: e in all ==> e.ts != r.ts
  {
    LastTsIsLatest(some);
    LastTsIsLatest(all);
  }

  /** No two accepted events are the same event, the same trade, or ticks that look alike. */
  lemma AcceptedEventsDiffer(log: seq<RawEvent>, i: nat, j: nat)
    requires i < j < |Replayed(log, None)|
    ensures var x, y := Replayed(log, None)[i], Replayed(log, None)[j];
            && (x.eventId != "" ==> x.eventId != y.eventId)
            && (x.isTick && y.isTick ==>
                  && (TradeIdOf(x) != "" ==> TradeIdOf(x) != TradeIdOf(y))
                  && (x.ts.text != y.ts.text || x.price != y.price || x.volume != y.volume || x.turnover != y.turnover))
  {
    AcceptedAreDistinct(DedupeKeys, {}, Sort(EventLe, log));
    var x, y := Replayed(log, None)[i], Replayed(log, None)[j];
    assert DedupeKeys(x) !! DedupeKeys(y);
    assert x.eventId != "" ==> EventKey(x.eventId) in DedupeKeys(x);
    assert y.eventId != "" ==> EventKey(y.eventId) in DedupeKeys(y);
    assert x.isTick && TradeIdOf(x) != "" ==> TradeKey(TradeIdOf(x)) in DedupeKeys(x);
    assert y.isTick && TradeIdOf(y) != "" ==> TradeKey(TradeIdOf(y)) in DedupeKeys(y);
    assert x.isTick ==> TickKey(x.ts.text, x.price, x.volume, x.turnover) in DedupeKeys(x);
    assert y.isTick ==> TickKey(y.ts.text, y.price, y.volume, y.turnover) in DedupeKeys(y);
  }

  /** The instant that an event is ordered by; a missing timestamp counts as 0. */
  function InstantOf(e: RawEvent): int {
    if e.ts.text == "" then 0 else e.ts.instant
  }

  /** The replay is in ascending order of instants, and of event ids within one instant. */
  lemma ReplayedInOrder(log: seq<RawEvent>, i: nat, j: nat)
    requires i < j < |Replayed(log, None)|
    ensures var x, y := Replayed(log, None)[i], Replayed(log, None)[j];
            && InstantOf(x) <= InstantOf(y)
            && (InstantOf(x) == InstantOf(y) ==>
                  || x.eventId <= y.eventId
                  || exists k: nat :: FirstDifference(x.eventId, y.eventId, k) && x.eventId[k] < y.eventId[k])
  {
    EventOrder();
    SortSorted(EventLe, log);
    AcceptedSorted(DedupeKeys, EventLe, Sort(EventLe, log));
    var x, y := Replayed(log, None)[i], Replayed(log, None)[j];
    assert EventLe(x, y);
    LexLeMeans(x.eventId, y.eventId);
  }

  /** Not the same event, not the same trade, and not two ticks that look alike. */
  predicate Unlike(x: RawEvent, y: RawEvent) {
    && (x.eventId != y.eventId || x.eventId == "")
    && (x.isTick && y.isTick ==>
          && (TradeIdOf(x) != TradeIdOf(y) || TradeIdOf(x) == "")
          && (x.ts.text != y.ts.text || x.price != y.price || x.volume != y.volume || x.turnover != y.turnover))
  }

  lemma TradeIdMeans(e: RawEvent)
    ensures e.tradeId != "" ==> TradeIdOf(e) == e.tradeId
    ensures e.tradeId == "" ==> TradeIdOf(e) == e.rowHash
  {
  }

  /** Two events share a dedupe key exactly when they are not unlike. */
  lemma SharedKeys(x: RawEvent, y: RawEvent)
    ensures DedupeKeys(x) !! DedupeKeys(y) <==> Unlike(x, y)
  {
    var tx, ty := TickKey(x.ts.text, x.price, x.volume, x.turnover), TickKey(y.ts.text, y.price, y.volume, y.turnover);
    assert forall k :: k in DedupeKeys(x)
                       <==> (x.eventId != "" && k == EventKey(x.eventId))
                            || (x.isTick && TradeIdOf(x) != "" && k == TradeKey(TradeIdOf(x))) || (x.isTick && k == tx);
    assert forall k :: k in DedupeKeys(y)
                       <==> (y.eventId != "" && k == EventKey(y.eventId))
                            || (y.isTick && TradeIdOf(y) != "" && k == TradeKey(TradeIdOf(y))) || (y.isTick && k == ty);
    if x.eventId == y.eventId != "" {
      assert EventKey(x.eventId) in DedupeKeys(x) && EventKey(x.eventId) in DedupeKeys(y);
    } else if x.isTick && y.isTick && TradeIdOf(x) == TradeIdOf(y) != "" {
      assert TradeKey(TradeIdOf(x)) in DedupeKeys(x) && TradeKey(TradeIdOf(x)) in DedupeKeys(y);
    } else if x.isTick && y.isTick && tx == ty {
      assert tx in DedupeKeys(x) && tx in DedupeKeys(y);
    }
  }

  /** A log of mutually unlike events is replayed in full. */
  lemma UnlikeAreReplayed(log: seq<RawEvent>)
    requires forall i, j :: 0 <= i < j < |log| ==> Unlike(log[i], log[j])
    ensures multiset(Replayed(log, None)) == multiset(log)
  {
    var sorted := Sort(EventLe, log);
    SortMultiset(EventLe, log);
    UnlikeStay(log, sorted);
    UnlikeAreAccepted(DedupeKeys, {}, sorted);
  }

  lemma UnlikeStay(log: seq<RawEvent>, sorted: seq<RawEvent>)
    requires forall i, j :: 0 <= i < j < |log| ==> Unlike(log[i], log[j])
    requires multiset(sorted) == multiset(log)
    ensures PairwiseDisjoint(DedupeKeys, sorted)
  {
    forall i, j | 0 <= i < j < |sorted|
      ensures DedupeKeys(sorted[i]) !! DedupeKeys(sorted[j])
    {
      var a, b := TwoPlaces(log, sorted, i, j);
      SharedKeys(log[a], log[b]);
      SharedKeys(log[b], log[a]);
    }
  }

  lemma RestOf(events: seq<RawEvent>, k: nat)
    requires k < |events|
    ensures multiset(Without(events, k)) == multiset(events) - multiset{events[k]}
  {
    assert events == events[..k] + [events[k]] + events[k + 1..];
  }

  /** Two places of one list are two places of any rearrangement of it. */
  lemma TwoPlaces(log: seq<RawEvent>, sorted: seq<RawEvent>, i: nat, j: nat) returns (a: nat, b: nat)
    requires multiset(sorted) == multiset(log) && i < j < |sorted|
    ensures a < |log| && b < |log| && a != b && log[a] == sorted[i] && log[b] == sorted[j]
  {
    var x, y := sorted[i], sorted[j];
    RestOf(sorted, j);
    assert Without(sorted, j)[i] == x;
    assert y in multiset(log);
    b :| 0 <= b < |log| && log[b] == y;
    RestOf(log, b);
    assert x in multiset(Without(sorted, j));
    var c :| 0 <= c < |Without(log, b)| && Without(log, b)[c] == x;
    a := if c < b then c else c + 1;
  }

  /** One timestamp is after another: every one is after a missing one but a missing one itself,
      and an unreadable or missing one counts as instant 0 beside one that is there. */
  lemma IsoAfterMeans(left: Stamp, right: Stamp)
    ensures right.text == "" ==> (IsoAfter(left, right) <==> left.text != "")
    ensures right.text != "" ==>
              (IsoAfter(left, right) <==> (if left.text == "" then 0 else left.instant) > right.instant)
  {
  }

  /** The timestamps that a cached snapshot recovers from: the latest of its freshness and its
      other ones, if any is there. */
  lemma RecoveredIsLatest(c: CachedStamps, s: Stamp)
    requires s.text != "" && (s == c.source || s == c.ingest || s == c.updated || s in c.others)
    ensures var r := c.Recovered();
            && r.text != "" && s.instant <= r.instant
            && (r == c.source || r == c.ingest || r == c.updated || r in c.others)
  {
    LatestIsGreatest(c.All());
    assert c.All()[0] == c.source && c.All()[1] == c.ingest && c.All()[2] == c.updated;
    assert c.All()[3..] == c.others;
  }

  // ---------- what a backfilled event says ----------

  /** The candidates of a backfill copy the rows later than the recovered timestamp, or all rows
      without one. */
  lemma BackfillCopiesRows(symbol: string, rows: seq<Row>, last: Stamp, now: Stamp, e: RawEvent)
    requires Identified(Some(rows)) && e in BackfillEvents(symbol, Some(rows), last, now)
    ensures exists r :: r in rows && (last.text == "" || r.ts.instant > last.instant)
                        && e.isTick && e.ts == r.ts && e.price == r.price && e.volume == r.volume
                        && e.turnover == r.turnover && e.tradeId == r.tradeId && e.rowHash == r.rowHash
  {
    SortMembers(RowLe, rows);
    EventsOfRowsMembers(symbol, Sort(RowLe, rows), last, now);
  }

  lemma LaterRowIsCandidate(symbol: string, rows: seq<Row>, last: Stamp, now: Stamp, r: Row)
    requires Identified(Some(rows)) && r in rows && (last.text == "" || r.ts.instant > last.instant)
    ensures exists e :: e in BackfillEvents(symbol, Some(rows), last, now)
                        && e.isTick && e.ts == r.ts && e.price == r.price && e.volume == r.volume
                        && e.turnover == r.turnover && e.tradeId == r.tradeId && e.rowHash == r.rowHash
  {
    SortMembers(RowLe, rows);
    EventsOfRowsMembers(symbol, Sort(RowLe, rows), last, now);
    assert EventOf(symbol, r, 0, now) in BackfillEvents(symbol, Some(rows), last, now);
  }

  /** A row without a timestamp is stamped with the clock. */
  lemma StampedWithClock(symbol: string, row: Row, index: nat, now: Stamp)
    ensures EventOf(symbol, row, index, now).ts == if row.ts.text == "" then now else row.ts
  {
  }

  lemma {:induction false} EventsOfFrom(symbol: string, rows: seq<Row>, last: Stamp, now: Stamp)
    requires forall r :: r in rows ==> r.ts.text != ""
    ensures forall e :: e in EventsOfRows(symbol, rows, last, now) ==> exists r :: r in rows && e.ts == r.ts
  {
    if rows != [] {
      var front, row := rows[..|rows| - 1], rows[|rows| - 1];
      EventsOfFrom(symbol, front, last, now);
      assert rows == front + [row];
    }
  }

  lemma {:induction false} FrontRowsEarlier(rows: seq<Row>, r: Row)
    requires SortedBy(RowLe, rows) && rows != [] && r in rows[..|rows| - 1]
    ensures LexLe(r.ts.text, rows[|rows| - 1].ts.text)
  {
    var k :| 0 <= k < |rows| - 1 && rows[k] == r;
    assert RowLe(rows[k], rows[|rows| - 1]);
  }

  ghost predicate InTextOrder(events: seq<RawEvent>) {
    forall i, j :: 0 <= i < j < |events| ==> LexLe(events[i].ts.text, events[j].ts.text)
  }

  lemma {:induction false} EventsInRowOrder(symbol: string, rows: seq<Row>, last: Stamp, now: Stamp)
    requires SortedBy(RowLe, rows) && forall r :: r in rows ==> r.ts.text != ""
    ensures InTextOrder(EventsOfRows(symbol, rows, last, now))
  {
    if rows != [] {
      var front, row := rows[..|rows| - 1], rows[|rows| - 1];
      assert forall r :: r in front ==> r in rows;
      assert row in rows;
      EventsInRowOrder(symbol, front, last, now);
      EventsOfFrom(symbol, front, last, now);
      var events := EventsOfRows(symbol, front, last, now);
      forall i | 0 <= i < |events|
        ensures LexLe(events[i].ts.text, row.ts.text)
      {
        assert events[i] in events;
        var r :| r in front && events[i].ts == r.ts;
        FrontRowsEarlier(rows, r);
      }
    }
  }

  /** The candidates come in ascending order of their timestamps as written. */
  lemma BackfillInTextOrder(symbol: string, rows: seq<Row>, last: Stamp, now: Stamp)
    requires Identified(Some(rows))
    ensures InTextOrder(BackfillEvents(symbol, Some(rows), last, now))
  {
    RowOrder();
    SortSorted(RowLe, rows);
    SortMembers(RowLe, rows);
    EventsInRowOrder(symbol, Sort(RowLe, rows), last, now);
  }

  lemma RowOrder()
    ensures TotalPreorder(RowLe)
  {
    forall x, y
      ensures RowLe(x, y) || RowLe(y, x)
    {
      LexTotal(x.ts.text, y.ts.text);
    }
    forall x, y, z | RowLe(x, y) && RowLe(y, z)
      ensures RowLe(x, z)
    {
      LexTransitive(x.ts.text, y.ts.text, z.ts.text);
    }
  }

  /** The k-th candidate is numbered k + 1, which identifies a row that has no id of its own. */
  lemma {:induction false} NumberedFromOne(symbol: string, rows: seq<Row>, last: Stamp, now: Stamp, k: nat)
    requires k < |EventsOfRows(symbol, rows, last, now)|
    ensures exists r :: r in rows && EventsOfRows(symbol, rows, last, now)[k] == EventOf(symbol, r, k + 1, now)
  {
    var front, row := rows[..|rows| - 1], rows[|rows| - 1];
    assert rows == front + [row];
    if k < |EventsOfRows(symbol, front, last, now)| {
      NumberedFromOne(symbol, front, last, now, k);
      var r :| r in front && EventsOfRows(symbol, front, last, now)[k] == EventOf(symbol, r, k + 1, now);
      assert r in rows;
    } else {
      assert row in rows;
    }
  }

  // ---------- event ids ----------

  ghost predicate IsSafe(s: string) {
    forall i :: 0 <= i < |s| ==> IsSafeChar(s[i])
  }

  lemma {:induction false} CollapsedIsSafe(s: string)
    ensures IsSafe(Collapsed(s)) && (IsSafe(s) ==> Collapsed(s) == s)
  {
    if s != "" {
      CollapsedIsSafe(s[..|s| - 1]);
      if IsSafe(s) {
        assert s == s[..|s| - 1] + [s[|s| - 1]];
      }
    }
  }

  lemma {:induction false} StrippedIsSafe(s: string)
    requires IsSafe(s)
    ensures IsSafe(StripLeft(s)) && (StripLeft(s) != "" ==> StripLeft(s)[0] != '-')
    ensures s != "" && s[0] != '-' ==> StripLeft(s) == s
  {
    if s != "" && s[0] == '-' {
      StrippedIsSafe(s[1..]);
    }
  }

  lemma {:induction false} StrippedRightIsSafe(s: string)
    requires IsSafe(s)
    ensures var r := StripRight(s);
            && IsSafe(r) && r <= s && (r != "" ==> r[|r| - 1] != '-')
            && (s != "" && s[|s| - 1] != '-' ==> r == s)
  {
    if s != "" && s[|s| - 1] == '-' {
      StrippedRightIsSafe(s[..|s| - 1]);
    }
  }

  /** Only letters, digits, '_', '.' and '-'. */
  ghost predicate IsPlain(s: string) {
    forall i :: 0 <= i < |s| ==>
      'A' <= s[i] <= 'Z' || 'a' <= s[i] <= 'z' || '0' <= s[i] <= '9' || s[i] == '_' || s[i] == '.' || s[i] == '-'
  }

  /** A safe part is never empty, has only letters, digits, '_', '.' and '-', and no '-' at
      either end; text that is so already stays as it is. */
  lemma SafePartMeans(s: string)
    ensures var r := SafePart(s);
            && r != "" && IsPlain(r) && r[0] != '-' && r[|r| - 1] != '-'
            && (IsPlain(s) && s != "" && s[0] != '-' && s[|s| - 1] != '-' ==> r == s)
  {
    CollapsedIsSafe(s);
    StrippedIsSafe(Collapsed(s));
    StrippedRightIsSafe(StripLeft(Collapsed(s)));
  }

  /** A run of other characters between two safe ones becomes a single '-'. */
  lemma {:induction false} RunBecomesDash(a: string, gap: string, c: char)
    requires IsSafe(a) && IsSafeChar(c) && gap != "" && forall i :: 0 <= i < |gap| ==> !IsSafeChar(gap[i])
    ensures Collapsed(a + gap) == a + "-" && Collapsed(a + gap + [c]) == a + "-" + [c]
  {
    var n := |gap| - 1;
    assert (a + gap)[..|a + gap| - 1] == a + gap[..n];
    assert (a + gap + [c])[..|a + gap|] == a + gap;
    if n == 0 {
      CollapsedIsSafe(a);
      assert a + gap[..0] == a;
    } else {
      RunBecomesDash(a, gap[..n], c);
      assert (a + gap[..n])[|a + gap[..n]| - 1] == gap[n - 1];
    }
  }

  /** A row is identified by its trade id, or else its row hash, or else its number. */
  lemma EventIdMeans(symbol: string, row: Row, index: nat, now: Stamp)
    ensures EventOf(symbol, row, index, now).eventId
            == "raw-mammoth-backfill-" + symbol + "-" + SafePart(row.ts.text) + "-"
               + SafePart(if row.tradeId != "" then row.tradeId
                          else if row.rowHash != "" then row.rowHash else Digits(index))
  {
  }

  /** Numbers are written in decimal. */
  lemma {:induction false} DigitsAreDecimal(n: nat)
    ensures Digits(n) != "" && (forall i :: 0 <= i < |Digits(n)| ==> '0' <= Digits(n)[i] <= '9')
    ensures n >= 10 ==> Digits(n) == Digits(n / 10) + Digits(n % 10)
    ensures n < 10 ==> Digits(n) == ['0' + n as char]
  {
    if n >= 10 {
      DigitsAreDecimal(n / 10);
    }
  }

  /** A backfill only adds events later than everything that was replayed. */
  lemma BackfillIsLater(log: seq<RawEvent>, symbol: string, table: Option<seq<Row>>, now: Stamp, x: RawEvent,
                        e: RawEvent)
    requires Identified(table)
    requires x in Replayed(log, None) && x.ts.text != "" && e in Backfilled(log, None, symbol, table, now)
    ensures SortValue(x.ts) < SortValue(e.ts)
  {
    var a, last := Replayed(log, None), RecoveredTs(log, None);
    LastTsIsLatest(a);
    AcceptedMembers(DedupeKeys, AllKeys(DedupeKeys, a), BackfillEvents(symbol, table, last, now));
    SortMembers(RowLe, table.value);
    EventsOfRowsMembers(symbol, Sort(RowLe, table.value), last, now);
  }

  // ---------- recovering with a cached snapshot ----------

  /** From a given recovered timestamp the backfill is empty exactly when no row is later. */
  lemma BackfillNeedsMissingRow(log: seq<RawEvent>, from: Stamp, symbol: string, rows: seq<Row>, now: Stamp)
    requires Identified(Some(rows))
    ensures Backfilled(log, Some(from), symbol, Some(rows), now) == []
            <==> forall r :: r in rows ==> !IsMissing(r, from)
  {
    var candidates := BackfillEvents(symbol, Some(rows), from, now);
    SortMembers(RowLe, rows);
    EventsOfRowsMembers(symbol, Sort(RowLe, rows), from, now);
    AcceptedMembers(DedupeKeys, {}, candidates);
    if candidates != [] {
      assert candidates[0] in candidates;
    }
    forall r | r in rows && IsMissing(r, from)
      ensures EventOf(symbol, r, 0, now) in candidates
    {
    }
  }

  /** A row is later than the latest of some timestamps exactly when it is later than each. */
  lemma MissingAfterAll(r: Row, stamps: seq<Stamp>)
    requires r.ts.text != ""
    ensures IsMissing(r, LatestOf(stamps))
            <==> forall s :: s in stamps && s.text != "" ==> SortValue(s) < SortValue(r.ts)
  {
    LatestIsGreatest(stamps);
  }

  /** Alerts leave the snapshot alone, or move its freshness to the last of them and the clock. */
  lemma {:induction false} AlertsMoveFreshness(c: CachedStamps, events: seq<RawEvent>, isBigTrade: RawEvent -> bool,
                                               now: Stamp)
    ensures var after := AfterAlerts(Some(c), events, isBigTrade, now);
            if exists e :: e in events && isBigTrade(e)
            then exists e :: e in events && isBigTrade(e)
                             && after == Some(c.(source := e.ts, ingest := now, updated := now))
            else after == Some(c)
  {
    if events != [] {
      var front, last := events[..|events| - 1], events[|events| - 1];
      AlertsMoveFreshness(c, front, isBigTrade, now);
      assert events == front + [last];
    }
  }

  /** When a second recovery with the snapshot that the first one left backfills nothing: with
      no cached snapshot, or when every row has a timestamp of that snapshot at or after it. */
  lemma SecondRecoveryIsIdle(log: seq<RawEvent>, snapshot: Option<CachedStamps>, isBigTrade: RawEvent -> bool,
                             symbol: string, table: Option<seq<Row>>, now: Stamp, later: Stamp)
    requires Identified(table)
    ensures var added := Backfilled(log, Stamped(snapshot), symbol, table, now);
            var left := AfterAlerts(snapshot, added, isBigTrade, now);
            Backfilled(log + added, Stamped(left), symbol, table, later) == []
            <==> left.None? || table.None?
                 || forall r :: r in table.value ==>
                      exists s :: s in left.value.All() && s.text != "" && SortValue(r.ts) <= SortValue(s)
  {
    var added := Backfilled(log, Stamped(snapshot), symbol, table, now);
    var left := AfterAlerts(snapshot, added, isBigTrade, now);
    if snapshot.None? {
      RecoverTwice(log, symbol, table, now, later);
      NoSnapshotStaysNone(added, isBigTrade, now);
    } else {
      AlertsMoveFreshness(snapshot.value, added, isBigTrade, now);
      if table.Some? {
        BackfillNeedsMissingRow(log + added, left.value.Recovered(), symbol, table.value, later);
        forall r | r in table.value
          ensures IsMissing(r, left.value.Recovered())
                  <==> !exists s :: s in left.value.All() && s.text != "" && SortValue(r.ts) <= SortValue(s)
        {
          MissingAfterAll(r, left.value.All());
        }
      }
    }
  }

  lemma {:induction false} NoSnapshotStaysNone(events: seq<RawEvent>, isBigTrade: RawEvent -> bool, now: Stamp)
    ensures AfterAlerts(None, events, isBigTrade, now) == None
  {
    if events != [] {
      NoSnapshotStaysNone(events[..|events| - 1], isBigTrade, now);
    }
  }

  lemma {:induction false} RowEventsIgnoreClock(symbol: string, rows: seq<Row>, last: Stamp, now: Stamp, later: Stamp)
    requires forall r :: r in rows ==> r.ts.text != ""
    ensures EventsOfRows(symbol, rows, last, now) == EventsOfRows(symbol, rows, last, later)
  {
    if rows != [] {
      assert rows[|rows| - 1] in rows;
      RowEventsIgnoreClock(symbol, rows[..|rows| - 1], last, now, later);
    }
  }

  /** With a cached snapshot and no alert the second recovery repeats the first one's backfill:
      the log then holds each of its events twice. */
  lemma WithoutAlertsBackfillRepeats(log: seq<RawEvent>, c: CachedStamps, isBigTrade: RawEvent -> bool, symbol: string,
                                     table: Option<seq<Row>>, now: Stamp, later: Stamp)
    requires Identified(table)
    requires forall e :: e in Backfilled(log, Some(c.Recovered()), symbol, table, now) ==> !isBigTrade(e)
    ensures var added := Backfilled(log, Some(c.Recovered()), symbol, table, now);
            var left := AfterAlerts(Some(c), added, isBigTrade, now);
            Backfilled(log + added, Stamped(left), symbol, table, later) == added
  {
    var added := Backfilled(log, Some(c.Recovered()), symbol, table, now);
    AlertsMoveFreshness(c, added, isBigTrade, now);
    if table.Some? {
      SortMembers(RowLe, table.value);
      RowEventsIgnoreClock(symbol, Sort(RowLe, table.value), c.Recovered(), now, later);
    }
  }

  /** With an alert in the backfill and no row ahead of the clock the second recovery is idle. */
  lemma {:induction false} AfterAlertSecondIsIdle(log: seq<RawEvent>, c: CachedStamps, isBigTrade: RawEvent -> bool,
                                                  symbol: string, rows: seq<Row>, now: Stamp, later: Stamp)
    requires Identified(Some(rows)) && now.text != ""
    requires exists e :: e in Backfilled(log, Some(c.Recovered()), symbol, Some(rows), now) && isBigTrade(e)
    requires forall r :: r in rows ==> SortValue(r.ts) <= SortValue(now)
    ensures var added := Backfilled(log, Some(c.Recovered()), symbol, Some(rows), now);
            var left := AfterAlerts(Some(c), added, isBigTrade, now);
            Backfilled(log + added, Stamped(left), symbol, Some(rows), later) == []
  {
    var added := Backfilled(log, Some(c.Recovered()), symbol, Some(rows), now);
    var left := AfterAlerts(Some(c), added, isBigTrade, now);
    AlertsMoveFreshness(c, added, isBigTrade, now);
    assert left.value.All()[1] == now;
    SecondRecoveryIsIdle(log, Some(c), isBigTrade, symbol, Some(rows), now, later);
  }

  predicate Never(e: RawEvent) {
    false
  }

  lemma {:induction false} LaterRowIsBackfilled(c: CachedStamps, r: Row, symbol: string, now: Stamp)
    requires r.ts.text != "" && r.tradeId != ""
    requires forall s :: s in c.All() && s.text != "" ==> SortValue(s) < SortValue(r.ts)
    ensures Backfilled([], Some(c.Recovered()), symbol, Some([r]), now) != []
  {
    MissingAfterAll(r, c.All());
    assert r in [r];
    BackfillNeedsMissingRow([], c.Recovered(), symbol, [r], now);
  }

  /** One table row later than the cached snapshot, and no alert: the second recovery is not idle. */
  lemma {:induction false} SecondRecoveryCanRepeat(early: Stamp, late: Stamp, symbol: string, trade: string)
    requires early.text != "" && late.text != "" && early.instant < late.instant && trade != ""
    ensures var c, r := CachedStamps(early, NO_STAMP, NO_STAMP, []), Row(late, 1.0, 1, 1.0, trade, "");
            var added := Backfilled([], Some(c.Recovered()), symbol, Some([r]), NO_STAMP);
            var left := AfterAlerts(Some(c), added, Never, NO_STAMP);
            added != [] && Backfilled([] + added, Stamped(left), symbol, Some([r]), NO_STAMP) == added
  {
    var c, r := CachedStamps(early, NO_STAMP, NO_STAMP, []), Row(late, 1.0, 1, 1.0, trade, "");
    LaterRowIsBackfilled(c, r, symbol, NO_STAMP);
    WithoutAlertsBackfillRepeats([], c, Never, symbol, Some([r]), NO_STAMP, NO_STAMP);
  }
}
