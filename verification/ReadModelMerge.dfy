/** The snapshot read model (production_adapters.py): each write merges its minute bars over
    the stored ones, so that a stored minute is lost only if the stored snapshot cannot be read. */
module ReadModelMerge {
  import opened Sequences
  import opened TradingSession
  import opened MinuteBars
  import opened SnapshotBars

  /** A terminal snapshot: its bars, the dates its freshness names, and its inner session. */
  datatype Snapshot = Snapshot(bars: seq<RawBar>, minuteBarsDate: Option<int>, realtimeSession: Option<int>,
                               tradeDate: Option<int>, isHistorical: Option<bool>, body: int)

  /** `snapshot_has_current_trade_date_minute_bars`. */
  predicate HasCurrentBars(s: Snapshot, date: int) {
    s.minuteBarsDate == Some(date)
  }

  /** `snapshot_is_current_realtime_session`. */
  predicate IsCurrentSession(s: Snapshot, date: int) {
    || s.minuteBarsDate == Some(date)
    || s.realtimeSession == Some(date)
    || (s.tradeDate == Some(date) && s.isHistorical == Some(false))
  }

  /** The last bar of each regular minute of the date, bucketed. */
  function LastByMinute(bars: seq<RawBar>, date: int): map<int, RawBar> {
    if bars == [] then map[]
    else
      var front, bar := LastByMinute(bars[..|bars| - 1], date), bars[|bars| - 1];
      var minute := RegularMinute(bar, Some(date));
      if minute.Some? then front[minute.value := Bucketed(bar)] else front
  }

  /** The write keeps the stored snapshot, replaces it, or merges over its bars. */
  function Merged(date: int, s: Snapshot, existing: Option<Snapshot>): Snapshot {
    if existing.None? || !HasCurrentBars(existing.value, date) then s
    else if !IsCurrentSession(s, date) then existing.value
    else
      var union := LastByMinute(existing.value.bars, date) + LastByMinute(s.bars, date);
      if existing.value.bars == [] || union == map[] then s
      else s.(bars := InKeyOrder(union), minuteBarsDate := Some(date))
  }

  /** `merge_existing_minute_bars`. */
  method MergeExistingMinuteBars(date: int, s: Snapshot, existing: Option<Snapshot>) returns (r: Snapshot)
    ensures r == Merged(date, s, existing)
  {
    if existing.None? || !HasCurrentBars(existing.value, date) {
      return s;
    }
    if !IsCurrentSession(s, date) {
      return existing.value;
    }
    if existing.value.bars == [] {
      return s;
    }
    var stored := existing.value.bars;
    var merged: map<int, RawBar> := map[];
    for i := 0 to |stored|
      invariant merged == LastByMinute(stored[..i], date)
    {
      assert stored[..i + 1][..i] == stored[..i];
      var minute := RegularMinute(stored[i], Some(date));
      if minute.Some? {
        merged := merged[minute.value := Bucketed(stored[i])];
      }
    }
    assert stored[..|stored|] == stored;
    ghost var base := merged;
    for i := 0 to |s.bars|
      invariant merged == base + LastByMinute(s.bars[..i], date)
    {
      assert s.bars[..i + 1][..i] == s.bars[..i];
      var minute := RegularMinute(s.bars[i], Some(date));
      if minute.Some? {
        merged := merged[minute.value := Bucketed(s.bars[i])];
      }
    }
    assert s.bars[..|s.bars|] == s.bars;
    if merged == map[] {
      return s;
    }
    return s.(bars := InKeyOrder(merged), minuteBarsDate := Some(date));
  }

  /** A write, with whether the read before it and the transaction itself succeed. */
  datatype Write = Write(snapshot: Snapshot, readOk: bool, writeOk: bool)

  function Stored(date: int, existing: Option<Snapshot>, w: Write): Option<Snapshot> {
    if w.writeOk then Some(Merged(date, w.snapshot, if w.readOk then existing else None)) else existing
  }

  /** The keys of one snapshot write. Holdings are kept per symbol, whatever the date. */
  datatype Key =
    | SnapshotKey(date: int, symbol: string)
    | MinuteKey(date: int, symbol: string)
    | AlertsKey(date: int, symbol: string)
    | QueueKey(date: int, symbol: string)
    | StateKey(date: int, symbol: string)
    | HoldingKey(symbol: string)

  /** A stored record: a snapshot, its bars, the part of a snapshot that belongs under the key,
      or the runtime state that is written on its own. */
  datatype Value = Whole(snapshot: Snapshot) | Minutes(bars: seq<RawBar>) | PartOf(snapshot: Snapshot)
      | Runtime(state: int)

  /** The six records of one write. */
  function RecordsOf(date: int, symbol: string, s: Snapshot): map<Key, Value> {
    map[SnapshotKey(date, symbol) := Whole(s), MinuteKey(date, symbol) := Minutes(s.bars),
        AlertsKey(date, symbol) := PartOf(s), QueueKey(date, symbol) := PartOf(s),
        StateKey(date, symbol) := PartOf(s), HoldingKey(symbol) := PartOf(s)]
  }

  function SnapshotAt(store: map<Key, Value>, date: int, symbol: string): Option<Snapshot> {
    var key := SnapshotKey(date, symbol);
    if key in store && store[key].Whole? then Some(store[key].snapshot) else None
  }

  /** Under this date and symbol there is nothing, or a snapshot with its own bars, alerts and
      queue beside it and holdings for the symbol. */
  predicate AgreesAt(store: map<Key, Value>, d: int, s: string) {
    var keys := {MinuteKey(d, s), AlertsKey(d, s), QueueKey(d, s)};
    if SnapshotKey(d, s) !in store then keys !! store.Keys
    else
      && store[SnapshotKey(d, s)].Whole? && keys <= store.Keys && HoldingKey(s) in store
      && var snapshot := store[SnapshotKey(d, s)].snapshot;
         && store[MinuteKey(d, s)] == Minutes(snapshot.bars)
         && store[AlertsKey(d, s)] == store[QueueKey(d, s)] == PartOf(snapshot)
  }

  ghost predicate Agrees(store: map<Key, Value>) {
    forall d, s :: AgreesAt(store, d, s)
  }

  lemma WrittenAgrees(store: map<Key, Value>, date: int, symbol: string, s: Snapshot)
    requires Agrees(store)
    ensures Agrees(store + RecordsOf(date, symbol, s))
    ensures SnapshotAt(store + RecordsOf(date, symbol, s), date, symbol) == Some(s)
  {
    var r := store + RecordsOf(date, symbol, s);
    forall d, t
      ensures AgreesAt(r, d, t)
    {
      assert AgreesAt(store, d, t);
      if d == date && t == symbol {
        assert AgreesAt(RecordsOf(date, symbol, s), d, t);
      }
    }
  }

  lemma StateWrittenAgrees(store: map<Key, Value>, date: int, symbol: string, state: int)
    requires Agrees(store)
    ensures Agrees(store[StateKey(date, symbol) := Runtime(state)])
  {
    var r := store[StateKey(date, symbol) := Runtime(state)];
    forall d, t
      ensures AgreesAt(r, d, t)
    {
      assert AgreesAt(store, d, t);
    }
  }

  class RedisSnapshotCache {
    var store: map<Key, Value>
    var writes: nat
    var failures: nat

    ghost predicate Valid()
      reads this
    {
      Agrees(store)
    }

    constructor ()
      ensures Valid() && store == map[] && writes == failures == 0
    {
      store, writes, failures := map[], 0, 0;
    }

    /** `set_terminal_snapshot`; a failed transaction changes no key and is raised. */
    method SetTerminalSnapshot(date: int, symbol: string, w: Write) returns (raised: bool)
      requires Valid()
      modifies this
      ensures Valid()
      ensures raised == !w.writeOk && writes == old(writes) + 1 && failures == old(failures) + if raised then 1 else 0
      ensures SnapshotAt(store, date, symbol) == Stored(date, SnapshotAt(old(store), date, symbol), w)
      ensures store == if raised then old(store)
          else old(store) + RecordsOf(date, symbol, SnapshotAt(store, date, symbol).value)
    {
      var existing := if w.readOk then SnapshotAt(store, date, symbol) else None;
      var snapshot := MergeExistingMinuteBars(date, w.snapshot, existing);
      writes := writes + 1;
      if !w.writeOk {
        failures := failures + 1;
        return true;
      }
      WrittenAgrees(store, date, symbol, snapshot);
      store := store + RecordsOf(date, symbol, snapshot);
      return false;
    }

    /** `set_terminal_state`: the state key can be newer than the snapshot beside it. */
    method SetTerminalState(date: int, symbol: string, state: int, writeOk: bool) returns (raised: bool)
      requires Valid()
      modifies this
      ensures Valid() && raised == !writeOk
      ensures store == if raised then old(store) else old(store)[StateKey(date, symbol) := Runtime(state)]
      ensures writes == old(writes) + 1 && failures == old(failures) + if raised then 1 else 0
    {
      writes := writes + 1;
      if !writeOk {
        failures := failures + 1;
        return true;
      }
      StateWrittenAgrees(store, date, symbol, state);
      store := store[StateKey(date, symbol) := Runtime(state)];
      return false;
    }
  }

  // ---------- sequences of writes ----------

  function AfterWrites(date: int, start: Snapshot, ws: seq<Write>): Option<Snapshot> {
    if ws == [] then Some(start) else Stored(date, AfterWrites(date, start, ws[..|ws| - 1]), ws[|ws| - 1])
  }

  /** The writes that reach the stored bars: performed, and of the current session. */
  predicate Counts(w: Write, date: int) {
    w.writeOk && IsCurrentSession(w.snapshot, date)
  }

  /** For each minute the last bar that a counting write held, over what was stored first. */
  function WrittenBars(date: int, start: Snapshot, ws: seq<Write>): map<int, RawBar> {
    if ws == [] then LastByMinute(start.bars, date)
    else
      var front, w := WrittenBars(date, start, ws[..|ws| - 1]), ws[|ws| - 1];
      if Counts(w, date) then front + LastByMinute(w.snapshot.bars, date) else front
  }

  lemma {:induction false} LastByMinuteEntries(bars: seq<RawBar>, date: int)
    ensures Entries(LastByMinute(bars, date), Some(date))
  {
    if bars != [] {
      var bar := bars[|bars| - 1];
      LastByMinuteEntries(bars[..|bars| - 1], date);
      if RegularMinute(bar, Some(date)).Some? {
        EntryOf(bar, Some(date), RegularMinute(bar, Some(date)).value);
      }
    }
  }

  lemma LastByMinuteStep(front: seq<RawBar>, bar: RawBar, date: int)
    requires IsEntry(bar, BarMinute(bar), Some(date))
    ensures LastByMinute(front + [bar], date) == LastByMinute(front, date)[BarMinute(bar) := bar]
  {
    assert (front + [bar])[..|front|] == front;
  }

  /** A clean list holds exactly what it lists. */
  lemma {:induction false} LastByMinuteOfClean(bars: seq<RawBar>, date: int)
    requires Clean(bars, Some(date))
    ensures LastByMinute(bars, date) == MergedByMinute(bars, Some(date))
  {
    if bars != [] {
      var front, last := bars[..|bars| - 1], bars[|bars| - 1];
      CleanPrefix(bars, Some(date));
      LastByMinuteOfClean(front, date);
      CleanIsFixed(front, Some(date));
      if front != [] {
        assert front[|front| - 1] in front;
      }
      assert bars == front + [last];
      MergedStep(front, last, Some(date));
      LastByMinuteStep(front, last, date);
    }
  }

  /** Listing a per-minute dictionary and reading it back gives the dictionary. */
  lemma ReadBack(m: map<int, RawBar>, date: int)
    requires Entries(m, Some(date))
    ensures Clean(InKeyOrder(m), Some(date)) && LastByMinute(InKeyOrder(m), date) == m
  {
    var r := InKeyOrder(m);
    ListedClean(m, Some(date));
    LastByMinuteOfClean(r, date);
    var n := MergedByMinute(r, Some(date));
    CleanIsFixed(r, Some(date));
    MergedEntries(r, Some(date));
    ListedClean(n, Some(date));
    assert InKeyOrder(n) == r;
    forall k | k in m
      ensures k in n && n[k] == m[k]
    {
      assert IsEntry(m[k], k, Some(date));
      assert m[k] in r;
      var i :| 0 <= i < |r| && r[i] == m[k];
    }
    forall k | k in n
      ensures k in m
    {
      assert IsEntry(n[k], k, Some(date));
      assert n[k] in r;
      var i :| 0 <= i < |r| && r[i] == n[k];
    }
  }

  lemma UnionEntries(a: map<int, RawBar>, b: map<int, RawBar>, date: int)
    requires Entries(a, Some(date)) && Entries(b, Some(date))
    ensures Entries(a + b, Some(date))
  {
  }

  /** Once the stored snapshot has bars of the date, any further writes whose reads succeed
      keep it current, and it holds for each minute the last bar that a write of the current
      session held; after the first such write the bars are clean and strictly ordered. */
  lemma {:induction false} WritesKeepMinutes(date: int, start: Snapshot, ws: seq<Write>)
    requires HasCurrentBars(start, date) && LastByMinute(start.bars, date) != map[]
    requires forall i :: 0 <= i < |ws| ==> ws[i].readOk
    ensures var r := AfterWrites(date, start, ws);
            && r.Some? && HasCurrentBars(r.value, date)
            && LastByMinute(r.value.bars, date) == WrittenBars(date, start, ws)
            && LastByMinute(start.bars, date).Keys <= LastByMinute(r.value.bars, date).Keys
            && ((exists i :: 0 <= i < |ws| && Counts(ws[i], date)) ==> Clean(r.value.bars, Some(date)))
            && ((forall i :: 0 <= i < |ws| ==> !Counts(ws[i], date)) ==> r.value == start)
  {
    if ws != [] {
      var front, w := ws[..|ws| - 1], ws[|ws| - 1];
      WritesKeepMinutes(date, start, front);
      var before := AfterWrites(date, start, front).value;
      if Counts(w, date) {
        var a, b := LastByMinute(before.bars, date), LastByMinute(w.snapshot.bars, date);
        LastByMinuteEntries(before.bars, date);
        LastByMinuteEntries(w.snapshot.bars, date);
        UnionEntries(a, b, date);
        UnionNotEmpty(a, b);
        ReadBack(a + b, date);
      } else {
        assert AfterWrites(date, start, ws) == Some(before);
        assert forall i :: 0 <= i < |front| ==> front[i] == ws[i];
      }
    }
  }

  /** A snapshot that says it is of this date: by its bars, its realtime session, or its own
      trade date unless that is marked as historical. */
  predicate SaysCurrent(s: Snapshot, date: int) {
    || s.minuteBarsDate == Some(date) || s.realtimeSession == Some(date)
    || (s.tradeDate == Some(date) && s.isHistorical == Some(false))
  }

  /** The last snapshot that was written while it said so, or the one at the start. */
  function LastCurrent(date: int, start: Snapshot, ws: seq<Write>): Snapshot {
    if ws == [] then start
    else
      var w := ws[|ws| - 1];
      if w.writeOk && SaysCurrent(w.snapshot, date) then w.snapshot else LastCurrent(date, start, ws[..|ws| - 1])
  }

  /** Over any writes whose reads succeed, the stored snapshot is the last current one in every
      field but its bars and their date; what is not current is not stored. */
  lemma {:induction false} LastCurrentWriteWins(date: int, start: Snapshot, ws: seq<Write>)
    requires start.minuteBarsDate == Some(date) && LastByMinute(start.bars, date) != map[]
    requires forall i :: 0 <= i < |ws| ==> ws[i].readOk
    ensures var r, last := AfterWrites(date, start, ws), LastCurrent(date, start, ws);
            r.Some? && r.value == last.(bars := r.value.bars, minuteBarsDate := Some(date))
  {
    if ws != [] {
      var front, w := ws[..|ws| - 1], ws[|ws| - 1];
      LastCurrentWriteWins(date, start, front);
      WritesKeepMinutes(date, start, front);
      var before := AfterWrites(date, start, front).value;
      if w.writeOk && SaysCurrent(w.snapshot, date) {
        UnionNotEmpty(LastByMinute(before.bars, date), LastByMinute(w.snapshot.bars, date));
      }
    }
  }

  /** What a write does, by what it finds and what it brings. */
  lemma WriteMeans(date: int, existing: Option<Snapshot>, w: Write)
    ensures var r := Stored(date, existing, w);
            && (!w.writeOk ==> r == existing)
            && (w.writeOk && (!w.readOk || existing.None? || existing.value.minuteBarsDate != Some(date)) ==>
                  r == Some(w.snapshot))
            && (w.writeOk && w.readOk && existing.Some? && existing.value.minuteBarsDate == Some(date) ==>
                  && (!SaysCurrent(w.snapshot, date) ==> r == existing)
                  && (SaysCurrent(w.snapshot, date) && existing.value.bars == [] ==> r == Some(w.snapshot))
                  && (SaysCurrent(w.snapshot, date) && existing.value.bars != [] ==>
                        MergesInto(date, existing.value, w.snapshot, r)))
  {
    if existing.Some? {
      var a, b := LastByMinute(existing.value.bars, date), LastByMinute(w.snapshot.bars, date);
      LastByMinuteEntries(existing.value.bars, date);
      LastByMinuteEntries(w.snapshot.bars, date);
      UnionEntries(a, b, date);
      ReadBack(a + b, date);
    }
  }

  /** The result is the new snapshot; if either has a regular minute, with the bars of both, of
      which the new one's win, strictly ordered. */
  ghost predicate MergesInto(date: int, stored: Snapshot, s: Snapshot, r: Option<Snapshot>) {
    var union := LastByMinute(stored.bars, date) + LastByMinute(s.bars, date);
    && r.Some?
    && (union == map[] ==> r == Some(s))
    && (union != map[] ==>
          && r.value == s.(bars := r.value.bars, minuteBarsDate := Some(date))
          && Clean(r.value.bars, Some(date)) && LastByMinute(r.value.bars, date) == union)
  }

  /** The last bar of each minute: what the dictionary of a bar list holds. */
  lemma {:induction false} LastByMinuteMeans(bars: seq<RawBar>, date: int, minute: int)
    ensures var m := LastByMinute(bars, date);
            if minute in m
            then exists i :: IsLastAt(bars, date, minute, i) && m[minute] == bars[i].(stamp := Some(minute * 60_000))
            else forall i :: 0 <= i < |bars| ==> !IsBarAt(bars[i], date, minute)
  {
    if bars != [] {
      var front, last := bars[..|bars| - 1], bars[|bars| - 1];
      LastByMinuteMeans(front, date, minute);
      if IsBarAt(last, date, minute) {
        assert IsLastAt(bars, date, minute, |bars| - 1);
      } else if minute in LastByMinute(front, date) {
        var i :| IsLastAt(front, date, minute, i)
                 && LastByMinute(front, date)[minute] == front[i].(stamp := Some(minute * 60_000));
        assert IsLastAt(bars, date, minute, i);
      }
    }
  }

  /** A bar stamped within this minute, which is a regular one of the date. */
  predicate IsBarAt(bar: RawBar, date: int, minute: int) {
    bar.stamp.Some? && bar.stamp.value / 60_000 == minute && IsRegularMinute(minute, Some(date))
  }

  predicate IsLastAt(bars: seq<RawBar>, date: int, minute: int, i: int) {
    0 <= i < |bars| && IsBarAt(bars[i], date, minute) && forall j :: i < j < |bars| ==> !IsBarAt(bars[j], date, minute)
  }

  lemma UnionNotEmpty(a: map<int, RawBar>, b: map<int, RawBar>)
    requires a != map[]
    ensures a + b != map[] && a.Keys <= (a + b).Keys
  {
    assert |a.Keys| > 0;
    var k := Member(a.Keys);
    assert k in a + b;
  }

  /** When a stored minute survives a write: the write fails, or it can read what is stored,
      or its own bars have that minute. */
  lemma StoredMinuteSurvives(date: int, stored: Snapshot, w: Write, minute: int)
    requires HasCurrentBars(stored, date) && minute in LastByMinute(stored.bars, date)
    ensures minute in LastByMinute(Stored(date, Some(stored), w).value.bars, date)
            <==> !w.writeOk || w.readOk || minute in LastByMinute(w.snapshot.bars, date)
  {
    if w.writeOk && w.readOk {
      WritesKeepMinutes(date, stored, [w]);
      assert [w][..0] == [];
    }
  }

  /** The reads must succeed: a write that cannot read what is stored replaces it, and can
      lose a stored minute. */
  lemma FailedReadCanLoseMinute(date: int)
    ensures exists start, w, k ::
              && HasCurrentBars(start, date) && Counts(w, date) && !w.readOk
              && k in LastByMinute(start.bars, date)
              && k !in LastByMinute(AfterWrites(date, start, [w]).value.bars, date)
  {
    var minute := TradingSession.MinuteAt(date, 0);
    var bar := RawBar(Some(minute * MS_PER_MINUTE), None, None, None, None, None, None, None, 0);
    var start := Snapshot([bar], Some(date), None, Some(date), Some(false), 0);
    var w := Write(Snapshot([], Some(date), None, Some(date), Some(false), 0), false, true);
    LastByMinuteStep([], bar, date);
    assert [] + [bar] == start.bars;
    assert minute in LastByMinute(start.bars, date);
    assert [w][..0] == [];
    assert AfterWrites(date, start, [w]) == Some(w.snapshot);
    assert Counts(w, date) && minute !in LastByMinute(w.snapshot.bars, date);
  }
}
