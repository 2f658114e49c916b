/** Query caches of the silver tables (mammoth_api.py): the symbol and symbol-date indexes,
    the participant history cache, and the CCASS pair of dates. Dates are strings ordered as
    Python orders them; "" is a missing one. */
module SilverIndex {
  import opened Sequences

  datatype Row = Row(symbol: string, date: string, participant: string, shares: string, percent: string, body: int)

  type SymbolIndex = map<string, seq<Row>>
  type SymbolDateIndex = map<(string, string), seq<Row>>

  // ---------- fresh scans ----------

  function ScanSymbol(rows: seq<Row>, symbol: string): seq<Row> {
    if rows == [] then []
    else ScanSymbol(rows[..|rows| - 1], symbol)
         + if symbol != "" && rows[|rows| - 1].symbol == symbol then [rows[|rows| - 1]] else []
  }

  function ScanSymbolDate(rows: seq<Row>, symbol: string, date: string): seq<Row> {
    if rows == [] then []
    else ScanSymbolDate(rows[..|rows| - 1], symbol, date)
         + if symbol != "" && date != "" && rows[|rows| - 1].symbol == symbol && rows[|rows| - 1].date == date
           then [rows[|rows| - 1]] else []
  }

  predicate EarlierRow(x: Row, y: Row) {
    LexLe(x.date, y.date)
  }

  predicate OfParticipant(row: Row, participant: string, tradeDate: Option<string>) {
    row.participant == participant && (tradeDate.None? || LexLe(row.date, tradeDate.value))
  }

  function ScanParticipant(rows: seq<Row>, participant: string, tradeDate: Option<string>): seq<Row> {
    if rows == [] then []
    else ScanParticipant(rows[..|rows| - 1], participant, tradeDate)
         + if OfParticipant(rows[|rows| - 1], participant, tradeDate) then [rows[|rows| - 1]] else []
  }

  /** A participant's rows in date order, up to a trade date if one is given. */
  function FreshHistory(holdings: seq<Row>, symbol: string, participant: string, tradeDate: Option<string>): seq<Row> {
    Sort(EarlierRow, ScanParticipant(ScanSymbol(holdings, symbol), participant, tradeDate))
  }

  // ---------- what the caches hold ----------

  ghost predicate IndexesSymbols(index: SymbolIndex, rows: seq<Row>) {
    forall s :: ScanSymbol(rows, s) == if s in index then index[s] else []
  }

  ghost predicate IndexesSymbolDates(index: SymbolDateIndex, rows: seq<Row>) {
    forall s, d :: ScanSymbolDate(rows, s, d) == if (s, d) in index then index[(s, d)] else []
  }

  type HistoryKey = (string, string, string)

  /** The cache key: a missing trade date and "" share one. */
  function KeyOf(symbol: string, participant: string, tradeDate: Option<string>): HistoryKey {
    (symbol, participant, tradeDate.GetOr(""))
  }

  /** One history lookup: the cached rows, or a fresh scan that is then cached. */
  function Looked(cache: map<HistoryKey, seq<Row>>, holdings: seq<Row>, symbol: string, participant: string,
                  tradeDate: Option<string>): (map<HistoryKey, seq<Row>>, seq<Row>)
  {
    var key := KeyOf(symbol, participant, tradeDate);
    if key in cache then (cache, cache[key])
    else
      var rows := FreshHistory(holdings, symbol, participant, tradeDate);
      (cache[key := rows], rows)
  }

  const CCASS := "ccass_holdings"

  class MammothAPI {
    const tables: map<string, seq<Row>>
    var rowsBySymbol: map<string, SymbolIndex>
    var rowsBySymbolDate: map<string, SymbolDateIndex>
    var participantHistory: map<HistoryKey, seq<Row>>

    function Table(dataType: string): seq<Row> {
      if dataType in tables then tables[dataType] else []
    }

    ghost predicate Valid()
      reads this
    {
      && (forall t :: t in rowsBySymbol ==> IndexesSymbols(rowsBySymbol[t], Table(t)))
      && (forall t :: t in rowsBySymbolDate ==> IndexesSymbolDates(rowsBySymbolDate[t], Table(t)))
    }

    constructor (tables: map<string, seq<Row>>)
      ensures Valid() && this.tables == tables && participantHistory == map[]
    {
      this.tables := tables;
      rowsBySymbol, rowsBySymbolDate, participantHistory := map[], map[], map[];
    }

    /** `invalidate_caches`. */
    method InvalidateCaches()
      modifies this
      ensures Valid() && participantHistory == map[] && rowsBySymbol == map[] && rowsBySymbolDate == map[]
    {
      rowsBySymbol, rowsBySymbolDate, participantHistory := map[], map[], map[];
    }

    /** The loop of `_rows_for_symbol` that builds an index. */
    static method IndexBySymbol(table: seq<Row>) returns (index: SymbolIndex)
      ensures IndexesSymbols(index, table)
    {
      index := map[];
      for i := 0 to |table|
        invariant IndexesSymbols(index, table[..i])
      {
        assert table[..i + 1] == table[..i] + [table[i]];
        SymbolIndexStep(index, table[..i], table[i]);
        var s := table[i].symbol;
        if s == "" {
          continue;
        }
        index := index[s := (if s in index then index[s] else []) + [table[i]]];
      }
      assert table[..|table|] == table;
    }

    /** `_rows_for_symbol`: exactly what a fresh scan of the table returns. */
    method RowsForSymbol(dataType: string, symbol: string) returns (rows: seq<Row>)
      requires Valid()
      modifies this`rowsBySymbol
      ensures Valid() && rows == ScanSymbol(Table(dataType), symbol)
    {
      if dataType !in rowsBySymbol {
        var index := IndexBySymbol(Table(dataType));
        rowsBySymbol := rowsBySymbol[dataType := index];
      }
      var index := rowsBySymbol[dataType];
      rows := if symbol in index then index[symbol] else [];
    }

    /** The loop of `_rows_for_symbol_date` that builds an index. */
    static method IndexBySymbolDate(table: seq<Row>) returns (index: SymbolDateIndex)
      ensures IndexesSymbolDates(index, table)
    {
      index := map[];
      for i := 0 to |table|
        invariant IndexesSymbolDates(index, table[..i])
      {
        assert table[..i + 1] == table[..i] + [table[i]];
        SymbolDateIndexStep(index, table[..i], table[i]);
        var key := (table[i].symbol, table[i].date);
        if key.0 == "" || key.1 == "" {
          continue;
        }
        index := index[key := (if key in index then index[key] else []) + [table[i]]];
      }
      assert table[..|table|] == table;
    }

    /** `_rows_for_symbol_date`. */
    method RowsForSymbolDate(dataType: string, symbol: string, date: string) returns (rows: seq<Row>)
      requires Valid()
      modifies this`rowsBySymbolDate
      ensures Valid() && rows == ScanSymbolDate(Table(dataType), symbol, date)
    {
      if dataType !in rowsBySymbolDate {
        var index := IndexBySymbolDate(Table(dataType));
        rowsBySymbolDate := rowsBySymbolDate[dataType := index];
      }
      var index := rowsBySymbolDate[dataType];
      rows := if (symbol, date) in index then index[(symbol, date)] else [];
    }

    /** `get_participant_history`; asking for less than one day is an error. */
    method GetParticipantHistory(symbol: string, participant: string, days: int, tradeDate: Option<string>)
      returns (rows: Option<seq<Row>>)
      requires Valid()
      modifies this`rowsBySymbol, this`participantHistory
      ensures Valid()
      ensures days < 1 ==> rows.None? && participantHistory == old(participantHistory)
      ensures days >= 1 ==>
                var (cache, all) := Looked(old(participantHistory), Table(CCASS), symbol, participant, tradeDate);
                participantHistory == cache && rows == Some(LastN(all, days))
    {
      if days < 1 {
        return None;
      }
      var key := KeyOf(symbol, participant, tradeDate);
      if key !in participantHistory {
        var holdings := RowsForSymbol(CCASS, symbol);
        var found := ScanParticipant(holdings, participant, tradeDate);
        participantHistory := participantHistory[key := Sort(EarlierRow, found)];
      }
      rows := Some(LastN(participantHistory[key], days));
    }

    /** `get_ccass_holding_pair`. */
    method GetCcassHoldingPair(symbol: string, tradeDate: string) returns (pair: Pair)
      requires Valid()
      modifies this`rowsBySymbol
      ensures Valid() && IsPair(pair, UpTo(ScanSymbol(Table(CCASS), symbol), tradeDate))
    {
      var holdings := RowsForSymbol(CCASS, symbol);
      var rows := UpTo(holdings, tradeDate);
      pair := PairOf(rows);
    }
  }

  lemma SymbolIndexStep(index: SymbolIndex, rows: seq<Row>, row: Row)
    requires IndexesSymbols(index, rows)
    ensures var s := row.symbol;
            if s == "" then IndexesSymbols(index, rows + [row])
            else IndexesSymbols(index[s := (if s in index then index[s] else []) + [row]], rows + [row])
  {
    assert (rows + [row])[..|rows|] == rows;
    forall s
      ensures ScanSymbol(rows + [row], s)
              == if s != "" && row.symbol == s then ScanSymbol(rows, s) + [row] else ScanSymbol(rows, s)
    {
    }
  }

  lemma SymbolDateIndexStep(index: SymbolDateIndex, rows: seq<Row>, row: Row)
    requires IndexesSymbolDates(index, rows)
    ensures var key := (row.symbol, row.date);
            if key.0 == "" || key.1 == "" then IndexesSymbolDates(index, rows + [row])
            else IndexesSymbolDates(index[key := (if key in index then index[key] else []) + [row]], rows + [row])
  {
    assert (rows + [row])[..|rows|] == rows;
    forall s, d
      ensures ScanSymbolDate(rows + [row], s, d)
              == if s != "" && d != "" && row.symbol == s && row.date == d then ScanSymbolDate(rows, s, d) + [row]
                 else ScanSymbolDate(rows, s, d)
    {
    }
  }

  // ---------- the history cache over runs ----------

  datatype Query =
    | History(symbol: string, participant: string, tradeDate: Option<string>)
    | Invalidate

  function CacheAfter(holdings: seq<Row>, queries: seq<Query>): map<HistoryKey, seq<Row>> {
    if queries == [] then map[]
    else
      match queries[|queries| - 1]
      case Invalidate => map[]
      case History(s, p, d) => Looked(CacheAfter(holdings, queries[..|queries| - 1]), holdings, s, p, d).0
  }

  /** Every entry is what a fresh scan without the empty date would give. */
  ghost predicate SoundCache(cache: map<HistoryKey, seq<Row>>, holdings: seq<Row>) {
    forall k :: k in cache ==> cache[k] == FreshHistory(holdings, k.0, k.1, if k.2 == "" then None else Some(k.2))
  }

  lemma {:induction false} CacheStaysSound(holdings: seq<Row>, queries: seq<Query>)
    requires forall i :: 0 <= i < |queries| && queries[i].History? ==> queries[i].tradeDate != Some("")
    ensures SoundCache(CacheAfter(holdings, queries), holdings)
  {
    if queries != [] {
      CacheStaysSound(holdings, queries[..|queries| - 1]);
    }
  }

  /** As long as no query used the empty trade date, each answer is the fresh one. */
  lemma HistoryIsFresh(holdings: seq<Row>, queries: seq<Query>, symbol: string, participant: string,
                       tradeDate: Option<string>)
    requires forall i :: 0 <= i < |queries| && queries[i].History? ==> queries[i].tradeDate != Some("")
    requires tradeDate != Some("")
    ensures Looked(CacheAfter(holdings, queries), holdings, symbol, participant, tradeDate).1
            == FreshHistory(holdings, symbol, participant, tradeDate)
  {
    CacheStaysSound(holdings, queries);
  }

  /** The form of trade date that first asked for a cache key since the last invalidation. */
  function FirstAsked(queries: seq<Query>, key: HistoryKey): Option<Option<string>> {
    if queries == [] then None
    else
      var front := FirstAsked(queries[..|queries| - 1], key);
      match queries[|queries| - 1]
      case Invalidate => None
      case History(s, p, d) => if front.None? && KeyOf(s, p, d) == key then Some(d) else front
  }

  /** The cache holds exactly the keys asked for, each with the rows of the form that came first. */
  lemma {:induction false} CacheHoldsFirst(holdings: seq<Row>, queries: seq<Query>, key: HistoryKey)
    ensures var cache, first := CacheAfter(holdings, queries), FirstAsked(queries, key);
            && (key in cache <==> first.Some?)
            && (first.Some? ==>
                  && first.value.GetOr("") == key.2
                  && cache[key] == FreshHistory(holdings, key.0, key.1, first.value))
  {
    if queries != [] {
      CacheHoldsFirst(holdings, queries[..|queries| - 1], key);
    }
  }

  predicate HasDatedRow(holdings: seq<Row>, symbol: string, participant: string) {
    exists r :: r in ScanSymbol(holdings, symbol) && r.participant == participant && r.date != ""
  }

  /** The answer to a query is the fresh one for the form of date that came first. */
  lemma AnswerIsFirstForm(holdings: seq<Row>, queries: seq<Query>, symbol: string, participant: string,
                          tradeDate: Option<string>)
    ensures var first := FirstAsked(queries, KeyOf(symbol, participant, tradeDate));
            && Looked(CacheAfter(holdings, queries), holdings, symbol, participant, tradeDate).1
               == FreshHistory(holdings, symbol, participant, first.GetOr(tradeDate))
            && first.GetOr(tradeDate).GetOr("") == tradeDate.GetOr("")
  {
    CacheHoldsFirst(holdings, queries, KeyOf(symbol, participant, tradeDate));
  }

  /** Over any run of queries and invalidations, the answer to the next query is the fresh one
      exactly when its trade date is a real one, or the participant has no dated row, or the
      first query of its key used the same form of an absent date. */
  lemma {:induction false} AnswerIsFreshExactly(holdings: seq<Row>, queries: seq<Query>, symbol: string,
                                                participant: string, days: nat, tradeDate: Option<string>)
    requires days >= 1
    ensures var answer := Looked(CacheAfter(holdings, queries), holdings, symbol, participant, tradeDate).1;
            var first := FirstAsked(queries, KeyOf(symbol, participant, tradeDate));
            LastN(answer, days) == LastN(FreshHistory(holdings, symbol, participant, tradeDate), days)
            <==> (tradeDate.Some? && tradeDate.value != "")
                 || !HasDatedRow(holdings, symbol, participant)
                 || first.None? || first == Some(tradeDate)
  {
    AnswerIsFirstForm(holdings, queries, symbol, participant, tradeDate);
    var used := FirstAsked(queries, KeyOf(symbol, participant, tradeDate)).GetOr(tradeDate);
    if used != tradeDate {
      assert (used == None && tradeDate == Some("")) || (used == Some("") && tradeDate == None);
      FormsAgree(holdings, symbol, participant, days);
    }
  }

  lemma SortedHistory(holdings: seq<Row>, symbol: string, participant: string, tradeDate: Option<string>)
    ensures var h := FreshHistory(holdings, symbol, participant, tradeDate);
            && SortedBy(EarlierRow, h)
            && forall r :: r in h <==> r in ScanSymbol(holdings, symbol) && OfParticipant(r, participant, tradeDate)
  {
    LexOrder();
    var found := ScanParticipant(ScanSymbol(holdings, symbol), participant, tradeDate);
    SortSorted(EarlierRow, found);
    SortMembers(EarlierRow, found);
    ScanParticipantMembers(ScanSymbol(holdings, symbol), participant, tradeDate);
  }

  /** The last row is dated as soon as one is. */
  lemma LastIsDated(h: seq<Row>, r: Row)
    requires SortedBy(EarlierRow, h) && r in h && r.date != ""
    ensures h[|h| - 1].date != ""
  {
    var i :| 0 <= i < |h| && h[i] == r;
    if i < |h| - 1 {
      assert EarlierRow(h[i], h[|h| - 1]);
      OnlyEmptyIsLeast(r.date);
    }
  }

  /** The two forms of an absent trade date give the same days exactly without dated rows. */
  lemma FormsAgree(holdings: seq<Row>, symbol: string, participant: string, days: nat)
    requires days >= 1
    ensures LastN(FreshHistory(holdings, symbol, participant, None), days)
            == LastN(FreshHistory(holdings, symbol, participant, Some("")), days)
            <==> !HasDatedRow(holdings, symbol, participant)
  {
    var rows := ScanSymbol(holdings, symbol);
    var all := FreshHistory(holdings, symbol, participant, None);
    var dateless := FreshHistory(holdings, symbol, participant, Some(""));
    SortedHistory(holdings, symbol, participant, None);
    SortedHistory(holdings, symbol, participant, Some(""));
    if r :| r in rows && r.participant == participant && r.date != "" {
      LastIsDated(all, r);
      assert LastN(all, days)[|LastN(all, days)| - 1] == all[|all| - 1];
      forall x | x in LastN(dateless, days)
        ensures x.date == ""
      {
        assert x in dateless;
        OnlyEmptyIsLeast(x.date);
      }
    } else {
      DatelessScan(rows, participant);
    }
  }

  /** Either form of an absent trade date, asked for first, makes the answer to the other wrong,
      exactly when the participant has a row with a date. */
  lemma EmptyDateSharesKey(holdings: seq<Row>, symbol: string, participant: string, first: Option<string>,
                           second: Option<string>)
    requires {first, second} == {None, Some("")}
    ensures var cache := Looked(map[], holdings, symbol, participant, first).0;
            Looked(cache, holdings, symbol, participant, second).1
            == FreshHistory(holdings, symbol, participant, second)
            <==> !HasDatedRow(holdings, symbol, participant)
  {
    FormsAgree(holdings, symbol, participant, 1);
    var all := FreshHistory(holdings, symbol, participant, None);
    var dateless := FreshHistory(holdings, symbol, participant, Some(""));
    assert None in {first, second} && Some("") in {first, second};
    assert (first == None && second == Some("")) || (first == Some("") && second == None);
    if !HasDatedRow(holdings, symbol, participant) {
      DatelessScan(ScanSymbol(holdings, symbol), participant);
    }
  }

  lemma {:induction false} ScanParticipantMembers(rows: seq<Row>, participant: string, tradeDate: Option<string>)
    ensures forall r :: r in ScanParticipant(rows, participant, tradeDate)
                        <==> r in rows && OfParticipant(r, participant, tradeDate)
  {
    if rows != [] {
      ScanParticipantMembers(rows[..|rows| - 1], participant, tradeDate);
      assert rows == rows[..|rows| - 1] + [rows[|rows| - 1]];
    }
  }

  lemma {:induction false} DatelessScan(rows: seq<Row>, participant: string)
    requires forall r :: r in rows && r.participant == participant ==> r.date == ""
    ensures ScanParticipant(rows, participant, Some("")) == ScanParticipant(rows, participant, None)
  {
    if rows != [] {
      DatelessScan(rows[..|rows| - 1], participant);
      assert rows[|rows| - 1] in rows;
    }
  }

  // ---------- what the scans return ----------

  /** A scan for a symbol returns its rows in table order, and nothing for the empty symbol. */
  lemma {:induction false} ScanSymbolMeans(rows: seq<Row>, symbol: string)
    ensures ScanSymbol(rows, symbol) == Select((r: Row) => symbol != "" && r.symbol == symbol, rows)
  {
    if rows != [] {
      ScanSymbolMeans(rows[..|rows| - 1], symbol);
    }
  }

  lemma {:induction false} ScanSymbolDateMeans(rows: seq<Row>, symbol: string, date: string)
    ensures ScanSymbolDate(rows, symbol, date)
            == Select((r: Row) => symbol != "" && date != "" && r.symbol == symbol && r.date == date, rows)
  {
    if rows != [] {
      ScanSymbolDateMeans(rows[..|rows| - 1], symbol, date);
    }
  }

  /** A participant's history is their rows of the symbol, up to the trade date if one is given,
      each as often as the table has it, in ascending order of dates. */
  lemma HistoryMeans(holdings: seq<Row>, symbol: string, participant: string, tradeDate: Option<string>)
    ensures var h := FreshHistory(holdings, symbol, participant, tradeDate);
            && multiset(h)
               == multiset(Select((r: Row) => symbol != "" && r.symbol == symbol && r.participant == participant
                                              && (tradeDate.Some? ==> LexLe(r.date, tradeDate.value)), holdings))
            && (forall i, j :: 0 <= i < j < |h| ==> LexLe(h[i].date, h[j].date))
  {
    SortedHistory(holdings, symbol, participant, tradeDate);
    SortMultiset(EarlierRow, ScanParticipant(ScanSymbol(holdings, symbol), participant, tradeDate));
    ScanBoth(holdings, symbol, participant, tradeDate);
    var h := FreshHistory(holdings, symbol, participant, tradeDate);
    forall i, j | 0 <= i < j < |h|
      ensures LexLe(h[i].date, h[j].date)
    {
      assert EarlierRow(h[i], h[j]);
    }
  }

  lemma {:induction false} ScanBoth(holdings: seq<Row>, symbol: string, participant: string, tradeDate: Option<string>)
    ensures ScanParticipant(ScanSymbol(holdings, symbol), participant, tradeDate)
            == Select((r: Row) => symbol != "" && r.symbol == symbol && r.participant == participant
                                && (tradeDate.Some? ==> LexLe(r.date, tradeDate.value)), holdings)
  {
    if holdings != [] {
      var front, last := holdings[..|holdings| - 1], holdings[|holdings| - 1];
      ScanBoth(front, symbol, participant, tradeDate);
      var scan := ScanSymbol(front, symbol);
      if symbol != "" && last.symbol == symbol {
        assert (scan + [last])[..|scan|] == scan;
      } else {
        assert ScanSymbol(holdings, symbol) == scan;
      }
    }
  }

  // ---------- the CCASS pair ----------

  datatype Pair = Pair(currentDate: string, previousDate: string, currentRows: seq<Row>, previousRows: seq<Row>)

  function UpTo(rows: seq<Row>, tradeDate: string): seq<Row> {
    if rows == [] then []
    else UpTo(rows[..|rows| - 1], tradeDate)
         + if LexLe(rows[|rows| - 1].date, tradeDate) then [rows[|rows| - 1]] else []
  }

  function RowsOn(rows: seq<Row>, date: string): seq<Row> {
    if rows == [] then []
    else RowsOn(rows[..|rows| - 1], date) + if rows[|rows| - 1].date == date then [rows[|rows| - 1]] else []
  }

  function Content(row: Row): (string, string, string) {
    (row.participant, row.shares, row.percent)
  }

  /** The holdings of a date, whatever their order; the program compares digests of them. */
  function Signature(rows: seq<Row>): multiset<(string, string, string)> {
    if rows == [] then multiset{} else Signature(rows[..|rows| - 1]) + multiset{Content(rows[|rows| - 1])}
  }

  /** The rows up to a date, and those of a date, in table order. */
  lemma {:induction false} CutsMean(rows: seq<Row>, date: string)
    ensures UpTo(rows, date) == Select((r: Row) => LexLe(r.date, date), rows)
    ensures RowsOn(rows, date) == Select((r: Row) => r.date == date, rows)
  {
    if rows != [] {
      CutsMean(rows[..|rows| - 1], date);
    }
  }

  /** Two dates have the same holdings exactly when each participant, shares and percentage occur
      together as often on both. */
  lemma {:induction false} SignatureMeans(rows: seq<Row>, participant: string, shares: string, percent: string)
    ensures Signature(rows)[(participant, shares, percent)]
            == |Select((r: Row) => r.participant == participant && r.shares == shares && r.percent == percent, rows)|
  {
    if rows != [] {
      SignatureMeans(rows[..|rows| - 1], participant, shares, percent);
    }
  }

  /** `sorted(set(dates))`. */
  function SortedDates(rows: seq<Row>): seq<string> {
    if rows == [] then []
    else
      var front, date := SortedDates(rows[..|rows| - 1]), rows[|rows| - 1].date;
      if date in front then front else Insert(LexLe, front, date)
  }

  ghost predicate Ascending(dates: seq<string>) {
    forall i, j :: 0 <= i < j < |dates| ==> LexLe(dates[i], dates[j]) && dates[i] != dates[j]
  }

  lemma LexOrder()
    ensures TotalPreorder(LexLe) && Antisymmetric(LexLe)
  {
    forall x, y
      ensures LexLe(x, y) || LexLe(y, x)
    {
      LexTotal(x, y);
    }
    forall x, y, z | LexLe(x, y) && LexLe(y, z)
      ensures LexLe(x, z)
    {
      LexTransitive(x, y, z);
    }
    forall x, y | LexLe(x, y) && LexLe(y, x)
      ensures x == y
    {
      LexAntisymmetric(x, y);
    }
  }

  lemma {:induction false} DatesAreSorted(rows: seq<Row>)
    ensures var dates := SortedDates(rows);
            Ascending(dates) && forall d :: d in dates <==> exists r :: r in rows && r.date == d
  {
    if rows != [] {
      var before, row := rows[..|rows| - 1], rows[|rows| - 1];
      DatesAreSorted(before);
      assert rows == before + [row];
      var front := SortedDates(before);
      if row.date !in front {
        LexOrder();
        InsertSorted(LexLe, front, row.date);
        InsertDistinct(front, row.date);
      }
      forall d
        ensures d in SortedDates(rows) <==> exists r :: r in rows && r.date == d
      {
        if d == row.date {
          assert row in rows;
        } else if d in front {
          var r :| r in before && r.date == d;
          assert r in rows;
        }
      }
    }
  }

  lemma {:induction false} InsertDistinct(dates: seq<string>, date: string)
    requires date !in dates && forall i, j :: 0 <= i < j < |dates| ==> dates[i] != dates[j]
    ensures var r := Insert(LexLe, dates, date);
            && (forall i, j :: 0 <= i < j < |r| ==> r[i] != r[j])
            && (forall d :: d in r <==> d in dates || d == date)
  {
    if dates != [] && !LexLe(dates[|dates| - 1], date) {
      var front, last := dates[..|dates| - 1], dates[|dates| - 1];
      InsertDistinct(front, date);
      assert dates == front + [last];
      var r := Insert(LexLe, front, date);
      forall i | 0 <= i < |r|
        ensures r[i] != last
      {
        assert r[i] in r;
      }
    }
  }

  ghost predicate Differs(rows: seq<Row>, date: string, current: string) {
    Signature(RowsOn(rows, date)) != Signature(RowsOn(rows, current))
  }

  /** `d` is the latest date before `current` among those that qualify. */
  ghost predicate IsLatest(d: string, rows: seq<Row>, current: string, differing: bool) {
    && (exists r :: r in rows && r.date == d) && d != current && (differing ==> Differs(rows, d, current))
    && forall r :: r in rows && r.date != current && (differing ==> Differs(rows, r.date, current)) ==> LexLe(r.date, d)
  }

  /** Some earlier, non-empty date has holdings that differ from the current ones. */
  ghost predicate SomeDiffers(rows: seq<Row>, current: string) {
    exists r :: r in rows && r.date != "" && r.date != current && Differs(rows, r.date, current)
  }

  /** The latest earlier date whose holdings differ from the current ones, or else simply the
      date before, if there is one. */
  ghost predicate IsPrevious(previous: string, rows: seq<Row>, current: string) {
    if SomeDiffers(rows, current) then IsLatest(previous, rows, current, true)
    else if exists r :: r in rows && r.date != current then IsLatest(previous, rows, current, false)
    else previous == ""
  }

  /** The current date is the latest one, and the previous date is chosen by content. */
  ghost predicate IsPair(pair: Pair, rows: seq<Row>) {
    && (rows == [] ==> pair == Pair("", "", [], []))
    && (rows != [] ==>
          && (exists r :: r in rows && r.date == pair.currentDate)
          && (forall r :: r in rows ==> LexLe(r.date, pair.currentDate)))
    && pair.currentRows == RowsOn(rows, pair.currentDate)
    && pair.previousRows == RowsOn(rows, pair.previousDate)
    && IsPrevious(pair.previousDate, rows, pair.currentDate)
  }

  /** The search of `get_ccass_holding_pair`: the latest earlier date with other holdings. */
  method LatestDiffering(rows: seq<Row>, dates: seq<string>) returns (found: Option<nat>)
    requires dates != []
    ensures found.None? ==> AllSame(rows, dates, 0)
    ensures found.Some? ==> found.value < |dates| - 1 && Differs(rows, dates[found.value], dates[|dates| - 1])
                            && AllSame(rows, dates, found.value + 1)
  {
    var currentSignature := Signature(RowsOn(rows, dates[|dates| - 1]));
    for i := |dates| - 1 downto 0
      invariant AllSame(rows, dates, i)
    {
      if Signature(RowsOn(rows, dates[i])) != currentSignature {
        return Some(i);
      }
    }
    return None;
  }

  /** An empty candidate counts as none found. */
  function ChosenPrevious(dates: seq<string>, found: Option<nat>): string
    requires found.Some? ==> found.value < |dates|
  {
    if found.Some? && dates[found.value] != "" then dates[found.value]
    else if |dates| >= 2 then dates[|dates| - 2]
    else ""
  }

  /** The part of `get_ccass_holding_pair` after the rows are selected. */
  method PairOf(rows: seq<Row>) returns (pair: Pair)
    ensures IsPair(pair, rows)
  {
    var dates := SortedDates(rows);
    DatesAreSorted(rows);
    if dates == [] {
      HasDates(rows, dates);
      return Pair("", "", [], []);
    }
    var current := dates[|dates| - 1];
    var found := LatestDiffering(rows, dates);
    var previous := ChosenPrevious(dates, found);
    CurrentIsLatest(rows, dates);
    ChosenIsPrevious(rows, dates, found);
    pair := Pair(current, previous, RowsOn(rows, current), RowsOn(rows, previous));
  }

  /** `dates` lists the dates of the rows in ascending order. */
  ghost predicate ListsDates(dates: seq<string>, rows: seq<Row>) {
    Ascending(dates) && forall d :: d in dates <==> exists r :: r in rows && r.date == d
  }

  lemma HasDates(rows: seq<Row>, dates: seq<string>)
    requires ListsDates(dates, rows)
    ensures rows != [] ==> dates != []
  {
    if rows != [] {
      var k := PlaceOfDate(rows, dates, rows[0]);
    }
  }

  lemma PlaceOfDate(rows: seq<Row>, dates: seq<string>, r: Row) returns (k: nat)
    requires ListsDates(dates, rows) && r in rows
    ensures k < |dates| && dates[k] == r.date
    ensures forall j :: k <= j < |dates| ==> LexLe(dates[k], dates[j])
  {
    assert r.date in dates;
    k :| 0 <= k < |dates| && dates[k] == r.date;
    LexOrder();
  }

  /** A date of the list is the latest that qualifies if no later one but the current does. */
  lemma LatestInList(rows: seq<Row>, dates: seq<string>, i: nat, differing: bool)
    requires ListsDates(dates, rows) && i < |dates| - 1
    requires differing ==> Differs(rows, dates[i], dates[|dates| - 1])
    requires if differing then AllSame(rows, dates, i + 1) else i == |dates| - 2
    ensures IsLatest(dates[i], rows, dates[|dates| - 1], differing)
  {
    assert dates[i] in dates;
    var current := dates[|dates| - 1];
    forall r | r in rows && r.date != current && (differing ==> Differs(rows, r.date, current))
      ensures LexLe(r.date, dates[i])
    {
      var k := PlaceOfDate(rows, dates, r);
    }
  }

  /** From `i` on, every date but the current one has the current holdings. */
  ghost predicate AllSame(rows: seq<Row>, dates: seq<string>, i: nat)
    requires dates != []
  {
    forall k {:trigger dates[k]} :: i <= k < |dates| - 1 ==> !Differs(rows, dates[k], dates[|dates| - 1])
  }

  lemma CurrentIsLatest(rows: seq<Row>, dates: seq<string>)
    requires ListsDates(dates, rows) && dates != []
    ensures rows != [] && (exists r :: r in rows && r.date == dates[|dates| - 1])
    ensures forall r :: r in rows ==> LexLe(r.date, dates[|dates| - 1])
  {
    assert dates[|dates| - 1] in dates;
    forall r | r in rows
      ensures LexLe(r.date, dates[|dates| - 1])
    {
      var k := PlaceOfDate(rows, dates, r);
    }
  }

  /** The differing dates of the rows are the differing dates of the list. */
  lemma DifferingInList(rows: seq<Row>, dates: seq<string>, current: string)
    requires ListsDates(dates, rows)
    ensures SomeDiffers(rows, current)
            <==> exists i :: 0 <= i < |dates| && dates[i] != "" && dates[i] != current
                             && Differs(rows, dates[i], current)
  {
    forall i | 0 <= i < |dates| && dates[i] != "" && dates[i] != current && Differs(rows, dates[i], current)
      ensures SomeDiffers(rows, current)
    {
      assert dates[i] in dates;
    }
    forall r | r in rows && r.date != "" && r.date != current && Differs(rows, r.date, current)
      ensures exists i :: 0 <= i < |dates| && dates[i] != "" && dates[i] != current && Differs(rows, dates[i], current)
    {
      var k := PlaceOfDate(rows, dates, r);
      assert dates[k] != "" && dates[k] != current && Differs(rows, dates[k], current);
    }
  }

  lemma OnlyEmptyIsLeast(date: string)
    ensures LexLe(date, "") ==> date == ""
  {
  }

  lemma EmptyComesFirst(dates: seq<string>, i: nat)
    requires Ascending(dates) && i < |dates| && dates[i] == ""
    ensures i == 0
  {
    assert forall j :: 0 <= j < i ==> LexLe(dates[j], dates[i]);
    OnlyEmptyIsLeast(dates[0]);
  }

  lemma {:induction false} ChosenIsPrevious(rows: seq<Row>, dates: seq<string>, found: Option<nat>)
    requires ListsDates(dates, rows) && dates != []
    requires found.None? ==> AllSame(rows, dates, 0)
    requires found.Some? ==> found.value < |dates| - 1 && Differs(rows, dates[found.value], dates[|dates| - 1])
                             && AllSame(rows, dates, found.value + 1)
    ensures IsPrevious(ChosenPrevious(dates, found), rows, dates[|dates| - 1])
  {
    var n, current := |dates|, dates[|dates| - 1];
    DifferingInList(rows, dates, current);
    if found.Some? && dates[found.value] != "" {
      LatestInList(rows, dates, found.value, true);
    } else {
      if found.Some? {
        EmptyComesFirst(dates, found.value);
      }
      assert !SomeDiffers(rows, current);
      if n >= 2 {
        assert dates[n - 2] in dates;
        LatestInList(rows, dates, n - 2, false);
      } else {
        forall r | r in rows
          ensures r.date == current
        {
          var k := PlaceOfDate(rows, dates, r);
        }
      }
    }
  }
}
