/** Ranking symbols by recent trading (active_pool.py), and what it means for the pool. The
    instrument classification is a parameter: which symbols are eligible. */
module SymbolRanking {
  import opened Sequences
  import opened ActivePool

  /** A row of the daily bar table. A symbol that normalisation rejects and a number that
      cannot be read are `None`; a missing date is 0, before every other. */
  datatype DailyRow = DailyRow(symbol: Option<string>, date: nat, turnover: Option<real>, volume: Option<real>)

  datatype Rank = Rank(symbol: string, rank: nat, avgTurnover: real, avgVolume: real,
                       observations: nat, latest: nat)

  /** What the ranking is asked for. */
  datatype Request = Request(tradeDate: nat, windowDays: int, byVolume: bool, eligible: string -> bool)

  predicate IsHongKong(symbol: string) {
    |symbol| >= 3 && symbol[|symbol| - 3..] == ".HK"
  }

  /** The row is for a Hong Kong symbol and not after the trade date. */
  predicate InScope(row: DailyRow, q: Request) {
    row.symbol.Some? && IsHongKong(row.symbol.value) && row.date <= q.tradeDate
  }

  predicate Counts(row: DailyRow, q: Request) {
    InScope(row, q) && q.eligible(row.symbol.value)
  }

  function RowsOf(rows: seq<DailyRow>, symbol: string, q: Request): seq<DailyRow> {
    if rows == [] then []
    else
      var last := rows[|rows| - 1];
      RowsOf(rows[..|rows| - 1], symbol, q) + if Counts(last, q) && last.symbol.value == symbol then [last] else []
  }

  predicate EarlierRow(x: DailyRow, y: DailyRow) {
    x.date <= y.date
  }

  function Turnovers(rows: seq<DailyRow>): seq<Option<real>> {
    seq(|rows|, i requires 0 <= i < |rows| => rows[i].turnover)
  }

  function Volumes(rows: seq<DailyRow>): seq<Option<real>> {
    seq(|rows|, i requires 0 <= i < |rows| => rows[i].volume)
  }

  function Total(values: seq<Option<real>>): real {
    if values == [] then 0.0 else Total(values[..|values| - 1]) + values[|values| - 1].GetOr(0.0)
  }

  function Readable(values: seq<Option<real>>): nat {
    if values == [] then 0 else Readable(values[..|values| - 1]) + if values[|values| - 1].Some? then 1 else 0
  }

  /** The mean of the readable values. */
  function Average(values: seq<Option<real>>): real {
    if Readable(values) == 0 then 0.0 else Total(values) / Readable(values) as real
  }

  /** The latest rows of a symbol: at least one day, or as many as the window asks for. */
  function Window(rows: seq<DailyRow>, q: Request): seq<DailyRow> {
    LastN(Sort(EarlierRow, rows), if q.windowDays < 1 then 1 else q.windowDays)
  }

  /** The unranked entry of a symbol. */
  function StatsOf(symbol: string, rows: seq<DailyRow>, q: Request): Rank {
    var window := Window(rows, q);
    Rank(symbol, 0, Average(Turnovers(window)), Average(Volumes(window)), |window|,
         if window == [] then 0 else window[|window| - 1].date)
  }

  function Metric(r: Rank, byVolume: bool): real {
    if byVolume then r.avgVolume else r.avgTurnover
  }

  predicate Better(x: Rank, y: Rank, byVolume: bool) {
    || Metric(x, byVolume) > Metric(y, byVolume)
    || (Metric(x, byVolume) == Metric(y, byVolume) && LexLe(x.symbol, y.symbol))
  }

  predicate BetterByTurnover(x: Rank, y: Rank) {
    Better(x, y, false)
  }

  predicate BetterByVolume(x: Rank, y: Rank) {
    Better(x, y, true)
  }

  function Order(byVolume: bool): (Rank, Rank) -> bool {
    if byVolume then BetterByVolume else BetterByTurnover
  }

  lemma OrderIsTotal(byVolume: bool)
    ensures TotalPreorder(Order(byVolume))
  {
    var le := Order(byVolume);
    forall x, y
      ensures le(x, y) || le(y, x)
    {
      LexTotal(x.symbol, y.symbol);
    }
    forall x, y, z | le(x, y) && le(y, z)
      ensures le(x, z)
    {
      if LexLe(x.symbol, y.symbol) && LexLe(y.symbol, z.symbol) {
        LexTransitive(x.symbol, y.symbol, z.symbol);
      }
    }
  }

  /** Each symbol with a counting row once, with the averages over its window, best first. */
  ghost predicate IsRanking(ranks: seq<Rank>, rows: seq<DailyRow>, q: Request) {
    && (forall i, j :: 0 <= i < j < |ranks| ==> ranks[i].symbol != ranks[j].symbol)
    && (forall i, j :: 0 <= i < j < |ranks| ==> Better(ranks[i], ranks[j], q.byVolume))
    && (forall i {:trigger ranks[i]} :: 0 <= i < |ranks| ==>
          ranks[i] == StatsOf(ranks[i].symbol, RowsOf(rows, ranks[i].symbol, q), q).(rank := i + 1))
    && (forall s :: (exists i :: 0 <= i < |ranks| && ranks[i].symbol == s) <==> RowsOf(rows, s, q) != [])
  }

  ghost predicate AreGroups(groups: map<string, seq<DailyRow>>, rows: seq<DailyRow>, q: Request) {
    && (forall s :: s in groups <==> RowsOf(rows, s, q) != [])
    && (forall s :: s in groups ==> groups[s] == RowsOf(rows, s, q))
  }

  /** The rows grouped by symbol, with the symbols in order of first appearance. */
  ghost predicate IsGrouping(order: seq<string>, groups: map<string, seq<DailyRow>>, rows: seq<DailyRow>, q: Request) {
    Distinct(order) && groups.Keys == Members(order) && AreGroups(groups, rows, q)
  }

  lemma RowsOfStep(rows: seq<DailyRow>, row: DailyRow, symbol: string, q: Request)
    ensures RowsOf(rows + [row], symbol, q)
            == if Counts(row, q) && row.symbol.value == symbol then RowsOf(rows, symbol, q) + [row]
                else RowsOf(rows, symbol, q)
  {
    assert (rows + [row])[..|rows|] == rows;
  }

  /** A row that does not count leaves the groups as they are. */
  lemma GroupingSkip(order: seq<string>, groups: map<string, seq<DailyRow>>, rows: seq<DailyRow>, row: DailyRow,
                     q: Request)
    requires IsGrouping(order, groups, rows, q) && !Counts(row, q)
    ensures IsGrouping(order, groups, rows + [row], q)
  {
    forall s
      ensures RowsOf(rows + [row], s, q) == RowsOf(rows, s, q)
    {
      RowsOfStep(rows, row, s, q);
    }
  }

  /** A row that counts goes to the end of its symbol's group. */
  lemma GroupsAdd(groups: map<string, seq<DailyRow>>, rows: seq<DailyRow>, row: DailyRow, q: Request)
    requires AreGroups(groups, rows, q) && Counts(row, q)
    ensures var s := row.symbol.value;
            AreGroups(groups[s := (if s in groups then groups[s] else []) + [row]], rows + [row], q)
  {
    var k := row.symbol.value;
    var before := if k in groups then groups[k] else [];
    var r := groups[k := before + [row]];
    assert before == RowsOf(rows, k, q);
    forall s
      ensures (s in r <==> RowsOf(rows + [row], s, q) != []) && (s in r ==> r[s] == RowsOf(rows + [row], s, q))
    {
      RowsOfStep(rows, row, s, q);
      assert s != k ==> (s in r <==> s in groups);
    }
  }

  lemma GroupingAdd(order: seq<string>, groups: map<string, seq<DailyRow>>, rows: seq<DailyRow>, row: DailyRow,
                    q: Request)
    requires IsGrouping(order, groups, rows, q) && Counts(row, q)
    ensures var s := row.symbol.value;
            if s in groups then IsGrouping(order, groups[s := groups[s] + [row]], rows + [row], q)
            else IsGrouping(order + [s], groups[s := [row]], rows + [row], q)
  {
    var s := row.symbol.value;
    GroupsAdd(groups, rows, row, q);
    if s !in groups {
      assert [] + [row] == [row];
      assert s !in order;
      assert Members(order + [s]) == Members(order) + {s};
    }
  }

  /** The symbols in scope that the classification rules out. */
  function ExcludedSymbols(rows: seq<DailyRow>, q: Request): set<string> {
    set row | row in rows && InScope(row, q) && !Counts(row, q) :: row.symbol.value
  }

  lemma ExcludedStep(rows: seq<DailyRow>, row: DailyRow, q: Request)
    ensures ExcludedSymbols(rows + [row], q)
            == ExcludedSymbols(rows, q) + if InScope(row, q) && !Counts(row, q) then {row.symbol.value} else {}
  {
    var all := rows + [row];
    forall s
      ensures s in ExcludedSymbols(all, q)
              <==> s in ExcludedSymbols(rows, q) || (InScope(row, q) && !Counts(row, q) && s == row.symbol.value)
    {
      assert row in all;
      assert forall x :: x in all <==> x in rows || x == row;
    }
  }

  /** The loop of `rank_active_symbols` that groups the daily rows. */
  method GroupRows(rows: seq<DailyRow>, q: Request)
    returns (order: seq<string>, groups: map<string, seq<DailyRow>>, excluded: set<string>)
    ensures IsGrouping(order, groups, rows, q)
    ensures excluded == ExcludedSymbols(rows, q)
  {
    order, groups, excluded := [], map[], {};
    for i := 0 to |rows|
      invariant IsGrouping(order, groups, rows[..i], q)
      invariant excluded == ExcludedSymbols(rows[..i], q)
    {
      var row := rows[i];
      assert rows[..i + 1] == rows[..i] + [row];
      if Counts(row, q) {
        GroupingAdd(order, groups, rows[..i], row, q);
      } else {
        GroupingSkip(order, groups, rows[..i], row, q);
      }
      ExcludedStep(rows[..i], row, q);
      if !InScope(row, q) {
        continue;
      }
      var symbol := row.symbol.value;
      if !q.eligible(symbol) {
        excluded := excluded + {symbol};
        continue;
      }
      if symbol in groups {
        groups := groups[symbol := groups[symbol] + [row]];
      } else {
        order, groups := order + [symbol], groups[symbol := [row]];
      }
    }
    assert rows[..|rows|] == rows;
  }

  function StatsList(order: seq<string>, rows: seq<DailyRow>, q: Request): seq<Rank> {
    if order == [] then []
    else
      var symbol := order[|order| - 1];
      StatsList(order[..|order| - 1], rows, q) + [StatsOf(symbol, RowsOf(rows, symbol, q), q)]
  }

  lemma StatsListStep(order: seq<string>, i: nat, rows: seq<DailyRow>, q: Request)
    requires i < |order|
    ensures StatsList(order[..i + 1], rows, q)
            == StatsList(order[..i], rows, q) + [StatsOf(order[i], RowsOf(rows, order[i], q), q)]
  {
    assert order[..i + 1][..i] == order[..i];
  }

  /** Its second loop: the averages of each symbol. */
  method StatsOfGroups(order: seq<string>, groups: map<string, seq<DailyRow>>, ghost rows: seq<DailyRow>, q: Request)
    returns (ranks: seq<Rank>)
    requires IsGrouping(order, groups, rows, q)
    ensures ranks == StatsList(order, rows, q)
  {
    ranks := [];
    for i := 0 to |order|
      invariant ranks == StatsList(order[..i], rows, q)
    {
      StatsListStep(order, i, rows, q);
      assert order[i] in Members(order);
      ranks := ranks + [StatsOf(order[i], groups[order[i]], q)];
    }
    assert order[..|order|] == order;
  }

  /** The entries with their places, counted from 1. */
  function Placed(ranks: seq<Rank>): seq<Rank> {
    if ranks == [] then [] else Placed(ranks[..|ranks| - 1]) + [ranks[|ranks| - 1].(rank := |ranks|)]
  }

  lemma {:induction false} PlacedEntries(ranks: seq<Rank>)
    ensures |Placed(ranks)| == |ranks|
    ensures forall k :: 0 <= k < |ranks| ==> Placed(ranks)[k] == ranks[k].(rank := k + 1)
  {
    if ranks != [] {
      PlacedEntries(ranks[..|ranks| - 1]);
    }
  }

  lemma PlacedStep(ranks: seq<Rank>, i: nat)
    requires i < |ranks|
    ensures Placed(ranks[..i + 1]) == Placed(ranks[..i]) + [ranks[i].(rank := i + 1)]
  {
    assert ranks[..i + 1][..i] == ranks[..i];
  }

  /** `rank_active_symbols`. */
  method RankActiveSymbols(rows: seq<DailyRow>, q: Request) returns (ranked: seq<Rank>, excluded: set<string>)
    ensures IsRanking(ranked, rows, q)
    ensures excluded == ExcludedSymbols(rows, q)
  {
    var order, groups;
    order, groups, excluded := GroupRows(rows, q);
    var ranks := StatsOfGroups(order, groups, rows, q);
    ranks := Sort(Order(q.byVolume), ranks);
    ranked := [];
    for i := 0 to |ranks|
      invariant ranked == Placed(ranks[..i])
    {
      PlacedStep(ranks, i);
      ranked := ranked + [ranks[i].(rank := i + 1)];
    }
    assert ranks[..|ranks|] == ranks;
    PlacedStats(order, groups, rows, q);
  }

  /** The unnumbered entries: one for each symbol of the grouping. */
  ghost predicate AreStats(ranks: seq<Rank>, order: seq<string>, rows: seq<DailyRow>, q: Request) {
    && (forall i, j :: 0 <= i < j < |ranks| ==> ranks[i].symbol != ranks[j].symbol)
    && (forall i {:trigger ranks[i]} :: 0 <= i < |ranks| ==>
          ranks[i].symbol in order && ranks[i] == StatsOf(ranks[i].symbol, RowsOf(rows, ranks[i].symbol, q), q))
    && (forall s :: s in order ==> exists i :: 0 <= i < |ranks| && ranks[i].symbol == s)
  }

  lemma {:induction false} StatsListEntries(order: seq<string>, rows: seq<DailyRow>, q: Request)
    requires Distinct(order)
    ensures |StatsList(order, rows, q)| == |order|
    ensures forall k :: 0 <= k < |order| ==> StatsList(order, rows, q)[k].symbol == order[k]
    ensures AreStats(StatsList(order, rows, q), order, rows, q)
  {
    if order != [] {
      var front, last := order[..|order| - 1], order[|order| - 1];
      StatsListEntries(front, rows, q);
      var r := StatsList(order, rows, q);
      forall s | s in order
        ensures exists i :: 0 <= i < |r| && r[i].symbol == s
      {
        var k :| 0 <= k < |order| && order[k] == s;
        assert r[k].symbol == s;
      }
    }
  }

  lemma SortedStats(ranks: seq<Rank>, order: seq<string>, rows: seq<DailyRow>, q: Request)
    requires AreStats(ranks, order, rows, q)
    ensures AreStats(Sort(Order(q.byVolume), ranks), order, rows, q)
    ensures SortedBy(Order(q.byVolume), Sort(Order(q.byVolume), ranks))
  {
    var le := Order(q.byVolume);
    var r := Sort(le, ranks);
    OrderIsTotal(q.byVolume);
    SortSorted(le, ranks);
    SortMultiset(le, ranks);
    SortMembers(le, ranks);
    forall i | 0 <= i < |r|
      ensures r[i].symbol in order && r[i] == StatsOf(r[i].symbol, RowsOf(rows, r[i].symbol, q), q)
    {
      assert r[i] in ranks;
    }
    SymbolsStayDistinct(ranks, r);
    forall s | s in order
      ensures exists i :: 0 <= i < |r| && r[i].symbol == s
    {
      var k :| 0 <= k < |ranks| && ranks[k].symbol == s;
      assert ranks[k] in r;
    }
  }

  lemma PlacedStats(order: seq<string>, groups: map<string, seq<DailyRow>>, rows: seq<DailyRow>, q: Request)
    requires IsGrouping(order, groups, rows, q)
    ensures IsRanking(Placed(Sort(Order(q.byVolume), StatsList(order, rows, q))), rows, q)
  {
    var ranks := Sort(Order(q.byVolume), StatsList(order, rows, q));
    StatsListEntries(order, rows, q);
    SortedStats(StatsList(order, rows, q), order, rows, q);
    PlacedEntries(ranks);
    Numbered(ranks, Placed(ranks), order, groups, rows, q);
  }

  lemma SymbolsStayDistinct(ranks: seq<Rank>, r: seq<Rank>)
    requires forall i, j :: 0 <= i < j < |ranks| ==> ranks[i].symbol != ranks[j].symbol
    requires multiset(ranks) == multiset(r)
    ensures forall i, j :: 0 <= i < j < |r| ==> r[i].symbol != r[j].symbol
  {
    forall i, j | 0 <= i < j < |r|
      ensures r[i].symbol != r[j].symbol
    {
      var x, y := r[i], r[j];
      assert x in multiset(ranks) && y in multiset(ranks);
      if x == y {
        assert multiset(r) == multiset(Without(r, j)) + multiset{x} by { assert r == r[..j] + [r[j]] + r[j + 1..]; }
        assert Without(r, j)[i] == x;
        assert multiset(r)[x] >= 2;
        OccursOnce(ranks, x);
      } else {
        var a :| 0 <= a < |ranks| && ranks[a] == x;
        var b :| 0 <= b < |ranks| && ranks[b] == y;
      }
    }
  }

  lemma {:induction false} OccursOnce(ranks: seq<Rank>, x: Rank)
    requires forall i, j :: 0 <= i < j < |ranks| ==> ranks[i].symbol != ranks[j].symbol
    ensures multiset(ranks)[x] <= 1
  {
    if ranks != [] {
      var front, last := ranks[..|ranks| - 1], ranks[|ranks| - 1];
      OccursOnce(front, x);
      assert ranks == front + [last];
      if x == last {
        assert forall i :: 0 <= i < |front| ==> front[i] != x;
        assert x !in front;
      }
    }
  }

  lemma Numbered(ranks: seq<Rank>, ranked: seq<Rank>, order: seq<string>, groups: map<string, seq<DailyRow>>,
                 rows: seq<DailyRow>, q: Request)
    requires IsGrouping(order, groups, rows, q)
    requires AreStats(ranks, order, rows, q) && SortedBy(Order(q.byVolume), ranks)
    requires |ranked| == |ranks| && forall k :: 0 <= k < |ranks| ==> ranked[k] == ranks[k].(rank := k + 1)
    ensures IsRanking(ranked, rows, q)
  {
    forall i, j | 0 <= i < j < |ranked|
      ensures ranked[i].symbol != ranked[j].symbol && Better(ranked[i], ranked[j], q.byVolume)
    {
      assert Order(q.byVolume)(ranks[i], ranks[j]);
    }
    forall s
      ensures (exists i :: 0 <= i < |ranked| && ranked[i].symbol == s) <==> RowsOf(rows, s, q) != []
    {
      assert s in order <==> s in groups;
      if s in order {
        var i :| 0 <= i < |ranks| && ranks[i].symbol == s;
        assert ranked[i].symbol == s;
      }
    }
  }

  function Symbols(ranks: seq<Rank>): (r: seq<string>)
    ensures |r| == |ranks| && forall i :: 0 <= i < |ranks| ==> r[i] == ranks[i].symbol
  {
    seq(|ranks|, i requires 0 <= i < |ranks| => ranks[i].symbol)
  }

  // ---------- what a ranking says ----------

  /** Best first: a greater average of the metric asked for, or an equal one and a symbol that
      comes no later. */
  lemma RankingDescends(ranks: seq<Rank>, rows: seq<DailyRow>, q: Request, i: nat, j: nat)
    requires IsRanking(ranks, rows, q) && i < j < |ranks|
    ensures q.byVolume ==>
              ranks[i].avgVolume > ranks[j].avgVolume
              || (ranks[i].avgVolume == ranks[j].avgVolume && LexLe(ranks[i].symbol, ranks[j].symbol))
    ensures !q.byVolume ==>
              ranks[i].avgTurnover > ranks[j].avgTurnover
              || (ranks[i].avgTurnover == ranks[j].avgTurnover && LexLe(ranks[i].symbol, ranks[j].symbol))
  {
    assert Better(ranks[i], ranks[j], q.byVolume);
  }

  /** A row that counts for a symbol: its own, up to the trade date, if it is a Hong Kong symbol
      that is eligible. */
  predicate IsRowOf(row: DailyRow, symbol: string, q: Request) {
    row.symbol == Some(symbol) && |symbol| >= 3 && symbol[|symbol| - 3..] == ".HK"
    && row.date <= q.tradeDate && q.eligible(symbol)
  }

  /** The rows of a symbol are those that count for it, in order. */
  lemma {:induction false} RowsMean(rows: seq<DailyRow>, symbol: string, q: Request)
    ensures RowsOf(rows, symbol, q) == Select((row: DailyRow) => IsRowOf(row, symbol, q), rows)
  {
    if rows != [] {
      RowsMean(rows[..|rows| - 1], symbol, q);
    }
  }

  /** The excluded symbols are those of Hong Kong rows up to the trade date that are not eligible. */
  lemma ExcludedMeans(rows: seq<DailyRow>, q: Request, s: string)
    ensures s in ExcludedSymbols(rows, q)
            <==> |s| >= 3 && s[|s| - 3..] == ".HK" && !q.eligible(s)
                 && exists row :: row in rows && row.symbol == Some(s) && row.date <= q.tradeDate
  {
    forall row | row in rows && row.symbol == Some(s) && row.date <= q.tradeDate
                 && |s| >= 3 && s[|s| - 3..] == ".HK" && !q.eligible(s)
      ensures s in ExcludedSymbols(rows, q)
    {
      assert InScope(row, q) && !Counts(row, q);
    }
  }

  lemma EarlierIsTotal()
    ensures TotalPreorder(EarlierRow)
  {
  }

  /** Cutting a list in date order in two leaves the later part behind. */
  lemma {:induction false} CutInOrder(rest: seq<DailyRow>, window: seq<DailyRow>)
    requires SortedBy(EarlierRow, rest + window)
    ensures forall x, y :: x in rest && y in window ==> x.date <= y.date
    ensures forall i, j :: 0 <= i < j < |window| ==> window[i].date <= window[j].date
  {
    var all := rest + window;
    forall x, y | x in rest && y in window
      ensures x.date <= y.date
    {
      var i :| 0 <= i < |rest| && rest[i] == x;
      var j :| 0 <= j < |window| && window[j] == y;
      assert EarlierRow(all[i], all[|rest| + j]);
    }
    forall i, j | 0 <= i < j < |window|
      ensures window[i].date <= window[j].date
    {
      assert EarlierRow(all[|rest| + i], all[|rest| + j]);
    }
  }

  lemma {:induction false} CutOff<T>(s: seq<T>, n: nat) returns (rest: seq<T>)
    ensures s == rest + LastN(s, n) && |LastN(s, n)| <= n && (rest != [] ==> |LastN(s, n)| == n)
  {
    rest := s[..|s| - |LastN(s, n)|];
  }

  /** The window is the latest days: at least one, as many as asked for or as there are, and no
      row left out is later than one in it. */
  lemma {:induction false} WindowIsLatest(rows: seq<DailyRow>, q: Request) returns (rest: seq<DailyRow>)
    ensures var window, days := Window(rows, q), if q.windowDays < 1 then 1 else q.windowDays;
            && multiset(rest) + multiset(window) == multiset(rows)
            && |window| <= days && (rest != [] ==> |window| == days)
            && (forall x, y :: x in rest && y in window ==> x.date <= y.date)
            && (forall i, j :: 0 <= i < j < |window| ==> window[i].date <= window[j].date)
  {
    var sorted := Sort(EarlierRow, rows);
    EarlierIsTotal();
    SortSorted(EarlierRow, rows);
    SortMultiset(EarlierRow, rows);
    rest := CutOff(sorted, if q.windowDays < 1 then 1 else q.windowDays);
    CutInOrder(rest, Window(rows, q));
  }

  function CountReadable(values: seq<Option<real>>): nat {
    |Select((v: Option<real>) => v.Some?, values)|
  }

  lemma {:induction false} ReadableMeans(values: seq<Option<real>>)
    ensures Readable(values) == CountReadable(values)
  {
    if values != [] {
      ReadableMeans(values[..|values| - 1]);
    }
  }

  /** An average is of the readable values: an unreadable one changes nothing, and a readable
      one counts like each of the others. Without any it is 0. */
  lemma AverageMeans(values: seq<Option<real>>, v: real)
    ensures Average([]) == 0.0
    ensures Average(values + [None]) == Average(values)
    ensures var n := CountReadable(values) as real;
            Average(values + [Some(v)]) * (n + 1.0) == Average(values) * n + v
  {
    ReadableMeans(values);
    TotalWithout(values);
    assert (values + [None])[..|values|] == values && (values + [Some(v)])[..|values|] == values;
    var n := Readable(values) as real;
    assert Total(values + [Some(v)]) == Total(values) + v;
    assert Readable(values + [Some(v)]) == Readable(values) + 1;
    QuotientTimes(Total(values) + v, n + 1.0);
    if Readable(values) != 0 {
      QuotientTimes(Total(values), n);
    }
  }

  lemma QuotientTimes(x: real, y: real)
    requires y != 0.0
    ensures x / y * y == x
  {
  }

  lemma {:induction false} TotalWithout(values: seq<Option<real>>)
    ensures Readable(values) == 0 ==> Total(values) == 0.0
  {
    if values != [] {
      TotalWithout(values[..|values| - 1]);
    }
  }

  /** What an entry holds: the averages of turnover and volume over the window, how many days
      that is, and the last of them. */
  lemma RankedFields(ranks: seq<Rank>, rows: seq<DailyRow>, q: Request, i: nat)
    requires IsRanking(ranks, rows, q) && i < |ranks|
    ensures var window := Window(RowsOf(rows, ranks[i].symbol, q), q);
            && window != [] && ranks[i].rank == i + 1 && ranks[i].observations == |window|
            && ranks[i].latest == window[|window| - 1].date
            && ranks[i].avgTurnover == Average(seq(|window|, k requires 0 <= k < |window| => window[k].turnover))
            && ranks[i].avgVolume == Average(seq(|window|, k requires 0 <= k < |window| => window[k].volume))
  {
    var symbol := ranks[i].symbol;
    assert ranks[i] == StatsOf(symbol, RowsOf(rows, symbol, q), q).(rank := i + 1);
    assert RowsOf(rows, symbol, q) != [];
    SortMembers(EarlierRow, RowsOf(rows, symbol, q));
    var window := Window(RowsOf(rows, symbol, q), q);
    assert Turnovers(window) == seq(|window|, k requires 0 <= k < |window| => window[k].turnover);
    assert Volumes(window) == seq(|window|, k requires 0 <= k < |window| => window[k].volume);
  }

  /** In a pool rebuilt from a ranking, whatever ranked symbol is left out is beaten by every
      base symbol: it trades less, or as much and comes later in the alphabet. */
  lemma BaseBeatsTheRest(p: Pool, ranks: seq<Rank>, rows: seq<DailyRow>, q: Request, cfg: Config, i: nat, j: nat)
    requires Distinct(p.pinned) && IsRanking(ranks, rows, q) && i < |ranks| && j < |ranks|
    requires ranks[i].symbol in Rebuilt(p, Symbols(ranks), cfg).base
    requires ranks[j].symbol !in Rebuilt(p, Symbols(ranks), cfg).active
    ensures Better(ranks[i], ranks[j], q.byVolume)
  {
    BaseIsBest(p.(ranked := Symbols(ranks), explicitBase := None), cfg, i, j);
  }
}
