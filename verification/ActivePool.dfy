/** The active symbol pool (active_pool.py): pinned symbols first, the remaining slots filled
    with the best candidates that are not pinned. Symbols are already normalised; one that
    normalisation rejects is `None`. */
module ActivePool {
  import opened Sequences

  datatype Config = Config(targetSize: int, pinnedMaxSize: int)

  /** `explicit` candidates, when set, take the place of the ranked ones. `evictions` lists
      the symbols that each recorded change pushed out. */
  datatype Pool = Pool(pinned: seq<string>, base: seq<string>, active: seq<string>, temporary: set<string>,
                       ranked: seq<string>, explicitBase: Option<seq<string>>,
                       evictions: seq<set<string>>, rejections: nat)

  datatype Disposition = AlreadyActive | AlreadyPinned | Pinned | Temporary | NotPinned | Unpinned

  datatype Change = Change(disposition: Disposition, promoted: bool, added: set<string>, evicted: set<string>)

  function Members(s: seq<string>): set<string> {
    set x | x in s
  }

  ghost predicate Distinct(s: seq<string>) {
    forall i, j :: 0 <= i < j < |s| ==> s[i] != s[j]
  }

  /** The first occurrence of each symbol, in order. */
  function Unique(raw: seq<Option<string>>): seq<string> {
    if raw == [] then []
    else
      var front, last := Unique(raw[..|raw| - 1]), raw[|raw| - 1];
      if last.None? || last.value in front then front else front + [last.value]
  }

  lemma {:induction false} UniqueIsDistinct(raw: seq<Option<string>>)
    ensures Distinct(Unique(raw))
    ensures forall x :: x in Unique(raw) <==> Some(x) in raw
  {
    if raw != [] {
      UniqueIsDistinct(raw[..|raw| - 1]);
      assert raw == raw[..|raw| - 1] + [raw[|raw| - 1]];
    }
  }

  /** `unique_normalized_symbols`. */
  method UniqueNormalizedSymbols(raw: seq<Option<string>>) returns (result: seq<string>)
    ensures result == Unique(raw)
  {
    var seen: set<string> := {};
    result := [];
    for i := 0 to |raw|
      invariant result == Unique(raw[..i]) && seen == Members(result)
    {
      assert raw[..i + 1][..i] == raw[..i];
      if raw[i].None? {
        continue;
      }
      if raw[i].value !in seen {
        seen := seen + {raw[i].value};
        result := result + [raw[i].value];
      }
    }
    assert raw[..|raw|] == raw;
  }

  /** `[x for x in s if x not in out]`. */
  function Excluding(s: seq<string>, out: seq<string>): seq<string> {
    if s == [] then []
    else Excluding(s[..|s| - 1], out) + if s[|s| - 1] in out then [] else [s[|s| - 1]]
  }

  /** `s[:n]`. */
  function FirstN(s: seq<string>, n: nat): seq<string> {
    if |s| <= n then s else s[..n]
  }

  function Candidates(p: Pool): seq<string> {
    p.explicitBase.GetOr(p.ranked)
  }

  function SlotsFor(pinned: seq<string>, cfg: Config): nat {
    if cfg.targetSize - |pinned| < 0 then 0 else cfg.targetSize - |pinned|
  }

  function BaseOf(candidates: seq<string>, pinned: seq<string>, cfg: Config): seq<string> {
    FirstN(Excluding(candidates, pinned), SlotsFor(pinned, cfg))
  }

  function Recomputed(p: Pool, cfg: Config): Pool {
    var base := BaseOf(Candidates(p), p.pinned, cfg);
    p.(base := base, active := p.pinned + base)
  }

  function Recorded(p: Pool, evicted: set<string>): Pool {
    if evicted == {} then p else p.(evictions := p.evictions + [evicted])
  }

  function Added(before: Pool, after: Pool): set<string> {
    Members(after.active) - Members(before.active)
  }

  function EvictedBy(before: Pool, after: Pool): set<string> {
    Members(before.active) - Members(after.active)
  }

  function Queried(p: Pool, symbol: string, cfg: Config): (Pool, Change) {
    if symbol in p.active then (p, Change(AlreadyActive, false, {}, {}))
    else if symbol in p.pinned then
      var r := Recomputed(p, cfg);
      (r, Change(Pinned, symbol in r.active, {}, {}))
    else if |p.pinned| >= cfg.pinnedMaxSize then
      (p.(temporary := p.temporary + {symbol}, rejections := p.rejections + 1), Change(Temporary, false, {}, {}))
    else
      var r := Recomputed(p.(pinned := p.pinned + [symbol]), cfg);
      (Recorded(r, EvictedBy(p, r)), Change(Pinned, symbol in r.active, Added(p, r), EvictedBy(p, r)))
  }

  function ManuallyPinned(p: Pool, symbol: string, cfg: Config): (Pool, Change) {
    if symbol in p.pinned then (p, Change(AlreadyPinned, symbol in p.active, {}, {})) else Queried(p, symbol, cfg)
  }

  function ManuallyUnpinned(p: Pool, symbol: string, cfg: Config): (Pool, Change) {
    if symbol !in p.pinned then (p.(temporary := p.temporary - {symbol}), Change(NotPinned, false, {}, {}))
    else
      var r := Recomputed(p.(pinned := Excluding(p.pinned, [symbol])), cfg);
      (Recorded(r, EvictedBy(p, r)), Change(Unpinned, false, Added(p, r), EvictedBy(p, r)))
  }

  function Rebuilt(p: Pool, ranking: seq<string>, cfg: Config): Pool {
    Recomputed(p.(ranked := ranking, explicitBase := None), cfg)
  }

  function Bootstrapped(p: Pool, symbols: seq<string>, ranking: seq<string>, cfg: Config): Pool {
    Recomputed(p.(explicitBase := Some(symbols), ranked := if p.ranked == [] then ranking else p.ranked), cfg)
  }

  // ---------- the manager ----------

  class ActiveSymbolPoolManager {
    const cfg: Config
    var queryPinned: seq<string>
    var temporarySymbols: set<string>
    var baseActive: seq<string>
    var activePool: seq<string>
    var ranked: seq<string>
    var explicitBaseSymbols: Option<seq<string>>
    var evictions: seq<set<string>>
    var pinnedPoolFullRejections: nat

    ghost function View(): Pool
      reads this
    {
      Pool(queryPinned, baseActive, activePool, temporarySymbols, ranked, explicitBaseSymbols,
           evictions, pinnedPoolFullRejections)
    }

    constructor (cfg: Config, pinned: seq<Option<string>>)
      ensures this.cfg == cfg && View() == Pool(Unique(pinned), [], [], {}, [], None, [], 0)
    {
      this.cfg := cfg;
      var unique := UniqueNormalizedSymbols(pinned);
      queryPinned, baseActive, activePool, temporarySymbols, ranked := unique, [], [], {}, [];
      explicitBaseSymbols, evictions, pinnedPoolFullRejections := None, [], 0;
    }

    /** `_recompute_active_pool`. */
    method RecomputeActivePool()
      modifies this`baseActive, this`activePool
      ensures View() == Recomputed(old(View()), cfg)
    {
      var candidates := if explicitBaseSymbols.Some? then explicitBaseSymbols.value else ranked;
      var unpinned := Excluding(candidates, queryPinned);
      var remaining := cfg.targetSize - |queryPinned|;
      if remaining < 0 {
        remaining := 0;
      }
      baseActive := if |unpinned| <= remaining then unpinned else unpinned[..remaining];
      activePool := queryPinned + baseActive;
    }

    /** `_record_churn`. */
    method RecordChurn(evicted: set<string>)
      modifies this`evictions
      ensures View() == Recorded(old(View()), evicted)
    {
      if evicted == {} {
        return;
      }
      evictions := evictions + [evicted];
    }

    /** `rebuild_base_active`, given the ranking. */
    method RebuildBaseActive(ranking: seq<string>)
      modifies this
      ensures View() == Rebuilt(old(View()), ranking, cfg)
    {
      ranked := ranking;
      explicitBaseSymbols := None;
      RecomputeActivePool();
    }

    /** `bootstrap_explicit_symbols`. */
    method BootstrapExplicitSymbols(symbols: seq<Option<string>>, ranking: seq<string>)
      modifies this
      ensures View() == Bootstrapped(old(View()), Unique(symbols), ranking, cfg)
    {
      var unique := UniqueNormalizedSymbols(symbols);
      explicitBaseSymbols := Some(unique);
      if ranked == [] {
        ranked := ranking;
      }
      RecomputeActivePool();
    }

    /** `note_query`. */
    method NoteQuery(symbol: string) returns (change: Change)
      modifies this
      ensures (View(), change) == Queried(old(View()), symbol, cfg)
    {
      var before := Members(activePool);
      if symbol in before {
        return Change(AlreadyActive, false, {}, {});
      }
      if symbol in queryPinned {
        RecomputeActivePool();
        return Change(Pinned, symbol in activePool, {}, {});
      }
      if |queryPinned| >= cfg.pinnedMaxSize {
        temporarySymbols := temporarySymbols + {symbol};
        pinnedPoolFullRejections := pinnedPoolFullRejections + 1;
        return Change(Temporary, false, {}, {});
      }
      queryPinned := queryPinned + [symbol];
      RecomputeActivePool();
      var after := Members(activePool);
      RecordChurn(before - after);
      return Change(Pinned, symbol in activePool, after - before, before - after);
    }

    /** `manual_pin`. */
    method ManualPin(symbol: string) returns (change: Change)
      modifies this
      ensures (View(), change) == ManuallyPinned(old(View()), symbol, cfg)
    {
      if symbol in queryPinned {
        return Change(AlreadyPinned, symbol in activePool, {}, {});
      }
      change := NoteQuery(symbol);
    }

    /** `manual_unpin`. */
    method ManualUnpin(symbol: string) returns (change: Change)
      modifies this
      ensures (View(), change) == ManuallyUnpinned(old(View()), symbol, cfg)
    {
      var before := Members(activePool);
      if symbol !in queryPinned {
        temporarySymbols := temporarySymbols - {symbol};
        return Change(NotPinned, false, {}, {});
      }
      queryPinned := Excluding(queryPinned, [symbol]);
      RecomputeActivePool();
      var after := Members(activePool);
      RecordChurn(before - after);
      return Change(Unpinned, false, after - before, before - after);
    }

    /** `release_temporary`. */
    method ReleaseTemporary(symbol: string)
      modifies this`temporarySymbols
      ensures View() == old(View()).(temporary := old(temporarySymbols) - {symbol})
    {
      temporarySymbols := temporarySymbols - {symbol};
    }
  }

  // ---------- excluding ----------

  lemma {:induction false} ExcludingElements(s: seq<string>, out: seq<string>)
    ensures forall x :: x in Excluding(s, out) <==> x in s && x !in out
  {
    if s != [] {
      var front, last := s[..|s| - 1], s[|s| - 1];
      ExcludingElements(front, out);
      assert s == front + [last];
    }
  }

  lemma {:induction false} ExcludingDistinct(s: seq<string>, out: seq<string>)
    requires Distinct(s)
    ensures Distinct(Excluding(s, out))
  {
    if s != [] {
      var front, last := s[..|s| - 1], s[|s| - 1];
      ExcludingDistinct(front, out);
      ExcludingElements(front, out);
      var e := Excluding(front, out);
      forall i | 0 <= i < |e|
        ensures e[i] != last
      {
        assert e[i] in front;
      }
    }
  }

  lemma ExcludingMembers(s: seq<string>, out: seq<string>)
    ensures forall x :: x in Excluding(s, out) <==> x in s && x !in out
    ensures Distinct(s) ==> Distinct(Excluding(s, out))
  {
    ExcludingElements(s, out);
    if Distinct(s) {
      ExcludingDistinct(s, out);
    }
  }

  lemma {:induction false} ExcludingNone(s: seq<string>, out: seq<string>)
    requires forall x :: x in s ==> x !in out
    ensures Excluding(s, out) == s
  {
    if s != [] {
      ExcludingNone(s[..|s| - 1], out);
    }
  }

  lemma {:induction false} ExcludingConcat(s: seq<string>, t: seq<string>, out: seq<string>)
    ensures Excluding(s + t, out) == Excluding(s, out) + Excluding(t, out)
  {
    if t == [] {
      assert s + t == s;
    } else {
      ExcludingConcat(s, t[..|t| - 1], out);
      assert (s + t)[..|s + t| - 1] == s + t[..|t| - 1];
    }
  }

  lemma {:induction false} ExcludingMore(s: seq<string>, out: seq<string>, x: string)
    ensures Excluding(s, out + [x]) == Excluding(Excluding(s, out), [x])
  {
    if s != [] {
      var front, last := s[..|s| - 1], s[|s| - 1];
      ExcludingMore(front, out, x);
      var e := Excluding(front, out);
      assert (e + [last])[..|e|] == e;
      assert Excluding(s, out) == if last in out then e else e + [last];
      assert last in out + [x] <==> last in out || last == x;
    }
  }

  lemma FirstNConcat(a: seq<string>, b: seq<string>, k: nat)
    requires k <= |a|
    ensures FirstN(a + b, k) == a[..k]
  {
  }

  /** Removing a symbol that is not among the first n leaves the first n as they are. */
  lemma ExcludingBehind(s: seq<string>, x: string, n: nat, k: nat)
    requires k <= n && x !in FirstN(s, n)
    ensures FirstN(Excluding(s, [x]), k) == FirstN(s, k)
  {
    if |s| <= n {
      ExcludingNone(s, [x]);
    } else {
      var a, b := s[..n], s[n..];
      ExcludingConcat(a, b, [x]);
      ExcludingNone(a, [x]);
      assert s == a + b;
      FirstNConcat(a, Excluding(b, [x]), k);
      FirstNConcat(a, b, k);
    }
  }

  // ---------- the pool after a recompute ----------

  ghost predicate Sound(p: Pool) {
    && Distinct(p.pinned) && Distinct(p.ranked) && (p.explicitBase.Some? ==> Distinct(p.explicitBase.value))
  }

  /** The lists agree with the pins and candidates, as every recompute leaves them. */
  ghost predicate Synced(p: Pool, cfg: Config) {
    Sound(p) && p == Recomputed(p, cfg)
  }

  /** A recomputed pool has no duplicates, lists the pins and then a prefix of the unpinned
      candidates, and exceeds the target only when the pins alone do. Whatever candidate is
      left out ranks behind every base symbol. */
  lemma PoolLaws(p: Pool, cfg: Config)
    requires Sound(p)
    ensures var r := Recomputed(p, cfg);
            && Synced(r, cfg)
            && Distinct(r.active) && r.active == r.pinned + r.base && r.pinned == p.pinned
            && r.base <= Excluding(Candidates(p), p.pinned)
            && |r.active| <= (if cfg.targetSize < |p.pinned| then |p.pinned| else cfg.targetSize)
            && (forall x :: x in Candidates(p) && x !in r.active ==> |r.active| >= cfg.targetSize)
  {
    var unpinned := Excluding(Candidates(p), p.pinned);
    ExcludingMembers(Candidates(p), p.pinned);
    var r := Recomputed(p, cfg);
    forall i | 0 <= i < |r.base|
      ensures r.base[i] !in p.pinned
    {
      assert r.base[i] == unpinned[i] && unpinned[i] in unpinned;
    }
    forall x | x in Candidates(p) && x !in r.active
      ensures |r.active| >= cfg.targetSize
    {
      assert x in unpinned;
    }
  }

  /** Candidates keep their order: a base symbol comes before any candidate left out. */
  lemma BaseIsBest(p: Pool, cfg: Config, i: nat, j: nat)
    requires Sound(p) && i < |Candidates(p)| && j < |Candidates(p)|
    requires Candidates(p)[i] in Recomputed(p, cfg).base
    requires Candidates(p)[j] !in Recomputed(p, cfg).active
    ensures i < j
  {
    var c, r := Candidates(p), Recomputed(p, cfg);
    var unpinned := Excluding(c, p.pinned);
    ExcludingMembers(c, p.pinned);
    assert c[i] in unpinned;
    PlaceOf(c, p.pinned, i);
    PlaceOf(c, p.pinned, j);
    var pi, pj := |Excluding(c[..i], p.pinned)|, |Excluding(c[..j], p.pinned)|;
    var a :| 0 <= a < |r.base| && r.base[a] == c[i];
    assert unpinned[a] == unpinned[pi];
    assert forall k :: 0 <= k < |r.base| ==> r.base[k] == unpinned[k] && r.base[k] in r.active;
    if j <= i {
      PlaceGrows(c, p.pinned, j, i);
    }
  }

  lemma PlaceOf(c: seq<string>, out: seq<string>, i: nat)
    requires i < |c| && c[i] !in out
    ensures var a := |Excluding(c[..i], out)|;
            a < |Excluding(c, out)| && Excluding(c, out)[a] == c[i]
  {
    var front := c[..i + 1];
    assert c == front + c[i + 1..] && front[..i] == c[..i];
    ExcludingConcat(front, c[i + 1..], out);
  }

  lemma PlaceGrows(c: seq<string>, out: seq<string>, j: nat, i: nat)
    requires j <= i <= |c|
    ensures |Excluding(c[..j], out)| <= |Excluding(c[..i], out)|
  {
    assert c[..i] == c[..j] + c[j..i];
    ExcludingConcat(c[..j], c[j..i], out);
  }

  // ---------- pins ----------

  /** A new pin, admitted: the base keeps everything but, at most, its last symbol. */
  lemma NewPin(p: Pool, symbol: string, cfg: Config)
    requires Synced(p, cfg) && symbol !in p.active && |p.pinned| < cfg.pinnedMaxSize
    ensures var (r, change) := Queried(p, symbol, cfg);
            && Synced(r, cfg) && r.pinned == p.pinned + [symbol] && change.promoted && change.added == {symbol}
            && (if p.base != [] && |p.active| >= cfg.targetSize
                then r.base == p.base[..|p.base| - 1] && change.evicted == {p.base[|p.base| - 1]}
                else r.base == p.base && change.evicted == {})
  {
    var c, n := Candidates(p), SlotsFor(p.pinned, cfg);
    var unpinned, pinned := Excluding(c, p.pinned), p.pinned + [symbol];
    PoolLaws(p, cfg);
    ExcludingMore(c, p.pinned, symbol);
    var k := SlotsFor(pinned, cfg);
    ExcludingBehind(unpinned, symbol, n, k);
    assert BaseOf(c, pinned, cfg) == FirstN(unpinned, k);
    var r := Recomputed(p.(pinned := pinned), cfg);
    assert symbol !in p.pinned;
    assert Distinct(pinned);
    NewPinMembers(p, r, symbol);
  }

  /** The change in membership when the pins grow by one symbol and the base shrinks by at most one. */
  lemma NewPinMembers(p: Pool, r: Pool, symbol: string)
    requires Distinct(p.active) && p.active == p.pinned + p.base && symbol !in p.active
    requires r.active == p.pinned + [symbol] + r.base
    requires r.base == p.base || (p.base != [] && r.base == p.base[..|p.base| - 1])
    ensures Added(p, r) == {symbol}
    ensures EvictedBy(p, r) == if r.base == p.base then {} else {p.base[|p.base| - 1]}
  {
    assert symbol in r.active;
    if r.base != p.base {
      var last := p.base[|p.base| - 1];
      assert p.base == r.base + [last];
      assert p.active[|p.active| - 1] == last;
      forall i | 0 <= i < |r.active|
        ensures r.active[i] != last
      {
        if i < |p.pinned| {
          assert r.active[i] == p.active[i];
        } else if i > |p.pinned| {
          assert r.active[i] == p.active[i - 1];
        }
      }
      assert last in p.active;
    }
  }

  /** Unpinning pushes out nobody but the unpinned symbol, which may return as a candidate. */
  lemma UnpinEvictsOnlyItself(p: Pool, symbol: string, cfg: Config)
    requires Synced(p, cfg) && symbol in p.pinned
    ensures var (r, change) := ManuallyUnpinned(p, symbol, cfg);
            && Synced(r, cfg) && symbol !in r.pinned
            && (forall x :: x in p.pinned && x != symbol ==> x in r.pinned)
            && change.evicted <= {symbol}
  {
    var c, pinned := Candidates(p), Excluding(p.pinned, [symbol]);
    ExcludingMembers(p.pinned, [symbol]);
    UnpinnedLength(p.pinned, symbol);
    var r := Recomputed(p.(pinned := pinned), cfg);
    PoolLaws(p.(pinned := pinned), cfg);
    forall x | x in p.active && x != symbol
      ensures x in r.active
    {
      if x in p.pinned {
        assert x in pinned;
      } else {
        assert x in p.base;
        BaseGrows(c, p.pinned, pinned, symbol, cfg, x);
      }
    }
  }

  lemma {:induction false} UnpinnedLength(pinned: seq<string>, symbol: string)
    requires Distinct(pinned) && symbol in pinned
    ensures |Excluding(pinned, [symbol])| == |pinned| - 1
  {
    var front, last := pinned[..|pinned| - 1], pinned[|pinned| - 1];
    if last == symbol {
      ExcludingNone(front, [symbol]);
    } else {
      assert symbol in front;
      UnpinnedLength(front, symbol);
    }
  }

  /** With one pin fewer, a base symbol stays in the base: the list before it grows by at
      most one, and so do the slots. */
  lemma BaseGrows(c: seq<string>, pinned: seq<string>, fewer: seq<string>, symbol: string, cfg: Config, x: string)
    requires |fewer| == |pinned| - 1 && Distinct(c)
    requires forall y :: y in pinned <==> y in fewer || y == symbol
    requires x in BaseOf(c, pinned, cfg)
    ensures x in BaseOf(c, fewer, cfg)
  {
    var e, f, n := Excluding(c, pinned), Excluding(c, fewer), SlotsFor(pinned, cfg);
    ExcludingMembers(c, pinned);
    ExcludingMembers(c, fewer);
    assert x in c && x !in pinned;
    var i :| 0 <= i < |c| && c[i] == x;
    PlaceOf(c, pinned, i);
    PlaceOf(c, fewer, i);
    var a :| 0 <= a < |BaseOf(c, pinned, cfg)| && BaseOf(c, pinned, cfg)[a] == x;
    assert e[a] == x && e[|Excluding(c[..i], pinned)|] == x;
    assert a == |Excluding(c[..i], pinned)|;
    FewerPins(c[..i], pinned, fewer, symbol);
    assert f[|Excluding(c[..i], fewer)|] == x;
  }

  lemma {:induction false} FewerPins(c: seq<string>, pinned: seq<string>, fewer: seq<string>, symbol: string)
    requires Distinct(c)
    requires forall y :: y in pinned <==> y in fewer || y == symbol
    ensures |Excluding(c, fewer)| <= |Excluding(c, pinned)| + if symbol in c then 1 else 0
  {
    if c != [] {
      FewerPins(c[..|c| - 1], pinned, fewer, symbol);
      assert c == c[..|c| - 1] + [c[|c| - 1]];
    }
  }

  lemma NewPinThenUnpin(p: Pool, symbol: string, cfg: Config)
    requires Synced(p, cfg) && symbol !in p.active && |p.pinned| < cfg.pinnedMaxSize
    ensures var r := ManuallyUnpinned(ManuallyPinned(p, symbol, cfg).0, symbol, cfg).0;
            r.pinned == p.pinned && r.base == p.base && r.active == p.active
  {
    NewPin(p, symbol, cfg);
    ExcludingConcat(p.pinned, [symbol], [symbol]);
    ExcludingNone(p.pinned, [symbol]);
    assert Excluding([symbol], [symbol]) == [];
  }

  /** Pin then unpin restores pins, base and active list exactly, unless the symbol was pinned
      before: then its pin is lost. */
  lemma PinThenUnpin(p: Pool, symbol: string, cfg: Config)
    requires Synced(p, cfg)
    ensures var r := ManuallyUnpinned(ManuallyPinned(p, symbol, cfg).0, symbol, cfg).0;
            r.pinned == p.pinned && r.base == p.base && r.active == p.active <==> symbol !in p.pinned
  {
    if symbol in p.pinned {
      ExcludingElements(p.pinned, [symbol]);
    } else if symbol !in p.active && |p.pinned| < cfg.pinnedMaxSize {
      NewPinThenUnpin(p, symbol, cfg);
    }
  }

  /** When a manual pin leaves the symbol pinned: it was already, or it is neither in the
      active base nor faced with a full pin list. */
  lemma ManualPinTakesEffect(p: Pool, symbol: string, cfg: Config)
    requires Synced(p, cfg)
    ensures symbol in ManuallyPinned(p, symbol, cfg).0.pinned
            <==> symbol in p.pinned || (symbol !in p.base && |p.pinned| < cfg.pinnedMaxSize)
  {
    if symbol !in p.active && |p.pinned| < cfg.pinnedMaxSize {
      NewPin(p, symbol, cfg);
    }
  }

  function PoolOfTwo(pin: string, base: string): Pool {
    Pool([pin], [base], [pin, base], {}, [base], None, [], 0)
  }

  lemma {:induction false} PoolOfTwoIsSynced(pin: string, base: string)
    requires pin != base
    ensures Synced(PoolOfTwo(pin, base), Config(2, 5))
  {
    ExcludingNone([base], [pin]);
    assert [pin] + [base] == [pin, base];
  }

  /** A pool of two whose one base symbol is pinned by hand, in vain, and whose one pin is taken
      away by pinning and unpinning it. */
  lemma {:induction false} PinsWithoutEffect(pin: string, base: string)
    requires pin != base
    ensures var p, cfg := PoolOfTwo(pin, base), Config(2, 5);
            && Synced(p, cfg)
            && base !in ManuallyPinned(p, base, cfg).0.pinned
            && pin !in ManuallyUnpinned(ManuallyPinned(p, pin, cfg).0, pin, cfg).0.pinned
  {
    var p, cfg := PoolOfTwo(pin, base), Config(2, 5);
    PoolOfTwoIsSynced(pin, base);
    assert p.base[0] == base && p.pinned[0] == pin;
    ManualPinTakesEffect(p, base, cfg);
    ExcludingElements(p.pinned, [pin]);
  }

  // ---------- runs ----------

  datatype Op =
    | Rebuild(ranking: seq<string>)
    | Bootstrap(symbols: seq<string>, ranking: seq<string>)
    | Query(symbol: string)
    | Pin(symbol: string)
    | Unpin(symbol: string)
    | Release(symbol: string)

  function After(p: Pool, op: Op, cfg: Config): Pool {
    match op
    case Rebuild(ranking) => Rebuilt(p, ranking, cfg)
    case Bootstrap(symbols, ranking) => Bootstrapped(p, symbols, ranking, cfg)
    case Query(symbol) => Queried(p, symbol, cfg).0
    case Pin(symbol) => ManuallyPinned(p, symbol, cfg).0
    case Unpin(symbol) => ManuallyUnpinned(p, symbol, cfg).0
    case Release(symbol) => p.(temporary := p.temporary - {symbol})
  }

  function Run(p: Pool, ops: seq<Op>, cfg: Config): Pool {
    if ops == [] then p else After(Run(p, ops[..|ops| - 1], cfg), ops[|ops| - 1], cfg)
  }

  /** Rankings and explicit symbol lists come without duplicates. */
  ghost predicate DistinctInputs(ops: seq<Op>) {
    forall i {:trigger ops[i]} :: 0 <= i < |ops| ==>
      match ops[i]
      case Rebuild(ranking) => Distinct(ranking)
      case Bootstrap(symbols, ranking) => Distinct(symbols) && Distinct(ranking)
      case _ => true
  }

  lemma AfterStaysSynced(p: Pool, op: Op, cfg: Config)
    requires Synced(p, cfg) && DistinctInputs([op])
    ensures Synced(After(p, op, cfg), cfg)
    ensures |After(p, op, cfg).pinned| <= if |p.pinned| < cfg.pinnedMaxSize then cfg.pinnedMaxSize else |p.pinned|
  {
    assert [op][0] == op;
    match op {
      case Rebuild(ranking) => PoolLaws(p.(ranked := ranking, explicitBase := None), cfg);
      case Bootstrap(symbols, ranking) =>
        PoolLaws(p.(explicitBase := Some(symbols), ranked := if p.ranked == [] then ranking else p.ranked), cfg);
      case Query(symbol) =>
        if symbol !in p.active && |p.pinned| < cfg.pinnedMaxSize { NewPin(p, symbol, cfg); }
      case Pin(symbol) =>
        if symbol !in p.active && |p.pinned| < cfg.pinnedMaxSize { NewPin(p, symbol, cfg); }
      case Unpin(symbol) =>
        if symbol in p.pinned {
          UnpinEvictsOnlyItself(p, symbol, cfg);
          UnpinnedLength(p.pinned, symbol);
        }
      case Release(symbol) =>
    }
  }

  /** After the first build, every reachable pool is duplicate-free, pins first, then the best
      unpinned candidates, and within its bounds. */
  lemma {:induction false} RunStaysSynced(p: Pool, ops: seq<Op>, cfg: Config)
    requires Synced(p, cfg) && DistinctInputs(ops)
    ensures var r := Run(p, ops, cfg);
            && Synced(r, cfg) && Distinct(r.active)
            && |r.active| <= (if cfg.targetSize < |r.pinned| then |r.pinned| else cfg.targetSize)
            && |r.pinned| <= if |p.pinned| < cfg.pinnedMaxSize then cfg.pinnedMaxSize else |p.pinned|
  {
    if ops != [] {
      var front := ops[..|ops| - 1];
      RunStaysSynced(p, front, cfg);
      AfterStaysSynced(Run(p, front, cfg), ops[|ops| - 1], cfg);
    }
    PoolLaws(Run(p, ops, cfg), cfg);
  }

  // ---------- which candidates fill the base ----------

  /** After a bootstrap the given symbols fill the base in order, whatever the ranking says; the
      ranking is taken only if there was none. */
  lemma BootstrapMeans(p: Pool, symbols: seq<string>, ranking: seq<string>, cfg: Config)
    ensures var r := Bootstrapped(p, symbols, ranking, cfg);
            && IsSubsequence(r.base, symbols) && r.pinned == p.pinned && r.active == p.pinned + r.base
            && (forall x :: x in symbols ==> x in r.active || |r.active| >= cfg.targetSize)
            && r.ranked == (if p.ranked == [] then ranking else p.ranked)
  {
    FillMeans(symbols, p.pinned, cfg);
  }

  /** After a rebuild the ranking fills it, whatever symbols were given before. */
  lemma RebuildMeans(p: Pool, ranking: seq<string>, cfg: Config)
    ensures var r := Rebuilt(p, ranking, cfg);
            && IsSubsequence(r.base, ranking) && r.pinned == p.pinned && r.active == p.pinned + r.base
            && (forall x :: x in ranking ==> x in r.active || |r.active| >= cfg.targetSize)
            && r.ranked == ranking
  {
    FillMeans(ranking, p.pinned, cfg);
  }

  lemma FillMeans(c: seq<string>, pinned: seq<string>, cfg: Config)
    ensures var base := BaseOf(c, pinned, cfg);
            && IsSubsequence(base, c)
            && (forall x :: x in c ==> x in pinned + base || |pinned + base| >= cfg.targetSize)
  {
    var unpinned := Excluding(c, pinned);
    ExcludingElements(c, pinned);
    ExcludedIsSubsequence(c, pinned);
    FirstOfSubsequence(unpinned, c, |BaseOf(c, pinned, cfg)|);
    forall x | x in c && x !in pinned
      ensures x in pinned + BaseOf(c, pinned, cfg) || |pinned + BaseOf(c, pinned, cfg)| >= cfg.targetSize
    {
      assert x in unpinned;
    }
  }

  lemma {:induction false} ExcludedIsSubsequence(c: seq<string>, out: seq<string>)
    ensures IsSubsequence(Excluding(c, out), c)
  {
    if c != [] {
      var front, last := c[..|c| - 1], c[|c| - 1];
      ExcludedIsSubsequence(front, out);
      assert c == front + [last];
      if last in out {
        SubsequenceSkip(Excluding(front, out), front, last);
        assert Excluding(front, out) + [] == Excluding(front, out);
      } else {
        SubsequenceKeep(Excluding(front, out), front, last);
      }
    }
  }

  lemma {:induction false} FirstOfSubsequence(s: seq<string>, t: seq<string>, n: nat)
    requires IsSubsequence(s, t) && n <= |s|
    ensures IsSubsequence(s[..n], t)
    decreases |s| - n
  {
    if n < |s| {
      SubsequenceDropLast(s, t);
      FirstOfSubsequence(s[..|s| - 1], t, n);
      assert s[..|s| - 1][..n] == s[..n];
    } else {
      assert s[..n] == s;
    }
  }

  /** What the explicit symbols decide stays decided until the next selection. */
  lemma {:induction false} ExplicitSymbolsLast(p: Pool, ops: seq<Op>, cfg: Config)
    requires Synced(p, cfg) && p.explicitBase.Some? && forall op :: op in ops ==> !Reselects(op)
    ensures var r := Run(p, ops, cfg);
            Synced(r, cfg) && r.explicitBase == p.explicitBase && IsSubsequence(r.base, p.explicitBase.value)
  {
    if ops != [] {
      var front, op := ops[..|ops| - 1], ops[|ops| - 1];
      assert op in ops && forall o :: o in front ==> o in ops;
      ExplicitSymbolsLast(p, front, cfg);
      assert DistinctInputs([op]);
      AfterStaysSynced(Run(p, front, cfg), op, cfg);
    }
    var r := Run(p, ops, cfg);
    assert r.explicitBase == p.explicitBase;
    FillMeans(p.explicitBase.value, r.pinned, cfg);
  }

  // ---------- what a query reports ----------

  /** The four answers to a query: active already, pinned but out, turned away, or newly pinned. */
  lemma QueryMeans(p: Pool, symbol: string, cfg: Config)
    requires Synced(p, cfg)
    ensures var (r, change) := Queried(p, symbol, cfg);
            && (symbol in p.active ==> r == p && change == Change(AlreadyActive, false, {}, {}))
            && (symbol !in p.active && |p.pinned| >= cfg.pinnedMaxSize ==>
                  && change == Change(Temporary, false, {}, {})
                  && r == p.(temporary := p.temporary + {symbol}, rejections := p.rejections + 1))
            && (symbol !in p.active && |p.pinned| < cfg.pinnedMaxSize ==>
                  && change.disposition == Pinned && change.promoted && change.added == {symbol}
                  && r.pinned == p.pinned + [symbol] && symbol in r.active
                  && r.temporary == p.temporary && r.rejections == p.rejections)
  {
    if symbol !in p.active && |p.pinned| < cfg.pinnedMaxSize {
      NewPin(p, symbol, cfg);
      assert Queried(p, symbol, cfg).0.pinned[|p.pinned|] == symbol;
    }
  }

  /** A query for a pinned symbol that is not active yet, as before the first build, brings the
      pool up to date with it. */
  lemma PinnedButOut(p: Pool, symbol: string, cfg: Config)
    requires Sound(p) && symbol in p.pinned && symbol !in p.active
    ensures var (r, change) := Queried(p, symbol, cfg);
            && Synced(r, cfg) && r.pinned == p.pinned && symbol in r.active
            && change == Change(Pinned, true, {}, {}) && r.evictions == p.evictions
  {
    PoolLaws(p, cfg);
  }

  /** A manual pin of a pinned symbol changes nothing; of any other it is a query. */
  lemma PinMeans(p: Pool, symbol: string, cfg: Config)
    ensures symbol in p.pinned ==>
              ManuallyPinned(p, symbol, cfg) == (p, Change(AlreadyPinned, symbol in p.active, {}, {}))
    ensures symbol !in p.pinned ==> ManuallyPinned(p, symbol, cfg) == Queried(p, symbol, cfg)
  {
  }

  /** Unpinning takes the symbol out of the pins and out of nothing else. */
  lemma UnpinMeans(p: Pool, symbol: string, cfg: Config)
    requires Synced(p, cfg)
    ensures var (r, change) := ManuallyUnpinned(p, symbol, cfg);
            && (symbol !in p.pinned ==>
                  && change == Change(NotPinned, false, {}, {})
                  && r == p.(temporary := p.temporary - {symbol}))
            && (symbol in p.pinned ==>
                  && change.disposition == Unpinned && !change.promoted
                  && (forall x :: x in r.pinned <==> x in p.pinned && x != symbol)
                  && IsSubsequence(r.pinned, p.pinned) && r.temporary == p.temporary
                  && (forall x :: x in change.added <==> x in r.active && x !in p.active))
  {
    ExcludingElements(p.pinned, [symbol]);
    ExcludedIsSubsequence(p.pinned, [symbol]);
  }

  // ---------- churn over runs ----------

  predicate Reselects(op: Op) {
    op.Rebuild? || op.Bootstrap?
  }

  /** A query, pin or unpin that pushes symbols out of the active list records exactly these,
      and nothing else is ever recorded: a new selection of the base is not. */
  lemma EvictionsRecorded(p: Pool, op: Op, cfg: Config)
    requires Synced(p, cfg)
    ensures var r := After(p, op, cfg);
            r.evictions == if Reselects(op) || EvictedBy(p, r) == {} then p.evictions
                else p.evictions + [EvictedBy(p, r)]
  {
    assert p.active == p.pinned + p.base;
  }

  /** All symbols that were ever recorded as evicted. */
  function EverEvicted(evictions: seq<set<string>>): set<string> {
    if evictions == [] then {} else EverEvicted(evictions[..|evictions| - 1]) + evictions[|evictions| - 1]
  }

  lemma EverEvictedStep(evictions: seq<set<string>>, evicted: set<string>)
    ensures EverEvicted(evictions + [evicted]) == EverEvicted(evictions) + evicted
  {
    assert (evictions + [evicted])[..|evictions|] == evictions;
  }

  lemma EverEvictedSince(evictions: seq<set<string>>, from: nat, evicted: set<string>)
    requires from <= |evictions|
    ensures EverEvicted((evictions + [evicted])[from..]) == EverEvicted(evictions[from..]) + evicted
  {
    assert (evictions + [evicted])[from..] == evictions[from..] + [evicted];
    EverEvictedStep(evictions[from..], evicted);
  }

  /** Between two selections of the base every symbol that leaves the active list is recorded
      as evicted by one of the steps in between. */
  lemma {:induction false} DeparturesAreRecorded(p: Pool, ops: seq<Op>, cfg: Config)
    requires Synced(p, cfg) && forall op :: op in ops ==> !Reselects(op)
    ensures var r := Run(p, ops, cfg);
            && Synced(r, cfg)
            && p.evictions <= r.evictions
            && EvictedBy(p, r) <= EverEvicted(r.evictions[|p.evictions|..])
  {
    if ops != [] {
      var front, op := ops[..|ops| - 1], ops[|ops| - 1];
      assert op in ops;
      DeparturesAreRecorded(p, front, cfg);
      var m := Run(p, front, cfg);
      assert DistinctInputs([op]);
      AfterStaysSynced(m, op, cfg);
      EvictionsRecorded(m, op, cfg);
      EverEvictedSince(m.evictions, |p.evictions|, EvictedBy(m, After(m, op, cfg)));
    }
  }

  // ---------- temporary symbols over runs ----------

  /** The step turns the symbol away because all pins are taken. */
  predicate TurnsAway(p: Pool, op: Op, symbol: string, cfg: Config) {
    && (op == Query(symbol) || op == Pin(symbol))
    && symbol !in p.active && symbol !in p.pinned && |p.pinned| >= cfg.pinnedMaxSize
  }

  /** The step lets go of a temporary symbol: a release, or an unpin of what is not pinned. */
  predicate LetsGo(p: Pool, op: Op, symbol: string) {
    op == Release(symbol) || (op == Unpin(symbol) && symbol !in p.pinned)
  }

  /** Step k turned the symbol away and no later step let go of it. */
  ghost predicate TurnedAwayAt(p: Pool, ops: seq<Op>, k: nat, symbol: string, cfg: Config) {
    && k < |ops| && TurnsAway(Run(p, ops[..k], cfg), ops[k], symbol, cfg)
    && forall i {:trigger ops[i]} :: k < i < |ops| ==> !LetsGo(Run(p, ops[..i], cfg), ops[i], symbol)
  }

  lemma TurnedAwayStep(p: Pool, ops: seq<Op>, op: Op, k: nat, symbol: string, cfg: Config)
    ensures TurnedAwayAt(p, ops + [op], k, symbol, cfg)
            <==> if k == |ops| then TurnsAway(Run(p, ops, cfg), op, symbol, cfg)
                 else TurnedAwayAt(p, ops, k, symbol, cfg) && !LetsGo(Run(p, ops, cfg), op, symbol)
  {
    var all := ops + [op];
    assert all[|ops|] == op && all[..|ops|] == ops;
    assert forall i :: 0 <= i < |ops| ==> all[i] == ops[i] && all[..i] == ops[..i];
  }

  /** Over any run from a pool without temporary symbols, the temporary ones are exactly those
      turned away and not let go of since: a pin that succeeds later does not clear them. */
  lemma {:induction false} TemporaryUntilLetGo(p: Pool, ops: seq<Op>, symbol: string, cfg: Config)
    requires p.temporary == {}
    ensures symbol in Run(p, ops, cfg).temporary <==> exists k: nat :: TurnedAwayAt(p, ops, k, symbol, cfg)
  {
    if ops != [] {
      var front, op := ops[..|ops| - 1], ops[|ops| - 1];
      TemporaryUntilLetGo(p, front, symbol, cfg);
      assert ops == front + [op];
      forall k: nat
        ensures TurnedAwayAt(p, ops, k, symbol, cfg)
                <==> if k == |front| then TurnsAway(Run(p, front, cfg), op, symbol, cfg)
                     else TurnedAwayAt(p, front, k, symbol, cfg) && !LetsGo(Run(p, front, cfg), op, symbol)
      {
        TurnedAwayStep(p, front, op, k, symbol, cfg);
      }
      TemporaryStep(Run(p, front, cfg), op, symbol, cfg);
      if TurnsAway(Run(p, front, cfg), op, symbol, cfg) {
        assert TurnedAwayAt(p, ops, |front|, symbol, cfg);
      }
      if k: nat :| TurnedAwayAt(p, front, k, symbol, cfg) {
        assert TurnedAwayAt(p, ops, k, symbol, cfg) <==> !LetsGo(Run(p, front, cfg), op, symbol);
      }
    }
  }

  lemma TemporaryStep(p: Pool, op: Op, symbol: string, cfg: Config)
    ensures symbol in After(p, op, cfg).temporary
            <==> TurnsAway(p, op, symbol, cfg) || (symbol in p.temporary && !LetsGo(p, op, symbol))
  {
  }
}
