/** The latest-bar publish throttle of pipeline.py: which ticks of a burst are published. */
module LatestBarThrottle {
  import opened Sequences
  import opened TradingSession

  const WRITE_INTERVAL_MS := 1000

  /** The minute and instant of a symbol's last publish. */
  datatype Flush = Flush(minute: int, at: int)

  /** What one tick does; a tick without timestamp (`None`) is never published. */
  predicate Publishes(last: Option<Flush>, ts: Option<int>) {
    && ts.Some?
    && (last.None? || last.value.minute != MinuteOf(ts.value) || ts.value - last.value.at >= WRITE_INTERVAL_MS)
  }

  function Flushed(last: Option<Flush>, ts: Option<int>): Option<Flush> {
    if Publishes(last, ts) then Some(Flush(MinuteOf(ts.value), ts.value)) else last
  }

  class Throttle {
    var flushedMinute: map<string, int>
    var flushAt: map<string, int>

    ghost predicate Valid()
      reads this
    {
      flushedMinute.Keys == flushAt.Keys
    }

    ghost function Last(symbol: string): Option<Flush>
      reads this
      requires Valid()
    {
      if symbol in flushAt then Some(Flush(flushedMinute[symbol], flushAt[symbol])) else None
    }

    constructor ()
      ensures Valid() && forall s :: Last(s).None?
    {
      flushedMinute, flushAt := map[], map[];
    }

    /** `should_publish_latest_bar`. */
    method ShouldPublish(symbol: string, ts: Option<int>) returns (publish: bool)
      requires Valid()
      modifies this
      ensures Valid()
      ensures publish == Publishes(old(Last(symbol)), ts)
      ensures Last(symbol) == Flushed(old(Last(symbol)), ts)
      ensures forall s :: s != symbol ==> Last(s) == old(Last(s))
    {
      if ts.None? {
        return false;
      }
      var minute := MinuteOf(ts.value);
      if symbol !in flushedMinute || flushedMinute[symbol] != minute
         || symbol !in flushAt || ts.value - flushAt[symbol] >= WRITE_INTERVAL_MS {
        flushedMinute := flushedMinute[symbol := minute];
        flushAt := flushAt[symbol := ts.value];
        return true;
      }
      return false;
    }
  }

  // ---------- runs over all symbols ----------

  datatype Offer = Offer(symbol: string, ts: Option<int>)

  /** The ticks of one symbol that carry a timestamp, in order. */
  function TicksOf(offers: seq<Offer>, symbol: string): seq<int> {
    if offers == [] then []
    else
      var last := offers[|offers| - 1];
      TicksOf(offers[..|offers| - 1], symbol)
      + if last.symbol == symbol && last.ts.Some? then [last.ts.value] else []
  }

  function LastAfter(offers: seq<Offer>, symbol: string): Option<Flush> {
    if offers == [] then None
    else
      var front, last := LastAfter(offers[..|offers| - 1], symbol), offers[|offers| - 1];
      if last.symbol == symbol then Flushed(front, last.ts) else front
  }

  /** The published ticks of one symbol, in order. */
  function Published(offers: seq<Offer>, symbol: string): seq<int> {
    if offers == [] then []
    else
      var front, last := offers[..|offers| - 1], offers[|offers| - 1];
      Published(front, symbol)
      + if last.symbol == symbol && Publishes(LastAfter(front, symbol), last.ts) then [last.ts.value] else []
  }

  /** The class run over a sequence of offers publishes exactly these. */
  method Drive(offers: seq<Offer>, symbol: string) returns (published: seq<int>)
    ensures published == Published(offers, symbol)
  {
    var throttle := new Throttle();
    published := [];
    for i := 0 to |offers|
      invariant throttle.Valid() && fresh(throttle)
      invariant forall s :: throttle.Last(s) == LastAfter(offers[..i], s)
      invariant published == Published(offers[..i], symbol)
    {
      assert offers[..i + 1][..i] == offers[..i];
      var publish := throttle.ShouldPublish(offers[i].symbol, offers[i].ts);
      if publish && offers[i].symbol == symbol {
        published := published + [offers[i].ts.value];
      }
    }
    assert offers[..|offers|] == offers;
  }

  ghost predicate NonDecreasing(s: seq<int>) {
    forall i, j :: 0 <= i < j < |s| ==> s[i] <= s[j]
  }

  function InMinute(s: seq<int>, minute: int): seq<int> {
    if s == [] then []
    else InMinute(s[..|s| - 1], minute) + if MinuteOf(s[|s| - 1]) == minute then [s[|s| - 1]] else []
  }

  /** Publishes of one minute lie at least a second apart. */
  ghost predicate Spaced(s: seq<int>) {
    forall i, j :: 0 <= i < j < |s| && MinuteOf(s[i]) == MinuteOf(s[j]) ==> s[j] - s[i] >= 1000
  }

  lemma {:induction false} PublishedSpaced(offers: seq<Offer>, symbol: string)
    requires NonDecreasing(TicksOf(offers, symbol))
    ensures var p := Published(offers, symbol);
            && NonDecreasing(p) && Spaced(p)
            && (forall x :: x in p ==> x in TicksOf(offers, symbol))
            && LastAfter(offers, symbol)
               == (if p == [] then None else Some(Flush(MinuteOf(p[|p| - 1]), p[|p| - 1])))
  {
    if offers != [] {
      var front, last := offers[..|offers| - 1], offers[|offers| - 1];
      var ticks := TicksOf(front, symbol);
      assert ticks == TicksOf(offers, symbol)[..|ticks|];
      PublishedSpaced(front, symbol);
      var p := Published(front, symbol);
      if last.symbol == symbol && last.ts.Some? {
        var x := last.ts.value;
        assert TicksOf(offers, symbol) == ticks + [x];
        forall i | 0 <= i < |p|
          ensures p[i] <= x
        {
          assert p[i] in ticks;
          var k :| 0 <= k < |ticks| && ticks[k] == p[i];
          assert (ticks + [x])[k] <= (ticks + [x])[|ticks|];
        }
        if Publishes(LastAfter(front, symbol), last.ts) {
          forall i | 0 <= i < |p| && MinuteOf(p[i]) == MinuteOf(x)
            ensures x - p[i] >= WRITE_INTERVAL_MS
          {
            assert p[i] <= p[|p| - 1];
          }
        }
      } else {
        assert TicksOf(offers, symbol) == ticks;
      }
    }
  }

  lemma {:induction false} InMinuteSpaced(s: seq<int>, minute: int)
    requires NonDecreasing(s) && Spaced(s)
    ensures var w := InMinute(s, minute);
            && (forall x :: x in w ==> x in s && MinuteOf(x) == minute)
            && (w != [] ==> w[|w| - 1] >= minute * MS_PER_MINUTE + (|w| - 1) * WRITE_INTERVAL_MS)
  {
    if s != [] {
      var front, x := s[..|s| - 1], s[|s| - 1];
      InMinuteSpaced(front, minute);
      var w := InMinute(front, minute);
      if MinuteOf(x) == minute && w != [] {
        var y := w[|w| - 1];
        assert y in front;
        var k :| 0 <= k < |front| && front[k] == y;
        assert s[|s| - 1] - s[k] >= WRITE_INTERVAL_MS;
      }
    }
  }

  /** Over any interleaving of symbols, with a symbol's timestamps never going back, at most
      60 publishes fall into one minute of that symbol. */
  lemma AtMostSixtyPerMinute(offers: seq<Offer>, symbol: string, minute: int)
    requires NonDecreasing(TicksOf(offers, symbol))
    ensures |InMinute(Published(offers, symbol), minute)| <= 60
  {
    PublishedSpaced(offers, symbol);
    var p := Published(offers, symbol);
    InMinuteSpaced(p, minute);
    var w := InMinute(p, minute);
    if w != [] {
      assert w[|w| - 1] in w;
      assert MinuteOf(w[|w| - 1]) == minute;
      assert (|w| - 1) * WRITE_INTERVAL_MS < MS_PER_MINUTE;
    }
  }

  /** Each further tick of the symbol: the first of a minute is published, and one is suppressed
      exactly when it comes less than a second after a published tick of its own minute. */
  lemma {:induction false} NextTick(offers: seq<Offer>, symbol: string, ts: int)
    requires NonDecreasing(TicksOf(offers, symbol) + [ts])
    ensures var publishes, p := Publishes(LastAfter(offers, symbol), Some(ts)), Published(offers, symbol);
            && ((forall t :: t in TicksOf(offers, symbol) ==> MinuteOf(t) != MinuteOf(ts)) ==> publishes)
            && (!publishes <==> exists x :: x in p && MinuteOf(x) == MinuteOf(ts) && 0 <= ts - x < 1000)
  {
    var ticks := TicksOf(offers, symbol);
    assert ticks == (ticks + [ts])[..|ticks|];
    PublishedSpaced(offers, symbol);
    var p := Published(offers, symbol);
    if !Publishes(LastAfter(offers, symbol), Some(ts)) {
      var x := p[|p| - 1];
      assert x in p && x in ticks;
      var k :| 0 <= k < |ticks| && ticks[k] == x;
      assert (ticks + [ts])[k] <= (ticks + [ts])[|ticks|];
    } else {
      forall x | x in p && MinuteOf(x) == MinuteOf(ts)
        ensures ts - x >= 1000
      {
        var i :| 0 <= i < |p| && p[i] == x;
        assert p[|p| - 1] in ticks;
        var k :| 0 <= k < |ticks| && ticks[k] == p[|p| - 1];
        assert (ticks + [ts])[k] <= (ticks + [ts])[|ticks|];
        assert i < |p| - 1 ==> p[i] <= p[|p| - 1];
      }
    }
  }
}
