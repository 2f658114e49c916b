/** The callback isolation queue (adapters.py): a deque of events and coalescing markers
    beside a dictionary of the events behind the markers. It behaves as one bounded list of
    slots in which a coalescible event is updated in place. */
module RawEventQueue {
  import opened Sequences

  /** A raw callback event; the three strings are normalised (trimmed, and upper or lower case). */
  datatype RawEvent = RawEvent(symbol: string, period: string, kind: string, body: int)

  const COALESCED_PERIODS := {"hkbrokerqueueex", "broker_queue", "brokerqueue", "brokerqueue2",
                             "l2thousand", "l2thousand_queue", "l2_order_book"}

  function ZeroFilled(code: string, width: nat): string
    decreases width - |code|
  {
    if |code| >= width then code else ZeroFilled("0" + code, width)
  }

  function Canonical(symbol: string): string {
    if '.' !in symbol && (forall c :: c in symbol ==> '0' <= c <= '9') then ZeroFilled(symbol, 5) + ".HK"
    else symbol
  }

  /** `raw_event_queue_coalesce_key`. */
  function CoalesceKey(e: RawEvent): Option<string> {
    if e.symbol == "" then None
    else if e.period in COALESCED_PERIODS then Some(Canonical(e.symbol) + "|" + e.period)
    else if e.kind == "broker_queue" || e.kind == "l2_order_book" then Some(Canonical(e.symbol) + "|" + e.kind)
    else None
  }

  /** Which events are snapshots that a later one replaces: those with a symbol, of seven
      periods or two types. */
  lemma KeyMeans(e: RawEvent)
    ensures CoalesceKey(e).Some?
            <==> e.symbol != ""
                 && (e.period in {"hkbrokerqueueex", "broker_queue", "brokerqueue", "brokerqueue2",
                                  "l2thousand", "l2thousand_queue", "l2_order_book"}
                     || e.kind == "broker_queue" || e.kind == "l2_order_book")
  {
  }

  /** A bare code of digits gets at least five of them and the Hong Kong suffix. */
  lemma CanonicalMeans(symbol: string)
    ensures if (forall i :: 0 <= i < |symbol| ==> '0' <= symbol[i] <= '9')
            then exists zeros: string :: (forall i :: 0 <= i < |zeros| ==> zeros[i] == '0')
                   && |zeros| == (if |symbol| < 5 then 5 - |symbol| else 0)
                   && Canonical(symbol) == zeros + symbol + ".HK"
            else Canonical(symbol) == symbol
  {
    if forall i :: 0 <= i < |symbol| ==> '0' <= symbol[i] <= '9' {
      assert '.' !in symbol && forall c :: c in symbol ==> '0' <= c <= '9';
      var zeros := ZerosBefore(symbol, 5);
      assert Canonical(symbol) == zeros + symbol + ".HK";
    } else {
      var i :| 0 <= i < |symbol| && !('0' <= symbol[i] <= '9');
      assert symbol[i] in symbol;
    }
  }

  lemma {:induction false} ZerosBefore(code: string, width: nat) returns (zeros: string)
    ensures forall i :: 0 <= i < |zeros| ==> zeros[i] == '0'
    ensures |zeros| == (if |code| < width then width - |code| else 0) && ZeroFilled(code, width) == zeros + code
    decreases width - |code|
  {
    zeros := "";
    if |code| < width {
      var more := ZerosBefore("0" + code, width);
      zeros := more + "0";
      assert more + ("0" + code) == zeros + code;
    }
  }

  lemma LastBarSplits(c: string, p: string, d: string, q: string)
    requires '|' !in p && '|' !in q && c + "|" + p == d + "|" + q
    ensures c == d && p == q
  {
    var key := c + "|" + p;
    assert key[|c|] == '|' && key == d + "|" + q;
    assert forall i :: |c| < i < |key| ==> key[i] == p[i - |c| - 1];
    assert forall i :: |d| < i < |key| ==> key[i] == q[i - |d| - 1];
    assert key[|d|] == '|';
    assert |c| == |d|;
    assert c == key[..|c|] && p == key[|c| + 1..] && q == key[|d| + 1..];
  }

  /** What an event is a snapshot of, if it is one: its period, or else its type. */
  function Stream(e: RawEvent): string {
    if e.period in COALESCED_PERIODS then e.period else e.kind
  }

  lemma PeriodsHaveNoBar()
    ensures forall p :: p in COALESCED_PERIODS ==> '|' !in p
  {
    forall p | p in COALESCED_PERIODS
      ensures '|' !in p
    {
      assert p == "hkbrokerqueueex" || p == "broker_queue" || p == "brokerqueue" || p == "brokerqueue2"
             || p == "l2thousand" || p == "l2thousand_queue" || p == "l2_order_book";
    }
  }

  lemma KeyOfStream(e: RawEvent)
    requires CoalesceKey(e).Some?
    ensures CoalesceKey(e).value == Canonical(e.symbol) + "|" + Stream(e) && '|' !in Stream(e)
  {
    if e.period in COALESCED_PERIODS {
      PeriodsHaveNoBar();
    }
  }

  /** Only events of one symbol and one stream share a slot. */
  lemma SameKeySameStream(x: RawEvent, y: RawEvent)
    requires CoalesceKey(x).Some? && CoalesceKey(y).Some?
    ensures CoalesceKey(x) == CoalesceKey(y) <==> Canonical(x.symbol) == Canonical(y.symbol) && Stream(x) == Stream(y)
  {
    KeyOfStream(x);
    KeyOfStream(y);
    if CoalesceKey(x) == CoalesceKey(y) {
      LastBarSplits(Canonical(x.symbol), Stream(x), Canonical(y.symbol), Stream(y));
    }
  }

  // ---------- the list of slots that the queue stands for ----------

  /** The first slot that holds an event with that key. */
  function SlotOf<E, K(==)>(keyOf: E -> Option<K>, slots: seq<E>, key: K): (r: Option<nat>)
    ensures r.Some? ==> r.value < |slots| && keyOf(slots[r.value]) == Some(key)
    ensures r.Some? ==> forall i :: 0 <= i < r.value ==> keyOf(slots[i]) != Some(key)
    ensures r.None? ==> forall i :: 0 <= i < |slots| ==> keyOf(slots[i]) != Some(key)
  {
    if slots == [] then None
    else
      var front := SlotOf(keyOf, slots[..|slots| - 1], key);
      if front.Some? then front
      else if keyOf(slots[|slots| - 1]) == Some(key) then Some(|slots| - 1)
      else None
  }

  datatype Outcome = Overwrote | Queued | Rejected

  function PushOutcome<E, K(==)>(keyOf: E -> Option<K>, slots: seq<E>, e: E, maxSize: int): Outcome {
    if keyOf(e).Some? && SlotOf(keyOf, slots, keyOf(e).value).Some? then Overwrote
    else if |slots| >= maxSize then Rejected
    else Queued
  }

  /** One bounded sequence with in-place update. */
  function Pushed<E, K(==)>(keyOf: E -> Option<K>, slots: seq<E>, e: E, maxSize: int): seq<E> {
    match PushOutcome(keyOf, slots, e, maxSize)
    case Overwrote => slots[SlotOf(keyOf, slots, keyOf(e).value).value := e]
    case Queued => slots + [e]
    case Rejected => slots
  }

  // ---------- deque and dictionary ----------

  datatype Item<E, K> = Marker(key: K) | Plain(event: E)

  /** Markers are distinct and are exactly the dictionary's keys; every event sits under its
      own key or, without one, in the deque itself. */
  ghost predicate Consistent<E, K>(keyOf: E -> Option<K>, items: seq<Item<E, K>>, coalesced: map<K, E>) {
    && (forall i, j :: 0 <= i < j < |items| && items[i].Marker? ==> items[i] != items[j])
    && (forall i {:trigger items[i]} :: 0 <= i < |items| ==>
          if items[i].Marker? then items[i].key in coalesced else keyOf(items[i].event).None?)
    && (forall k :: k in coalesced ==> Marker(k) in items && keyOf(coalesced[k]) == Some(k))
  }

  function EventAt<E, K(==)>(item: Item<E, K>, coalesced: map<K, E>): E
    requires item.Marker? ==> item.key in coalesced
  {
    if item.Marker? then coalesced[item.key] else item.event
  }

  /** The slots, with the latest event of each. */
  ghost function Slots<E, K>(keyOf: E -> Option<K>, items: seq<Item<E, K>>, coalesced: map<K, E>): (r: seq<E>)
    requires Consistent(keyOf, items, coalesced)
    ensures |r| == |items|
    ensures forall i :: 0 <= i < |items| ==> r[i] == EventAt(items[i], coalesced)
  {
    seq(|items|, i requires 0 <= i < |items| => EventAt(items[i], coalesced))
  }

  /** A key is in the dictionary exactly when a slot holds it, and then at its marker. */
  lemma SlotIsMarker<E(!new), K(!new)>(keyOf: E -> Option<K>, items: seq<Item<E, K>>, coalesced: map<K, E>, key: K)
    requires Consistent(keyOf, items, coalesced)
    ensures var at := SlotOf(keyOf, Slots(keyOf, items, coalesced), key);
            at.Some? == (key in coalesced) && (at.Some? ==> items[at.value] == Marker(key))
  {
    var slots := Slots(keyOf, items, coalesced);
    var at := SlotOf(keyOf, slots, key);
    if key in coalesced {
      var i :| 0 <= i < |items| && items[i] == Marker(key);
      assert keyOf(slots[i]) == Some(key);
    }
    if at.Some? {
      assert slots[at.value] == EventAt(items[at.value], coalesced);
    }
  }

  lemma OverwriteSlot<E(!new), K(!new)>(keyOf: E -> Option<K>, items: seq<Item<E, K>>, coalesced: map<K, E>, e: E)
    requires Consistent(keyOf, items, coalesced) && keyOf(e).Some? && keyOf(e).value in coalesced
    ensures var key, slots := keyOf(e).value, Slots(keyOf, items, coalesced);
            && Consistent(keyOf, items, coalesced[key := e])
            && SlotOf(keyOf, slots, key).Some?
            && Slots(keyOf, items, coalesced[key := e]) == slots[SlotOf(keyOf, slots, key).value := e]
  {
    SlotIsMarker(keyOf, items, coalesced, keyOf(e).value);
  }

  lemma AppendMarker<E(!new), K(!new)>(keyOf: E -> Option<K>, items: seq<Item<E, K>>, coalesced: map<K, E>, e: E)
    requires Consistent(keyOf, items, coalesced) && keyOf(e).Some? && keyOf(e).value !in coalesced
    ensures var key := keyOf(e).value;
            && Consistent(keyOf, items + [Marker(key)], coalesced[key := e])
            && Slots(keyOf, items + [Marker(key)], coalesced[key := e]) == Slots(keyOf, items, coalesced) + [e]
  {
    var key := keyOf(e).value;
    var more := items + [Marker(key)];
    assert more[|items|] == Marker(key);
    forall k | k in coalesced[key := e]
      ensures Marker(k) in more
    {
      if k != key {
        assert Marker(k) in items;
      }
    }
  }

  lemma AppendPlain<E(!new), K(!new)>(keyOf: E -> Option<K>, items: seq<Item<E, K>>, coalesced: map<K, E>, e: E)
    requires Consistent(keyOf, items, coalesced) && keyOf(e).None?
    ensures Consistent(keyOf, items + [Plain(e)], coalesced)
    ensures Slots(keyOf, items + [Plain(e)], coalesced) == Slots(keyOf, items, coalesced) + [e]
  {
    forall k | k in coalesced
      ensures Marker(k) in items + [Plain(e)]
    {
      assert Marker(k) in items;
    }
  }

  lemma RemoveFirst<E(!new), K(!new)>(keyOf: E -> Option<K>, items: seq<Item<E, K>>, coalesced: map<K, E>)
    requires Consistent(keyOf, items, coalesced) && items != []
    ensures var rest := if items[0].Marker? then coalesced - {items[0].key} else coalesced;
            && Consistent(keyOf, items[1..], rest)
            && Slots(keyOf, items[1..], rest) == Slots(keyOf, items, coalesced)[1..]
  {
    var rest := if items[0].Marker? then coalesced - {items[0].key} else coalesced;
    assert items == [items[0]] + items[1..];
    forall i, j | 0 <= i < j < |items[1..]| && items[1..][i].Marker?
      ensures items[1..][i] != items[1..][j]
    {
      assert items[i + 1] != items[j + 1];
    }
    forall i | 0 <= i < |items[1..]|
      ensures if items[1..][i].Marker? then items[1..][i].key in rest else keyOf(items[1..][i].event).None?
    {
      assert items[1..][i] == items[i + 1];
      assert items[0].Marker? ==> items[0] != items[i + 1];
    }
    forall k | k in rest
      ensures Marker(k) in items[1..]
    {
      assert Marker(k) in items;
    }
  }

  class BoundedRawEventQueue {
    const maxSize: int
    var items: seq<Item<RawEvent, string>>
    var coalesced: map<string, RawEvent>
    var dropped: seq<RawEvent>

    ghost predicate Valid()
      reads this
    {
      1 <= maxSize && |items| <= maxSize && Consistent(CoalesceKey, items, coalesced)
    }

    ghost function View(): (r: seq<RawEvent>)
      reads this
      requires Valid()
    {
      Slots(CoalesceKey, items, coalesced)
    }

    /** The program raises an error for a size below 1. */
    constructor (maxSize: int)
      requires 1 <= maxSize
      ensures Valid() && View() == [] && dropped == [] && this.maxSize == maxSize
    {
      this.maxSize := maxSize;
      items, coalesced, dropped := [], map[], [];
    }

    /** `push`. */
    method Push(e: RawEvent) returns (accepted: bool)
      requires Valid()
      modifies this
      ensures Valid() && View() == Pushed(CoalesceKey, old(View()), e, maxSize)
      ensures accepted == !PushOutcome(CoalesceKey, old(View()), e, maxSize).Rejected?
      ensures dropped == old(dropped) + if accepted then [] else [e]
    {
      var key := CoalesceKey(e);
      if key.Some? {
        SlotIsMarker(CoalesceKey, items, coalesced, key.value);
      }
      if key.Some? && key.value in coalesced {
        OverwriteSlot(CoalesceKey, items, coalesced, e);
        coalesced := coalesced[key.value := e];
        return true;
      }
      if |items| >= maxSize {
        dropped := dropped + [e];
        return false;
      }
      if key.Some? {
        AppendMarker(CoalesceKey, items, coalesced, e);
        coalesced := coalesced[key.value := e];
        items := items + [Marker(key.value)];
      } else {
        AppendPlain(CoalesceKey, items, coalesced, e);
        items := items + [Plain(e)];
      }
      return true;
    }

    /** `pop`: the latest event of the first slot. The branch that skips a marker without an
        event cannot be reached. */
    method Pop() returns (event: Option<RawEvent>)
      requires Valid()
      modifies this
      ensures Valid() && dropped == old(dropped)
      ensures old(View()) == [] ==> event.None? && View() == []
      ensures old(View()) != [] ==> event == Some(old(View())[0]) && View() == old(View())[1..]
    {
      if items == [] {
        return None;
      }
      RemoveFirst(CoalesceKey, items, coalesced);
      var item := items[0];
      items := items[1..];
      if item.Marker? {
        if item.key !in coalesced {
          assert false;
        }
        event := Some(coalesced[item.key]);
        coalesced := coalesced - {item.key};
      } else {
        event := Some(item.event);
      }
    }
  }

  // ---------- runs ----------

  datatype Op = Push(event: RawEvent) | Pop

  /** Slots, popped events and the counts of overwritten and dropped pushes. */
  datatype Trace = Trace(slots: seq<RawEvent>, popped: seq<RawEvent>, overwritten: nat, dropped: nat)

  function Run(ops: seq<Op>, maxSize: int): Trace {
    if ops == [] then Trace([], [], 0, 0)
    else
      var t := Run(ops[..|ops| - 1], maxSize);
      match ops[|ops| - 1]
      case Push(e) =>
        var outcome := PushOutcome(CoalesceKey, t.slots, e, maxSize);
        Trace(Pushed(CoalesceKey, t.slots, e, maxSize), t.popped,
              t.overwritten + (if outcome.Overwrote? then 1 else 0),
              t.dropped + (if outcome.Rejected? then 1 else 0))
      case Pop =>
        if t.slots == [] then t else t.(slots := t.slots[1..], popped := t.popped + [t.slots[0]])
  }

  function Pushes(ops: seq<Op>): seq<RawEvent> {
    if ops == [] then []
    else Pushes(ops[..|ops| - 1]) + if ops[|ops| - 1].Push? then [ops[|ops| - 1].event] else []
  }

  /** Nothing is lost silently: every push is popped, waiting, overwritten or dropped. */
  lemma {:induction false} PushesAccounted(ops: seq<Op>, maxSize: int)
    requires 1 <= maxSize
    ensures var t := Run(ops, maxSize);
            |Pushes(ops)| == |t.popped| + |t.slots| + t.overwritten + t.dropped && |t.slots| <= maxSize
  {
    if ops != [] {
      PushesAccounted(ops[..|ops| - 1], maxSize);
    }
  }

  /** What a push does: it takes the place of the waiting event with its key, joins the end, or
      is dropped when the queue is full. */
  lemma PushMeans(slots: seq<RawEvent>, e: RawEvent, maxSize: int)
    ensures var r, key := Pushed(CoalesceKey, slots, e, maxSize), CoalesceKey(e);
            if key.Some? && exists i :: 0 <= i < |slots| && CoalesceKey(slots[i]) == key
            then exists i :: 0 <= i < |slots| && CoalesceKey(slots[i]) == key && r == slots[i := e]
            else r == if |slots| < maxSize then slots + [e] else slots
  {
    if CoalesceKey(e).Some? {
      var at := SlotOf(CoalesceKey, slots, CoalesceKey(e).value);
    }
  }

  predicate HasNoKey(e: RawEvent) {
    CoalesceKey(e).None?
  }

  /** The pushed events without a key that found room, in order. */
  function AdmittedPlain(ops: seq<Op>, maxSize: int): seq<RawEvent> {
    if ops == [] then []
    else
      var front, op := ops[..|ops| - 1], ops[|ops| - 1];
      AdmittedPlain(front, maxSize)
      + if op.Push? && HasNoKey(op.event) && |Run(front, maxSize).slots| < maxSize then [op.event] else []
  }

  /** Events without a key come out in the order they went in, and none is lost once inside. */
  lemma {:induction false} PlainInOrder(ops: seq<Op>, maxSize: int)
    ensures var t := Run(ops, maxSize);
            Select(HasNoKey, t.popped + t.slots) == AdmittedPlain(ops, maxSize)
  {
    if ops != [] {
      var t, op := Run(ops[..|ops| - 1], maxSize), ops[|ops| - 1];
      PlainInOrder(ops[..|ops| - 1], maxSize);
      if op.Push? {
        PlainAfterPush(t.popped, t.slots, op.event, maxSize);
      } else if t.slots != [] {
        assert t.popped + t.slots == (t.popped + [t.slots[0]]) + t.slots[1..];
      }
    }
  }

  lemma {:induction false} PlainAfterPush(popped: seq<RawEvent>, slots: seq<RawEvent>, e: RawEvent, maxSize: int)
    ensures Select(HasNoKey, popped + Pushed(CoalesceKey, slots, e, maxSize))
            == if HasNoKey(e) && |slots| < maxSize then Select(HasNoKey, popped + slots) + [e]
               else Select(HasNoKey, popped + slots)
  {
    match PushOutcome(CoalesceKey, slots, e, maxSize) {
      case Overwrote =>
        var i := SlotOf(CoalesceKey, slots, CoalesceKey(e).value).value;
        assert popped + slots[i := e] == (popped + slots)[|popped| + i := e];
        SelectUpdate(HasNoKey, popped + slots, |popped| + i, e);
      case Queued =>
        assert popped + (slots + [e]) == (popped + slots) + [e];
        SelectConcat(HasNoKey, popped + slots, [e]);
        SelectOne(HasNoKey, e);
      case Rejected =>
    }
  }

  /** The most recent push with that key. */
  function LatestPush(ops: seq<Op>, key: string): Option<RawEvent> {
    if ops == [] then None
    else if ops[|ops| - 1].Push? && CoalesceKey(ops[|ops| - 1].event) == Some(key) then Some(ops[|ops| - 1].event)
    else LatestPush(ops[..|ops| - 1], key)
  }

  ghost predicate KeysUnique<E, K>(keyOf: E -> Option<K>, slots: seq<E>) {
    forall i, j :: 0 <= i < j < |slots| && keyOf(slots[i]).Some? ==> keyOf(slots[i]) != keyOf(slots[j])
  }

  lemma UniquePushed<E(!new), K(!new)>(keyOf: E -> Option<K>, slots: seq<E>, e: E, maxSize: int)
    requires KeysUnique(keyOf, slots)
    ensures var r := Pushed(keyOf, slots, e, maxSize);
            && KeysUnique(keyOf, r)
            && (forall i :: 0 <= i < |r| && r[i] != e ==>
                  r[i] in slots
                  && (keyOf(r[i]).Some? ==>
                        PushOutcome(keyOf, slots, e, maxSize).Rejected? || keyOf(r[i]) != keyOf(e)))
  {
    var r := Pushed(keyOf, slots, e, maxSize);
    forall i | 0 <= i < |r| && r[i] != e
      ensures r[i] in slots
              && (keyOf(r[i]).Some? ==>
                    PushOutcome(keyOf, slots, e, maxSize).Rejected? || keyOf(r[i]) != keyOf(e))
    {
      assert r[i] == slots[i];
    }
  }

  /** Each coalescing key waits in at most one slot, which holds its latest push: a waiting
      key is never dropped. */
  lemma {:induction false} WaitingIsLatest(ops: seq<Op>, maxSize: int)
    ensures var slots := Run(ops, maxSize).slots;
            && KeysUnique(CoalesceKey, slots)
            && (forall x :: x in slots && CoalesceKey(x).Some? ==> LatestPush(ops, CoalesceKey(x).value) == Some(x))
  {
    if ops != [] {
      var t, op := Run(ops[..|ops| - 1], maxSize), ops[|ops| - 1];
      WaitingIsLatest(ops[..|ops| - 1], maxSize);
      if op.Push? {
        UniquePushed(CoalesceKey, t.slots, op.event, maxSize);
        PushKeepsLatest(t.slots, op.event, maxSize);
      } else if t.slots != [] {
        assert t.slots == [t.slots[0]] + t.slots[1..];
      }
    }
  }

  /** A push that is dropped has a key that no slot holds. */
  lemma PushKeepsLatest(slots: seq<RawEvent>, e: RawEvent, maxSize: int)
    ensures PushOutcome(CoalesceKey, slots, e, maxSize).Rejected? && CoalesceKey(e).Some? ==>
              forall x :: x in slots ==> CoalesceKey(x) != CoalesceKey(e)
  {
  }
}
