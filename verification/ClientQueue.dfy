/** The per-client gateway queue (gateway.py): bounded, with in-place coalescing of realtime
    messages and two eviction priorities, and exact accounting over every run. */
module ClientQueue {
  import opened Sequences

  datatype Kind =
    | TickRealtime
    | QueueRealtime
    | AlertRealtime
    | SnapshotResponse
    | HoldingNameClickResponse
    | OtherKind(name: string)

  /** A message without a symbol has symbol `None`; `body` stands for the rest of it. */
  datatype Message = Message(kind: Kind, symbol: Option<string>, body: int)

  datatype Stats = Stats(enqueued: nat, coalesced: nat, dropped: nat, alertsEnqueued: nat,
                         alertDropped: nat, alertOverflow: nat, criticalOverflow: nat)

  datatype State = State(queue: seq<Message>, stats: Stats)

  const START := State([], Stats(0, 0, 0, 0, 0, 0, 0))

  predicate IsRealtime(m: Message) {
    m.kind.TickRealtime? || m.kind.QueueRealtime?
  }

  predicate IsOrdered(m: Message) {
    !IsRealtime(m)
  }

  predicate IsAlert(m: Message) {
    m.kind.AlertRealtime?
  }

  predicate IsCritical(m: Message) {
    m.kind.SnapshotResponse? || m.kind.HoldingNameClickResponse?
  }

  /** The queued message that an arriving one would replace: same kind, and a symbol equal to
      the arriving one's, which counts as "" when absent. */
  predicate Matches(queued: Message, m: Message) {
    queued.kind == m.kind && queued.symbol == Some(m.symbol.GetOr(""))
  }

  /** The last queued message that m replaces. */
  function LatestMatch(queue: seq<Message>, m: Message): (r: Option<nat>)
    ensures r.Some? ==> r.value < |queue| && Matches(queue[r.value], m)
    ensures r.Some? ==> forall i :: r.value < i < |queue| ==> !Matches(queue[i], m)
    ensures r.None? ==> forall i :: 0 <= i < |queue| ==> !Matches(queue[i], m)
  {
    if queue == [] then None
    else if Matches(queue[|queue| - 1], m) then Some(|queue| - 1)
    else LatestMatch(queue[..|queue| - 1], m)
  }

  /** What an alert, or else a critical response, may push out of a full queue. */
  predicate Evictable(queued: Message, entrant: Message) {
    !IsAlert(queued) && (IsAlert(entrant) || !IsCritical(queued))
  }

  function FirstEvictable(queue: seq<Message>, entrant: Message): (r: Option<nat>)
    ensures r.Some? ==> r.value < |queue| && Evictable(queue[r.value], entrant)
    ensures r.Some? ==> forall i :: 0 <= i < r.value ==> !Evictable(queue[i], entrant)
    ensures r.None? ==> forall i :: 0 <= i < |queue| ==> !Evictable(queue[i], entrant)
  {
    if queue == [] then None
    else
      var front := FirstEvictable(queue[..|queue| - 1], entrant);
      if front.Some? then front
      else if Evictable(queue[|queue| - 1], entrant) then Some(|queue| - 1)
      else None
  }

  function Appended(s: State, m: Message): State {
    State(s.queue + [m],
          s.stats.(enqueued := s.stats.enqueued + 1,
                   alertsEnqueued := s.stats.alertsEnqueued + if IsAlert(m) then 1 else 0))
  }

  function Refused(s: State, m: Message): State {
    if IsAlert(m) then s.(stats := s.stats.(alertDropped := s.stats.alertDropped + 1))
    else s.(stats := s.stats.(dropped := s.stats.dropped + 1))
  }

  function Evicted(s: State, k: nat, entrant: Message): State
    requires k < |s.queue|
  {
    State(Without(s.queue, k),
          s.stats.(dropped := s.stats.dropped + 1,
                   alertOverflow := s.stats.alertOverflow + (if IsAlert(entrant) then 1 else 0),
                   criticalOverflow := s.stats.criticalOverflow + (if IsAlert(entrant) then 0 else 1)))
  }

  /** What offering a message does. */
  function Offered(s: State, m: Message, maxSize: int): State {
    var at := LatestMatch(s.queue, m);
    if IsRealtime(m) && at.Some? then
      State(s.queue[at.value := m], s.stats.(coalesced := s.stats.coalesced + 1))
    else if |s.queue| < maxSize then Appended(s, m)
    else
      var victim := FirstEvictable(s.queue, m);
      if (IsAlert(m) || IsCritical(m)) && victim.Some? then Appended(Evicted(s, victim.value, m), m)
      else Refused(s, m)
  }

  /** How many messages a drain takes; `None` is no limit. */
  function DrainCount(queue: seq<Message>, limit: Option<int>): (n: nat)
    ensures n <= |queue|
  {
    if limit.None? then |queue|
    else if limit.value < 0 then 0
    else if limit.value < |queue| then limit.value
    else |queue|
  }

  class GatewayClientQueue {
    const maxSize: int
    var queue: seq<Message>
    var stats: Stats

    ghost function View(): State
      reads this
    {
      State(queue, stats)
    }

    ghost predicate Valid()
      reads this
    {
      |queue| <= if maxSize < 0 then 0 else maxSize
    }

    constructor (maxSize: int)
      ensures Valid() && View() == START && this.maxSize == maxSize
    {
      this.maxSize := maxSize;
      queue, stats := [], Stats(0, 0, 0, 0, 0, 0, 0);
    }

    /** `_replace_latest`. */
    method ReplaceLatest(m: Message) returns (replaced: bool)
      modifies this`queue
      ensures var at := LatestMatch(old(queue), m);
              replaced == at.Some? && queue == if at.Some? then old(queue)[at.value := m] else old(queue)
    {
      var index := |queue| - 1;
      while index >= 0
        invariant -1 <= index < |queue| && queue == old(queue)
        invariant forall i :: index < i < |queue| ==> !Matches(queue[i], m)
      {
        if queue[index].kind == m.kind && queue[index].symbol == Some(m.symbol.GetOr("")) {
          queue := queue[index := m];
          return true;
        }
        index := index - 1;
      }
      return false;
    }

    /** `_drop_one_non_alert` and `_drop_one_non_critical`. */
    method DropOne(entrant: Message) returns (dropped: bool)
      modifies this
      ensures var victim := FirstEvictable(old(queue), entrant);
              && dropped == victim.Some?
              && queue == (if victim.Some? then Without(old(queue), victim.value) else old(queue))
              && stats == old(stats).(dropped := old(stats).dropped + if victim.Some? then 1 else 0)
    {
      for index := 0 to |queue|
        invariant queue == old(queue) && stats == old(stats)
        invariant forall i :: 0 <= i < index ==> !Evictable(queue[i], entrant)
      {
        if Evictable(queue[index], entrant) {
          queue := queue[..index] + queue[index + 1..];
          stats := stats.(dropped := stats.dropped + 1);
          return true;
        }
      }
      return false;
    }

    /** `enqueue`. The second full check of the program cannot be reached. */
    method Enqueue(m: Message)
      requires Valid()
      modifies this
      ensures Valid() && View() == Offered(old(View()), m, maxSize)
    {
      if IsRealtime(m) {
        var replaced := ReplaceLatest(m);
        if replaced {
          stats := stats.(coalesced := stats.coalesced + 1);
          return;
        }
      }
      if |queue| >= maxSize {
        if IsAlert(m) {
          var dropped := DropOne(m);
          if !dropped {
            stats := stats.(alertDropped := stats.alertDropped + 1);
            return;
          }
          stats := stats.(alertOverflow := stats.alertOverflow + 1);
        } else if IsCritical(m) {
          var dropped := DropOne(m);
          if !dropped {
            stats := stats.(dropped := stats.dropped + 1);
            return;
          }
          stats := stats.(criticalOverflow := stats.criticalOverflow + 1);
        } else {
          stats := stats.(dropped := stats.dropped + 1);
          return;
        }
      }
      if |queue| >= maxSize {
        assert false;
      }
      queue := queue + [m];
      stats := stats.(enqueued := stats.enqueued + 1);
      if IsAlert(m) {
        stats := stats.(alertsEnqueued := stats.alertsEnqueued + 1);
      }
    }

    /** `drain`. */
    method Drain(limit: Option<int>) returns (drained: seq<Message>)
      requires Valid()
      modifies this`queue
      ensures Valid()
      ensures var n := DrainCount(old(queue), limit);
              drained == old(queue)[..n] && queue == old(queue)[n..]
    {
      drained := [];
      while queue != [] && (limit.None? || |drained| < limit.value)
        invariant drained + queue == old(queue)
        invariant limit.Some? ==> |drained| <= (if limit.value < 0 then 0 else limit.value)
        decreases |queue|
      {
        drained := drained + [queue[0]];
        queue := queue[1..];
      }
    }
  }

  // ---------- runs ----------

  datatype Op = Offer(message: Message) | DrainOp(limit: Option<int>)

  function After(s: State, op: Op, maxSize: int): State {
    match op
    case Offer(m) => Offered(s, m, maxSize)
    case DrainOp(limit) => s.(queue := s.queue[DrainCount(s.queue, limit)..])
  }

  function Run(ops: seq<Op>, maxSize: int): State {
    if ops == [] then START else After(Run(ops[..|ops| - 1], maxSize), ops[|ops| - 1], maxSize)
  }

  /** Everything drained so far, in delivery order. */
  function Delivered(ops: seq<Op>, maxSize: int): seq<Message> {
    if ops == [] then []
    else
      var front, op := ops[..|ops| - 1], ops[|ops| - 1];
      Delivered(front, maxSize)
      + match op
        case Offer(_) => []
        case DrainOp(limit) =>
          var queue := Run(front, maxSize).queue;
          queue[..DrainCount(queue, limit)]
  }

  function Offers(ops: seq<Op>): seq<Message> {
    if ops == [] then []
    else Offers(ops[..|ops| - 1]) + if ops[|ops| - 1].Offer? then [ops[|ops| - 1].message] else []
  }

  /** Delivered and still queued messages: what the client has seen or will see. */
  function Visible(ops: seq<Op>, maxSize: int): seq<Message> {
    Delivered(ops, maxSize) + Run(ops, maxSize).queue
  }

  /** The alerts that the queue did not refuse, in order of arrival. */
  function AdmittedAlerts(ops: seq<Op>, maxSize: int): seq<Message> {
    if ops == [] then []
    else
      var front, op := ops[..|ops| - 1], ops[|ops| - 1];
      AdmittedAlerts(front, maxSize)
      + if op.Offer? && IsAlert(op.message)
           && Run(ops, maxSize).stats.alertDropped == Run(front, maxSize).stats.alertDropped
        then [op.message] else []
  }

  ghost predicate Balanced(s: State, offers: nat, delivered: nat) {
    && offers == |s.queue| + delivered + s.stats.coalesced + s.stats.dropped + s.stats.alertDropped
    && s.stats.enqueued == |s.queue| + delivered + s.stats.alertOverflow + s.stats.criticalOverflow
  }

  /** The books balance in every reachable state, and the queue never exceeds its bound. */
  lemma {:induction false} Accounting(ops: seq<Op>, maxSize: int)
    ensures Balanced(Run(ops, maxSize), |Offers(ops)|, |Delivered(ops, maxSize)|)
    ensures |Run(ops, maxSize).queue| <= if maxSize < 0 then 0 else maxSize
  {
    if ops != [] {
      Accounting(ops[..|ops| - 1], maxSize);
    }
  }

  /** An alert is refused exactly when the queue is full of alerts. */
  lemma AlertRefusal(s: State, m: Message, maxSize: int)
    requires IsAlert(m)
    ensures Offered(s, m, maxSize) == Refused(s, m)
            <==> |s.queue| >= maxSize && forall i :: 0 <= i < |s.queue| ==> IsAlert(s.queue[i])
  {
    var victim := FirstEvictable(s.queue, m);
    if victim.Some? {
      assert !IsAlert(s.queue[victim.value]);
    }
  }

  /** The four things an offer can do to the queued messages. */
  datatype Move = Keep | Replace(at: nat) | Append | EvictAppend(at: nat)

  function MoveOf(s: State, m: Message, maxSize: int): (r: Move)
    ensures r.Replace? ==> r.at < |s.queue| && IsRealtime(s.queue[r.at]) && IsRealtime(m)
    ensures r.EvictAppend? ==> r.at < |s.queue| && !IsAlert(s.queue[r.at])
  {
    var at, victim := LatestMatch(s.queue, m), FirstEvictable(s.queue, m);
    if IsRealtime(m) && at.Some? then Replace(at.value)
    else if |s.queue| < maxSize then Append
    else if (IsAlert(m) || IsCritical(m)) && victim.Some? then EvictAppend(victim.value)
    else Keep
  }

  function Moved(queue: seq<Message>, move: Move, m: Message, offset: nat): seq<Message>
    requires move.Replace? || move.EvictAppend? ==> offset + move.at < |queue|
  {
    match move
    case Keep => queue
    case Replace(at) => queue[offset + at := m]
    case Append => queue + [m]
    case EvictAppend(at) => Without(queue, offset + at) + [m]
  }

  lemma OfferMoves(delivered: seq<Message>, s: State, m: Message, maxSize: int)
    ensures var r, move := Offered(s, m, maxSize), MoveOf(s, m, maxSize);
            && delivered + r.queue == Moved(delivered + s.queue, move, m, |delivered|)
            && (r.stats.alertDropped == s.stats.alertDropped <==> !(IsAlert(m) && move.Keep?))
  {
  }

  /** Drained messages move from the queue to the client: nothing in sight changes. */
  lemma DrainMovesNothing(ops: seq<Op>, maxSize: int)
    requires ops != [] && ops[|ops| - 1].DrainOp?
    ensures Visible(ops, maxSize) == Visible(ops[..|ops| - 1], maxSize)
  {
    var queue := Run(ops[..|ops| - 1], maxSize).queue;
    var n := DrainCount(queue, ops[|ops| - 1].limit);
    assert queue == queue[..n] + queue[n..];
  }

  lemma KeptAppended(keep: Message -> bool, seen: seq<Message>, m: Message)
    ensures Select(keep, seen + [m]) == if keep(m) then Select(keep, seen) + [m] else Select(keep, seen)
  {
    SelectConcat(keep, seen, [m]);
    SelectOne(keep, m);
  }

  lemma KeptUntouched(keep: Message -> bool, seen: seq<Message>, k: nat, m: Message)
    requires k < |seen| && !keep(seen[k])
    ensures Select(keep, Without(seen, k)) == Select(keep, seen)
    ensures !keep(m) ==> Select(keep, seen[k := m]) == Select(keep, seen)
  {
    SelectWithout(keep, seen, k);
    if !keep(m) {
      SelectUpdate(keep, seen, k, m);
    }
  }

  /** What a move does to the messages of some sort that it neither replaces nor evicts. */
  lemma {:induction false} KeptMoved(keep: Message -> bool, seen: seq<Message>, move: Move, m: Message, offset: nat)
    requires move.Replace? || move.EvictAppend? ==> offset + move.at < |seen| && !keep(seen[offset + move.at])
    requires move.Replace? ==> !keep(m)
    ensures Select(keep, Moved(seen, move, m, offset))
            == if keep(m) && !move.Keep? then Select(keep, seen) + [m] else Select(keep, seen)
  {
    match move {
      case Keep =>
      case Replace(at) => KeptUntouched(keep, seen, offset + at, m);
      case Append => KeptAppended(keep, seen, m);
      case EvictAppend(at) =>
        KeptUntouched(keep, seen, offset + at, m);
        KeptAppended(keep, Without(seen, offset + at), m);
    }
  }

  lemma AlertsAfterOffer(before: seq<Message>, s: State, m: Message, maxSize: int)
    ensures var r, seen := Offered(s, m, maxSize), Select(IsAlert, before + s.queue);
            Select(IsAlert, before + r.queue)
            == if IsAlert(m) && r.stats.alertDropped == s.stats.alertDropped then seen + [m] else seen
  {
    OfferMoves(before, s, m, maxSize);
    KeptMoved(IsAlert, before + s.queue, MoveOf(s, m, maxSize), m, |before|);
  }

  /** Delivered and queued alerts are exactly the admitted ones, in order: an admitted alert
      leaves the queue only by being drained. */
  lemma {:induction false} AlertsSurvive(ops: seq<Op>, maxSize: int)
    ensures Select(IsAlert, Visible(ops, maxSize)) == AdmittedAlerts(ops, maxSize)
  {
    if ops != [] {
      var front, op := ops[..|ops| - 1], ops[|ops| - 1];
      AlertsSurvive(front, maxSize);
      if op.Offer? {
        assert Delivered(ops, maxSize) == Delivered(front, maxSize);
        AlertsAfterOffer(Delivered(front, maxSize), Run(front, maxSize), op.message, maxSize);
      } else {
        DrainMovesNothing(ops, maxSize);
        assert AdmittedAlerts(ops, maxSize) == AdmittedAlerts(front, maxSize);
      }
    }
  }

  lemma OrderMoved(seen: seq<Message>, move: Move, m: Message, offset: nat, offers: seq<Message>)
    requires move.Replace? ==> offset + move.at < |seen| && IsRealtime(seen[offset + move.at]) && IsRealtime(m)
    requires move.EvictAppend? ==> offset + move.at < |seen|
    requires IsSubsequence(Select(IsOrdered, seen), offers)
    ensures IsSubsequence(Select(IsOrdered, Moved(seen, move, m, offset)), offers + [m])
  {
    var kept := Select(IsOrdered, seen);
    match move {
      case Keep => SubsequenceSkip(kept, offers, m);
      case Replace(at) =>
        SelectUpdate(IsOrdered, seen, offset + at, m);
        SubsequenceSkip(kept, offers, m);
      case Append => OrderAppended(seen, m, offers);
      case EvictAppend(at) =>
        var k := offset + at;
        SelectWithout(IsOrdered, seen, k);
        if IsOrdered(seen[k]) {
          SubsequenceDelete(kept, |Select(IsOrdered, seen[..k])|, offers);
        }
        OrderAppended(Without(seen, k), m, offers);
    }
  }

  lemma OrderAppended(seen: seq<Message>, m: Message, offers: seq<Message>)
    requires IsSubsequence(Select(IsOrdered, seen), offers)
    ensures IsSubsequence(Select(IsOrdered, seen + [m]), offers + [m])
  {
    SelectConcat(IsOrdered, seen, [m]);
    SelectOne(IsOrdered, m);
    var kept := Select(IsOrdered, seen);
    if IsOrdered(m) {
      SubsequenceKeep(kept, offers, m);
    } else {
      SubsequenceSkip(kept, offers, m);
      assert kept + [] == kept;
    }
  }

  lemma OrderAfterOffer(before: seq<Message>, s: State, m: Message, maxSize: int, offers: seq<Message>)
    requires IsSubsequence(Select(IsOrdered, before + s.queue), offers)
    ensures IsSubsequence(Select(IsOrdered, before + Offered(s, m, maxSize).queue), offers + [m])
  {
    OfferMoves(before, s, m, maxSize);
    OrderMoved(before + s.queue, MoveOf(s, m, maxSize), m, |before|, offers);
  }

  /** Messages that are not coalesced are seen in the order they were offered. */
  lemma {:induction false} OrderKept(ops: seq<Op>, maxSize: int)
    ensures IsSubsequence(Select(IsOrdered, Visible(ops, maxSize)), Offers(ops))
  {
    if ops != [] {
      var front, op := ops[..|ops| - 1], ops[|ops| - 1];
      OrderKept(front, maxSize);
      if op.Offer? {
        assert Delivered(ops, maxSize) == Delivered(front, maxSize);
        assert Offers(ops) == Offers(front) + [op.message];
        OrderAfterOffer(Delivered(front, maxSize), Run(front, maxSize), op.message, maxSize, Offers(front));
      } else {
        DrainMovesNothing(ops, maxSize);
        assert Offers(ops) == Offers(front);
      }
    }
  }

  // ---------- what an offer does, spelled out ----------

  predicate IsResponse(m: Message) {
    m.kind.SnapshotResponse? || m.kind.HoldingNameClickResponse?
  }

  /** The queue loses its k-th message, the first that is none of those kept, and gains m. */
  ghost predicate PushesOut(queue: seq<Message>, r: seq<Message>, m: Message, k: nat, keeps: Message -> bool) {
    && k < |queue| && !keeps(queue[k]) && (forall i :: 0 <= i < k ==> keeps(queue[i]))
    && r == queue[..k] + queue[k + 1..] + [m]
  }

  predicate AlertKind(m: Message) {
    m.kind == AlertRealtime
  }

  predicate AlertOrResponse(m: Message) {
    m.kind == AlertRealtime || m.kind == SnapshotResponse || m.kind == HoldingNameClickResponse
  }

  /** A message that no queued one gives way to, offered while there is room. */
  lemma OfferWithRoom(s: State, m: Message, maxSize: int)
    requires |s.queue| < maxSize
    requires m.kind == TickRealtime || m.kind == QueueRealtime ==>
               forall i :: 0 <= i < |s.queue| && s.queue[i].kind == m.kind ==>
                 s.queue[i].symbol != Some(m.symbol.GetOr(""))
    ensures var t, alerts := s.stats, if m.kind == AlertRealtime then 1 else 0;
            Offered(s, m, maxSize)
            == State(s.queue + [m], t.(enqueued := t.enqueued + 1, alertsEnqueued := t.alertsEnqueued + alerts))
  {
  }

  /** An alert offered to a full queue: refused if there is nothing but alerts, else it pushes
      out the first message that is not one. */
  lemma AlertWhenFull(s: State, m: Message, maxSize: int)
    requires |s.queue| >= maxSize && m.kind == AlertRealtime
    ensures var r, t := Offered(s, m, maxSize), s.stats;
            if forall i :: 0 <= i < |s.queue| ==> AlertKind(s.queue[i])
            then r == State(s.queue, t.(alertDropped := t.alertDropped + 1))
            else
              && r.stats == t.(dropped := t.dropped + 1, alertOverflow := t.alertOverflow + 1,
                               enqueued := t.enqueued + 1, alertsEnqueued := t.alertsEnqueued + 1)
              && exists k :: PushesOut(s.queue, r.queue, m, k, AlertKind)
  {
    var victim := FirstEvictable(s.queue, m);
    if victim.Some? {
      assert !AlertKind(s.queue[victim.value]);
      assert PushesOut(s.queue, Offered(s, m, maxSize).queue, m, victim.value, AlertKind);
    }
  }

  /** A response offered to a full queue: refused if there is nothing but alerts and responses,
      else it pushes out the first message that is neither. */
  lemma ResponseWhenFull(s: State, m: Message, maxSize: int)
    requires |s.queue| >= maxSize && (m.kind == SnapshotResponse || m.kind == HoldingNameClickResponse)
    ensures var r, t := Offered(s, m, maxSize), s.stats;
            if forall i :: 0 <= i < |s.queue| ==> AlertOrResponse(s.queue[i])
            then r == State(s.queue, t.(dropped := t.dropped + 1))
            else
              && r.stats == t.(dropped := t.dropped + 1, criticalOverflow := t.criticalOverflow + 1,
                               enqueued := t.enqueued + 1)
              && exists k :: PushesOut(s.queue, r.queue, m, k, AlertOrResponse)
  {
    var victim := FirstEvictable(s.queue, m);
    if victim.Some? {
      assert !AlertOrResponse(s.queue[victim.value]);
      assert PushesOut(s.queue, Offered(s, m, maxSize).queue, m, victim.value, AlertOrResponse);
    }
  }

  /** Any other message offered to a full queue is dropped, unless a queued one gives way. */
  lemma OtherWhenFull(s: State, m: Message, maxSize: int)
    requires |s.queue| >= maxSize && !AlertOrResponse(m)
    requires m.kind == TickRealtime || m.kind == QueueRealtime ==>
               forall i :: 0 <= i < |s.queue| && s.queue[i].kind == m.kind ==>
                 s.queue[i].symbol != Some(m.symbol.GetOr(""))
    ensures Offered(s, m, maxSize) == State(s.queue, s.stats.(dropped := s.stats.dropped + 1))
  {
  }

  /** A coalesced offer changes one place of the queue and one counter. */
  lemma CoalescedCounts(s: State, m: Message, maxSize: int)
    requires m.kind == TickRealtime || m.kind == QueueRealtime
    requires exists i :: 0 <= i < |s.queue| && s.queue[i].kind == m.kind
                         && s.queue[i].symbol == Some(m.symbol.GetOr(""))
    ensures var r := Offered(s, m, maxSize);
            && r.stats == s.stats.(coalesced := s.stats.coalesced + 1)
            && exists k :: 0 <= k < |s.queue| && r.queue == s.queue[k := m]
                           && s.queue[k].kind == m.kind && s.queue[k].symbol == Some(m.symbol.GetOr(""))
  {
    var i :| 0 <= i < |s.queue| && s.queue[i].kind == m.kind && s.queue[i].symbol == Some(m.symbol.GetOr(""));
    assert Matches(s.queue[i], m);
    var at := LatestMatch(s.queue, m);
    assert at.Some? && Matches(s.queue[at.value], m);
  }

  /** A drain hands out everything, or as many messages as asked for. */
  lemma DrainMeans(queue: seq<Message>, limit: Option<int>)
    ensures var n := DrainCount(queue, limit);
            && n <= |queue| && (limit.None? ==> n == |queue|)
            && (limit.Some? ==> (n == |queue| || n == limit.value || (n == 0 && limit.value < 0))
                                && (n <= limit.value || n == 0))
  {
  }

  // ---------- alerts and responses together ----------

  /** An offer that is not an alert keeps the alerts and responses in sight. */
  lemma {:induction false} KeptAfterOffer(keep: Message -> bool, before: seq<Message>, s: State, m: Message,
                                          maxSize: int)
    requires m.kind != AlertRealtime && forall x :: keep(x) ==> AlertOrResponse(x)
    ensures var r, seen := Offered(s, m, maxSize), Select(keep, before + s.queue);
            Select(keep, before + r.queue)
            == if keep(m) && r.stats.enqueued > s.stats.enqueued then seen + [m] else seen
  {
    var move := MoveOf(s, m, maxSize);
    OfferMoves(before, s, m, maxSize);
    if move.EvictAppend? {
      assert Evictable(s.queue[move.at], m);
    }
    KeptMoved(keep, before + s.queue, move, m, |before|);
    if keep(m) {
      AdmittedMove(s, m, maxSize);
    }
  }

  lemma {:induction false} AdmittedMove(s: State, m: Message, maxSize: int)
    requires !IsRealtime(m)
    ensures Offered(s, m, maxSize).stats.enqueued > s.stats.enqueued <==> !MoveOf(s, m, maxSize).Keep?
  {
  }

  /** It leaves the alerts and responses in sight as they are, in order, and adds itself if it
      is a response and admitted. */
  lemma ProtectedStay(before: seq<Message>, s: State, m: Message, maxSize: int)
    requires m.kind != AlertRealtime
    ensures var r, seen := Offered(s, m, maxSize), Select(AlertOrResponse, before + s.queue);
            Select(AlertOrResponse, before + r.queue)
            == if AlertOrResponse(m) && r.stats.enqueued > s.stats.enqueued then seen + [m] else seen
  {
    KeptAfterOffer(AlertOrResponse, before, s, m, maxSize);
  }

  /** The responses that the queue admitted, in order. */
  function AdmittedResponses(ops: seq<Op>, maxSize: int): seq<Message> {
    if ops == [] then []
    else
      var front, op := ops[..|ops| - 1], ops[|ops| - 1];
      AdmittedResponses(front, maxSize)
      + if op.Offer? && IsResponse(op.message)
           && Run(ops, maxSize).stats.enqueued > Run(front, maxSize).stats.enqueued
        then [op.message] else []
  }

  /** How many responses the alerts of a run pushed out. */
  function PushedOutByAlerts(ops: seq<Op>, maxSize: int): int {
    if ops == [] then 0
    else
      var front, op := ops[..|ops| - 1], ops[|ops| - 1];
      PushedOutByAlerts(front, maxSize)
      + if op.Offer? && op.message.kind == AlertRealtime
        then |Select(IsResponse, Run(front, maxSize).queue)| - |Select(IsResponse, Run(ops, maxSize).queue)| else 0
  }

  /** An admitted response leaves the queue only by being drained, or pushed out by an alert. */
  lemma {:induction false} ResponsesSurvive(ops: seq<Op>, maxSize: int)
    ensures |Select(IsResponse, Visible(ops, maxSize))| + PushedOutByAlerts(ops, maxSize)
            == |AdmittedResponses(ops, maxSize)|
    ensures (forall i :: 0 <= i < |ops| && ops[i].Offer? ==> ops[i].message.kind != AlertRealtime) ==>
              Select(IsResponse, Visible(ops, maxSize)) == AdmittedResponses(ops, maxSize)
  {
    if ops != [] {
      var front, op := ops[..|ops| - 1], ops[|ops| - 1];
      ResponsesSurvive(front, maxSize);
      if op.DrainOp? {
        DrainMovesNothing(ops, maxSize);
        assert AdmittedResponses(ops, maxSize) == AdmittedResponses(front, maxSize);
      } else {
        assert Delivered(ops, maxSize) == Delivered(front, maxSize);
        SelectConcat(IsResponse, Delivered(front, maxSize), Run(front, maxSize).queue);
        SelectConcat(IsResponse, Delivered(front, maxSize), Run(ops, maxSize).queue);
        if op.message.kind != AlertRealtime {
          KeptAfterOffer(IsResponse, Delivered(front, maxSize), Run(front, maxSize), op.message, maxSize);
        }
      }
    }
  }

  // ---------- coalescing ----------

  /** The coalescing key of a realtime message that carries a symbol. */
  predicate HasKey(m: Message, kind: Kind, symbol: string) {
    IsRealtime(m) && m.kind == kind && m.symbol == Some(symbol)
  }

  /** The most recent offer with that key. */
  function LatestOffer(ops: seq<Op>, kind: Kind, symbol: string): Option<Message> {
    if ops == [] then None
    else
      var op := ops[|ops| - 1];
      if op.Offer? && HasKey(op.message, kind, symbol) then Some(op.message)
      else LatestOffer(ops[..|ops| - 1], kind, symbol)
  }

  ghost predicate KeysUnique(queue: seq<Message>) {
    forall i, j :: 0 <= i < j < |queue| && IsRealtime(queue[i]) && queue[i].symbol.Some? ==>
      !(queue[i].kind == queue[j].kind && queue[i].symbol == queue[j].symbol)
  }

  lemma UniqueOffered(s: State, m: Message, maxSize: int)
    requires KeysUnique(s.queue)
    ensures KeysUnique(Offered(s, m, maxSize).queue)
  {
  }

  /** Each key is queued at most once, and what is queued for it is its latest offer. */
  lemma {:induction false} QueuedIsLatest(ops: seq<Op>, maxSize: int)
    ensures var queue := Run(ops, maxSize).queue;
            && KeysUnique(queue)
            && (forall i :: 0 <= i < |queue| && IsRealtime(queue[i]) && queue[i].symbol.Some?
                  ==> LatestOffer(ops, queue[i].kind, queue[i].symbol.value) == Some(queue[i]))
  {
    if ops != [] {
      var front, op := ops[..|ops| - 1], ops[|ops| - 1];
      QueuedIsLatest(front, maxSize);
      var s, r := Run(front, maxSize), Run(ops, maxSize);
      if op.Offer? {
        UniqueOffered(s, op.message, maxSize);
        forall i | 0 <= i < |r.queue| && IsRealtime(r.queue[i]) && r.queue[i].symbol.Some?
          ensures LatestOffer(ops, r.queue[i].kind, r.queue[i].symbol.value) == Some(r.queue[i])
        {
          OfferedEntry(s, op.message, maxSize, i);
        }
      }
    }
  }

  /** After an offer, a queued entry is the offer itself, or an old entry with another key. */
  lemma OfferedEntry(s: State, m: Message, maxSize: int, i: nat)
    requires KeysUnique(s.queue) && i < |Offered(s, m, maxSize).queue|
    requires var x := Offered(s, m, maxSize).queue[i];
             IsRealtime(x) && x.symbol.Some?
    ensures var x := Offered(s, m, maxSize).queue[i];
            x == m || (x in s.queue && !HasKey(m, x.kind, x.symbol.value))
  {
    var x := Offered(s, m, maxSize).queue[i];
    var at := LatestMatch(s.queue, m);
    if x != m {
      assert x in s.queue;
      var j :| 0 <= j < |s.queue| && s.queue[j] == x;
      if HasKey(m, x.kind, x.symbol.value) {
        assert Matches(s.queue[j], m);
      }
    }
  }

  // ---------- messages without a symbol ----------

  /** An absent symbol is looked up as "". */
  function LookupSymbol(m: Message): string {
    m.symbol.GetOr("")
  }

  /** A realtime offer is coalesced exactly when a message of its kind is queued whose own
      symbol is there and equals the one looked up; the last such message gives way. */
  lemma OfferCoalesces(s: State, m: Message, maxSize: int)
    requires IsRealtime(m)
    ensures var r := Offered(s, m, maxSize);
            && (r.stats.coalesced == s.stats.coalesced + 1
                <==> exists i :: 0 <= i < |s.queue| && s.queue[i].kind == m.kind
                                 && s.queue[i].symbol == Some(LookupSymbol(m)))
            && (r.stats.coalesced == s.stats.coalesced + 1 ==>
                  exists k :: 0 <= k < |s.queue| && r.queue == s.queue[k := m]
                              && s.queue[k].kind == m.kind && s.queue[k].symbol == Some(LookupSymbol(m))
                              && forall i :: k < i < |s.queue| && s.queue[i].kind == m.kind ==>
                                   s.queue[i].symbol != Some(LookupSymbol(m)))
  {
    var at := LatestMatch(s.queue, m);
    if at.Some? {
      assert Matches(s.queue[at.value], m);
      forall i | at.value < i < |s.queue| && s.queue[i].kind == m.kind
        ensures s.queue[i].symbol != Some(LookupSymbol(m))
      {
        assert !Matches(s.queue[i], m);
      }
    } else {
      forall i | 0 <= i < |s.queue| && s.queue[i].kind == m.kind
        ensures s.queue[i].symbol != Some(LookupSymbol(m))
      {
        assert !Matches(s.queue[i], m);
      }
    }
  }

  /** A queued message without a symbol is never the one replaced. */
  lemma SymbollessStaysPut(s: State, m: Message, maxSize: int, i: nat)
    requires IsRealtime(m) && i < |s.queue| && s.queue[i].symbol.None?
    ensures var r := Offered(s, m, maxSize);
            i < |r.queue| && r.queue[i] == s.queue[i]
  {
    OfferCoalesces(s, m, maxSize);
  }

  /** Two queued realtime messages of one kind that are looked up under one symbol. */
  predicate Twins(x: Message, y: Message) {
    IsRealtime(x) && x.kind == y.kind && LookupSymbol(x) == LookupSymbol(y)
  }

  /** Of two twins the earlier one has no symbol, so both are looked up under "". */
  ghost predicate TwinsAreSymbolless(queue: seq<Message>) {
    forall i, j :: 0 <= i < j < |queue| && Twins(queue[i], queue[j]) ==> queue[i].symbol.None?
  }

  lemma TwinsOffered(s: State, m: Message, maxSize: int)
    requires TwinsAreSymbolless(s.queue)
    ensures TwinsAreSymbolless(Offered(s, m, maxSize).queue)
  {
    var at, r := LatestMatch(s.queue, m), Offered(s, m, maxSize).queue;
    forall i, j | 0 <= i < j < |r| && Twins(r[i], r[j])
      ensures r[i].symbol.None?
    {
      if r == s.queue + [m] && j == |s.queue| {
        assert !Matches(s.queue[i], m) by { assert IsRealtime(m) && at.None?; }
      } else if IsRealtime(m) && at.Some? {
        forall n | at.value < n < |s.queue| && s.queue[n].kind == m.kind
          ensures s.queue[n].symbol != Some(LookupSymbol(m))
        {
          assert !Matches(s.queue[n], m);
        }
        TwinsReplaced(s.queue, at.value, m, i, j);
      }
    }
  }

  lemma TwinsReplaced(queue: seq<Message>, k: nat, m: Message, i: nat, j: nat)
    requires TwinsAreSymbolless(queue) && k < |queue| && i < j < |queue| && IsRealtime(m)
    requires Matches(queue[k], m)
    requires forall n :: k < n < |queue| && queue[n].kind == m.kind ==> queue[n].symbol != Some(LookupSymbol(m))
    requires Twins(queue[k := m][i], queue[k := m][j])
    ensures queue[k := m][i].symbol.None?
  {
    assert Twins(queue[i], queue[j]);
  }

  lemma {:induction false} QueuedTwins(ops: seq<Op>, maxSize: int)
    ensures TwinsAreSymbolless(Run(ops, maxSize).queue)
  {
    if ops != [] {
      var front, op := ops[..|ops| - 1], ops[|ops| - 1];
      QueuedTwins(front, maxSize);
      if op.Offer? {
        TwinsOffered(Run(front, maxSize), op.message, maxSize);
      }
    }
  }

  /** Some run queues two messages of that kind looked up under that symbol. */
  ghost predicate CanQueueTwice(kind: Kind, symbol: string, maxSize: int) {
    exists ops, i, j :: 0 <= i < j < |Run(ops, maxSize).queue|
      && Twins(Run(ops, maxSize).queue[i], Run(ops, maxSize).queue[j])
      && Run(ops, maxSize).queue[i].kind == kind && LookupSymbol(Run(ops, maxSize).queue[i]) == symbol
  }

  /** Two offers without a symbol are both queued: the witness of the law below. */
  lemma SymbollessQueuedTwice(kind: Kind, maxSize: int)
    requires (kind.TickRealtime? || kind.QueueRealtime?) && maxSize >= 2
    ensures var m := Message(kind, None, 0);
            Run([Offer(m), Offer(m)], maxSize).queue == [m, m]
  {
    var m := Message(kind, None, 0);
    var ops := [Offer(m), Offer(m)];
    assert ops[..1] == [Offer(m)] && [Offer(m)][..0] == [];
    assert Run([Offer(m)], maxSize) == After(START, Offer(m), maxSize);
    assert Run(ops, maxSize) == After(Run([Offer(m)], maxSize), Offer(m), maxSize);
  }

  /** Over all runs, a realtime kind and symbol can be queued twice exactly when the symbol is
      the empty one that absent symbols are looked up under, and there is room for two. */
  lemma SymbollessIsNotCoalesced(kind: Kind, symbol: string, maxSize: int)
    requires kind.TickRealtime? || kind.QueueRealtime?
    ensures CanQueueTwice(kind, symbol, maxSize) <==> symbol == "" && maxSize >= 2
  {
    if CanQueueTwice(kind, symbol, maxSize) {
      var ops, i, j :| 0 <= i < j < |Run(ops, maxSize).queue|
        && Twins(Run(ops, maxSize).queue[i], Run(ops, maxSize).queue[j])
        && Run(ops, maxSize).queue[i].kind == kind && LookupSymbol(Run(ops, maxSize).queue[i]) == symbol;
      QueuedTwins(ops, maxSize);
      Accounting(ops, maxSize);
    }
    if symbol == "" && maxSize >= 2 {
      var m := Message(kind, None, 0);
      SymbollessQueuedTwice(kind, maxSize);
      var ops := [Offer(m), Offer(m)];
      assert Twins(Run(ops, maxSize).queue[0], Run(ops, maxSize).queue[1]);
    }
  }
}
