/** Greedy multi-key deduplication: an event is accepted when it shares no key with what
    was accepted before. The laws hold for every key function and every sort order. */
module Deduplication {
  import opened Sequences

  function AllKeys<E(!new), K(!new)>(keys: E -> set<K>, events: seq<E>): set<K> {
    if events == [] then {} else AllKeys(keys, events[..|events| - 1]) + keys(events[|events| - 1])
  }

  /** The events accepted in turn: those that share no key with what was seen before. */
  function Accepted<E(!new), K(!new)>(keys: E -> set<K>, seen: set<K>, events: seq<E>): seq<E> {
    if events == [] then []
    else
      var front, e := Accepted(keys, seen, events[..|events| - 1]), events[|events| - 1];
      if keys(e) !! seen + AllKeys(keys, front) then front + [e] else front
  }

  lemma AcceptedStep<E(!new), K(!new)>(keys: E -> set<K>, seen: set<K>, events: seq<E>, e: E)
    ensures var a := Accepted(keys, seen, events);
            Accepted(keys, seen, events + [e]) == if keys(e) !! seen + AllKeys(keys, a) then a + [e] else a
  {
    assert (events + [e])[..|events|] == events;
  }

  lemma AllKeysStep<E(!new), K(!new)>(keys: E -> set<K>, events: seq<E>, e: E)
    ensures AllKeys(keys, events + [e]) == AllKeys(keys, events) + keys(e)
  {
    assert (events + [e])[..|events|] == events;
  }

  lemma {:induction false} AllKeysMembers<E(!new), K(!new)>(keys: E -> set<K>, events: seq<E>)
    ensures forall k :: k in AllKeys(keys, events) <==> exists e :: e in events && k in keys(e)
  {
    if events != [] {
      var front, last := events[..|events| - 1], events[|events| - 1];
      AllKeysMembers(keys, front);
      assert events == front + [last];
    }
  }

  lemma SameKeys<E(!new), K(!new)>(keys: E -> set<K>, a: seq<E>, b: seq<E>)
    requires forall e :: e in a <==> e in b
    ensures AllKeys(keys, a) == AllKeys(keys, b)
  {
    AllKeysMembers(keys, a);
    AllKeysMembers(keys, b);
  }

  lemma {:induction false} AllKeysConcat<E(!new), K(!new)>(keys: E -> set<K>, a: seq<E>, b: seq<E>)
    ensures AllKeys(keys, a + b) == AllKeys(keys, a) + AllKeys(keys, b)
  {
    if b == [] {
      assert a + b == a;
    } else {
      AllKeysConcat(keys, a, b[..|b| - 1]);
      assert (a + b)[..|a + b| - 1] == a + b[..|b| - 1];
    }
  }

  ghost predicate PairwiseDisjoint<E(!new), K(!new)>(keys: E -> set<K>, events: seq<E>) {
    forall i, j :: 0 <= i < j < |events| ==> keys(events[i]) !! keys(events[j])
  }

  /** Accepted events keep their order and share no key among themselves or with what was seen. */
  lemma {:induction false} AcceptedAreDistinct<E(!new), K(!new)>(keys: E -> set<K>, seen: set<K>, events: seq<E>)
    ensures var a := Accepted(keys, seen, events);
            IsSubsequence(a, events) && PairwiseDisjoint(keys, a) && AllKeys(keys, a) !! seen
  {
    if events != [] {
      var front, e := events[..|events| - 1], events[|events| - 1];
      AcceptedAreDistinct(keys, seen, front);
      var a := Accepted(keys, seen, front);
      assert events == front + [e];
      if keys(e) !! seen + AllKeys(keys, a) {
        SubsequenceKeep(a, front, e);
        AllKeysMembers(keys, a);
        AllKeysStep(keys, a, e);
      } else {
        SubsequenceSkip(a, front, e);
      }
    }
  }

  /** An event is accepted in its turn, or it shares a key with what was seen or with an
      event accepted before its turn. */
  lemma SkippedSharesKey<E(!new), K(!new)>(keys: E -> set<K>, seen: set<K>, events: seq<E>, i: nat)
    requires i < |events|
    ensures var before := Accepted(keys, seen, events[..i]);
            || Accepted(keys, seen, events[..i + 1]) == before + [events[i]]
            || (Accepted(keys, seen, events[..i + 1]) == before
                && exists key :: key in keys(events[i])
                                 && (key in seen || exists a :: a in before && key in keys(a)))
  {
    var before := Accepted(keys, seen, events[..i]);
    assert events[..i + 1] == events[..i] + [events[i]];
    AcceptedStep(keys, seen, events[..i], events[i]);
    AllKeysMembers(keys, before);
  }

  lemma {:induction false} AcceptedMembers<E(!new), K(!new)>(keys: E -> set<K>, seen: set<K>, events: seq<E>)
    ensures forall e :: e in Accepted(keys, seen, events) ==> e in events
    ensures forall e :: e in events ==>
              e in Accepted(keys, seen, events) || !(keys(e) !! seen + AllKeys(keys, Accepted(keys, seen, events)))
  {
    if events != [] {
      var front, last := events[..|events| - 1], events[|events| - 1];
      AcceptedMembers(keys, seen, front);
      var a := Accepted(keys, seen, front);
      assert events == front + [last];
      AllKeysStep(keys, a, last);
    }
  }

  lemma {:induction false} AllRejected<E(!new), K(!new)>(keys: E -> set<K>, seen: set<K>, events: seq<E>)
    requires forall e :: e in events ==> !(keys(e) !! seen)
    ensures Accepted(keys, seen, events) == []
  {
    if events != [] {
      AllRejected(keys, seen, events[..|events| - 1]);
    }
  }

  /** Events that share no key are all accepted. */
  lemma {:induction false} UnlikeAreAccepted<E(!new), K(!new)>(keys: E -> set<K>, seen: set<K>, events: seq<E>)
    requires PairwiseDisjoint(keys, events) && AllKeys(keys, events) !! seen
    ensures Accepted(keys, seen, events) == events
  {
    if events != [] {
      LastIsDisjoint(keys, seen, events);
      UnlikeAreAccepted(keys, seen, events[..|events| - 1]);
    }
  }

  // ---------- replaying a sorted log ----------

  lemma {:induction false} AcceptedSorted<E(!new), K(!new)>(keys: E -> set<K>, le: (E, E) -> bool, events: seq<E>)
    requires SortedBy(le, events)
    ensures SortedBy(le, Accepted(keys, {}, events))
  {
    if events != [] {
      var front, last := events[..|events| - 1], events[|events| - 1];
      AcceptedSorted(keys, le, front);
      AcceptedMembers(keys, {}, front);
      var a := Accepted(keys, {}, front);
      forall i | 0 <= i < |a|
        ensures le(a[i], last)
      {
        assert a[i] in front;
      }
    }
  }

  lemma BelowLast<E(!new)>(le: (E, E) -> bool, sorted: seq<E>, x: E, b: E)
    requires TotalPreorder(le) && SortedBy(le, sorted) && x in sorted && le(sorted[|sorted| - 1], b)
    ensures le(x, b)
  {
    var i :| 0 <= i < |sorted| && sorted[i] == x;
    if i < |sorted| - 1 {
      assert le(x, sorted[|sorted| - 1]);
    }
  }

  /** The accepted events of a sorted list stay below its last element. */
  lemma AcceptedBelowLast<E(!new), K(!new)>(keys: E -> set<K>, le: (E, E) -> bool, sorted: seq<E>, b: E)
    requires TotalPreorder(le) && SortedBy(le, sorted) && sorted != [] && le(sorted[|sorted| - 1], b)
    ensures Insert(le, Accepted(keys, {}, sorted), b) == Accepted(keys, {}, sorted) + [b]
  {
    var a := Accepted(keys, {}, sorted);
    if a != [] {
      AcceptedMembers(keys, {}, sorted);
      assert a[|a| - 1] in a;
      BelowLast(le, sorted, a[|a| - 1], b);
    }
  }

  /** A new event that shares no key with the accepted ones slots into its sorted place
      without changing the fate of any other. */
  lemma {:induction false} AcceptedInsert<E(!new), K(!new)>(keys: E -> set<K>, le: (E, E) -> bool, sorted: seq<E>, b: E)
    requires TotalPreorder(le) && SortedBy(le, sorted)
    requires keys(b) !! AllKeys(keys, Accepted(keys, {}, sorted))
    ensures Accepted(keys, {}, Insert(le, sorted, b)) == Insert(le, Accepted(keys, {}, sorted), b)
  {
    AcceptedStep(keys, {}, sorted, b);
    if sorted != [] {
      var front, last := sorted[..|sorted| - 1], sorted[|sorted| - 1];
      if le(last, b) {
        AcceptedBelowLast(keys, le, sorted, b);
      } else {
        var a := Accepted(keys, {}, front);
        AllKeysStep(keys, a, last);
        AcceptedInsert(keys, le, front, b);
        AcceptedStep(keys, {}, Insert(le, front, b), last);
        KeysOfInsert(keys, le, a, b);
        assert (a + [last])[..|a|] == a;
      }
    }
  }

  lemma KeysOfInsert<E(!new), K(!new)>(keys: E -> set<K>, le: (E, E) -> bool, a: seq<E>, b: E)
    ensures AllKeys(keys, Insert(le, a, b)) == AllKeys(keys, a) + keys(b)
  {
    InsertMultiset(le, a, b);
    var r := Insert(le, a, b);
    forall e
      ensures e in r <==> e in a + [b]
    {
      assert e in r <==> e in multiset(r);
    }
    SameKeys(keys, r, a + [b]);
    AllKeysStep(keys, a, b);
  }

  lemma KeysOfSort<E(!new), K(!new)>(keys: E -> set<K>, le: (E, E) -> bool, events: seq<E>)
    ensures AllKeys(keys, Sort(le, events)) == AllKeys(keys, events)
  {
    SortMembers(le, events);
    SameKeys(keys, Sort(le, events), events);
  }

  function Replay<E(!new), K(!new)>(keys: E -> set<K>, le: (E, E) -> bool, log: seq<E>): seq<E> {
    Accepted(keys, {}, Sort(le, log))
  }

  lemma ReplayOneMore<E(!new), K(!new)>(keys: E -> set<K>, le: (E, E) -> bool, log: seq<E>, b: E)
    requires TotalPreorder(le) && keys(b) !! AllKeys(keys, Replay(keys, le, log))
    ensures Replay(keys, le, log + [b]) == Insert(le, Replay(keys, le, log), b)
  {
    SortSorted(le, log);
    SortAppend(le, log, b);
    AcceptedInsert(keys, le, Sort(le, log), b);
  }

  lemma ReplayStep<E(!new), K(!new)>(keys: E -> set<K>, le: (E, E) -> bool, log: seq<E>, accepted: seq<E>, b: E)
    requires TotalPreorder(le) && Replay(keys, le, log) == Sort(le, accepted)
    requires keys(b) !! AllKeys(keys, accepted)
    ensures Replay(keys, le, log + [b]) == Sort(le, accepted + [b])
  {
    KeysOfSort(keys, le, accepted);
    ReplayOneMore(keys, le, log, b);
    SortAppend(le, accepted, b);
  }

  lemma LastIsDisjoint<E(!new), K(!new)>(keys: E -> set<K>, seen: set<K>, added: seq<E>)
    requires added != [] && PairwiseDisjoint(keys, added) && AllKeys(keys, added) !! seen
    ensures var front := added[..|added| - 1];
            && PairwiseDisjoint(keys, front) && AllKeys(keys, front) !! seen
            && keys(added[|added| - 1]) !! seen + AllKeys(keys, front)
  {
    var front, b := added[..|added| - 1], added[|added| - 1];
    AllKeysMembers(keys, front);
    forall k | k in AllKeys(keys, front)
      ensures k !in keys(b)
    {
      var e :| e in front && k in keys(e);
      var i :| 0 <= i < |front| && front[i] == e;
      assert keys(added[i]) !! keys(added[|added| - 1]);
    }
  }

  lemma ReplayIsSorted<E(!new), K(!new)>(keys: E -> set<K>, le: (E, E) -> bool, log: seq<E>)
    requires TotalPreorder(le)
    ensures Sort(le, Replay(keys, le, log)) == Replay(keys, le, log)
  {
    SortSorted(le, log);
    AcceptedSorted(keys, le, Sort(le, log));
    SortIdentity(le, Replay(keys, le, log));
  }

  lemma LastOut<E>(a: seq<E>, added: seq<E>)
    requires added != []
    ensures a + added == (a + added[..|added| - 1]) + [added[|added| - 1]]
  {
  }

  /** Replaying a log extended by fresh, mutually disjoint events accepts the old accepted
      events and all the fresh ones, merged in sort order. */
  lemma {:induction false} ReplayExtended<E(!new), K(!new)>(keys: E -> set<K>, le: (E, E) -> bool, log: seq<E>,
                                            added: seq<E>)
    requires TotalPreorder(le)
    requires PairwiseDisjoint(keys, added) && AllKeys(keys, added) !! AllKeys(keys, Replay(keys, le, log))
    ensures Replay(keys, le, log + added) == Sort(le, Replay(keys, le, log) + added)
  {
    var a := Replay(keys, le, log);
    if added == [] {
      ReplayIsSorted(keys, le, log);
      assert log + added == log && a + added == a;
    } else {
      LastIsDisjoint(keys, AllKeys(keys, a), added);
      ReplayExtended(keys, le, log, added[..|added| - 1]);
      ExtendOnce(keys, le, log, a, added[..|added| - 1], added[|added| - 1]);
      LastOut(log, added);
      LastOut(a, added);
    }
  }

  lemma ExtendOnce<E(!new), K(!new)>(keys: E -> set<K>, le: (E, E) -> bool, log: seq<E>, a: seq<E>, front: seq<E>, b: E)
    requires TotalPreorder(le) && Replay(keys, le, log + front) == Sort(le, a + front)
    requires keys(b) !! AllKeys(keys, a) + AllKeys(keys, front)
    ensures Replay(keys, le, (log + front) + [b]) == Sort(le, (a + front) + [b])
  {
    AllKeysConcat(keys, a, front);
    ReplayStep(keys, le, log + front, a + front, b);
  }
}
