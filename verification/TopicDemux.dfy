/** The consumer adapter (production_runtime.py): one Kafka consumer polled for several
    topics, with a buffer for the records of topics that nobody asked for yet. */
module TopicDemux {
  import opened Sequences

  datatype Record = Record(key: string, value: int, offset: int)

  /** What one poll of the underlying consumer yields. */
  datatype Outcome = Timeout | Failure | Arrival(topic: string, record: Record)

  type Buffers = map<string, seq<Record>>

  /** `collected` is what a poll returns, or drops when it raises an error. */
  datatype Polled = Polled(buffers: Buffers, collected: seq<Record>, consumed: nat, raised: bool)

  function BufferOf(buffers: Buffers, topic: string): seq<Record> {
    if topic in buffers then buffers[topic] else []
  }

  /** Polling the consumer until the batch is full, nothing is left, or an error arrives. */
  function Fetched(buffers: Buffers, topic: string, incoming: seq<Outcome>, from: nat,
                   collected: seq<Record>, max: int): Polled
    requires from <= |incoming|
    decreases |incoming| - from
  {
    if |collected| >= max || from == |incoming| then Polled(buffers, collected, from, false)
    else
      match incoming[from]
      case Timeout => Polled(buffers, collected, from + 1, false)
      case Failure => Polled(buffers, collected, from + 1, true)
      case Arrival(t, record) =>
        if t == topic then Fetched(buffers, topic, incoming, from + 1, collected + [record], max)
        else Fetched(buffers[t := BufferOf(buffers, t) + [record]], topic, incoming, from + 1, collected, max)
  }

  function TakeCount(buffer: seq<Record>, max: int): (n: nat)
    ensures n <= |buffer|
  {
    if max < 0 then 0 else if max < |buffer| then max else |buffer|
  }

  /** The buffers without what a poll takes out first. */
  function AfterTake(buffers: Buffers, topic: string, max: int): Buffers {
    if topic in buffers then buffers[topic := buffers[topic][TakeCount(buffers[topic], max)..]] else buffers
  }

  /** One `poll` of the stream from a position on: buffered records first, then the consumer;
      an exhausted stream times out. */
  function Poll(buffers: Buffers, topic: string, stream: seq<Outcome>, from: nat, max: int): Polled
    requires from <= |stream|
  {
    var buffer := BufferOf(buffers, topic);
    Fetched(AfterTake(buffers, topic, max), topic, stream, from, buffer[..TakeCount(buffer, max)], max)
  }

  class ConfluentKafkaConsumerAdapter {
    const maxPollRecords: int
    var buffers: Buffers

    constructor (maxPollRecords: int)
      ensures this.maxPollRecords == maxPollRecords && buffers == map[]
    {
      this.maxPollRecords, buffers := maxPollRecords, map[];
    }

    /** The first loop of `poll`: what is buffered for the topic goes first. */
    method TakeBuffered(topic: string) returns (records: seq<Record>)
      modifies this`buffers
      ensures buffers == AfterTake(old(buffers), topic, maxPollRecords)
      ensures records == BufferOf(old(buffers), topic)[..TakeCount(BufferOf(old(buffers), topic), maxPollRecords)]
    {
      records := [];
      if topic !in buffers {
        return;
      }
      var before := buffers;
      while buffers[topic] != [] && |records| < maxPollRecords
        invariant topic in buffers && buffers == before[topic := buffers[topic]]
        invariant records + buffers[topic] == before[topic]
        invariant |records| <= if maxPollRecords < 0 then 0 else maxPollRecords
        decreases |buffers[topic]|
      {
        records := records + [buffers[topic][0]];
        buffers := buffers[topic := buffers[topic][1..]];
      }
      assert |records| == TakeCount(before[topic], maxPollRecords);
    }

    /** `poll`; `consumed` is the stream position afterwards. On an error the collected records
        are not returned. */
    method PollTopic(topic: string, incoming: seq<Outcome>, from: nat)
      returns (records: seq<Record>, consumed: nat, raised: bool)
      requires from <= |incoming|
      modifies this`buffers
      ensures var r := Poll(old(buffers), topic, incoming, from, maxPollRecords);
              && buffers == r.buffers && consumed == r.consumed && raised == r.raised
              && records == if r.raised then [] else r.collected
    {
      consumed, raised := from, false;
      ghost var goal := Poll(buffers, topic, incoming, from, maxPollRecords);
      records := TakeBuffered(topic);
      if |records| >= maxPollRecords {
        return;
      }
      while |records| < maxPollRecords
        invariant consumed <= |incoming|
        invariant goal == Fetched(buffers, topic, incoming, consumed, records, maxPollRecords)
        decreases |incoming| - consumed
      {
        if consumed == |incoming| {
          return;
        }
        var outcome := incoming[consumed];
        consumed := consumed + 1;
        match outcome {
          case Timeout =>
            return;
          case Failure =>
            return [], consumed, true;
          case Arrival(t, record) =>
            if t == topic {
              records := records + [record];
            } else {
              buffers := buffers[t := BufferOf(buffers, t) + [record]];
            }
        }
      }
    }
  }

  // ---------- one poll ----------

  /** The records of one topic in the stream between two positions, in order. */
  function Arrivals(stream: seq<Outcome>, from: nat, to: nat, topic: string): seq<Record>
    requires from <= to <= |stream|
    decreases |stream| - from
  {
    if from == to then []
    else (if stream[from].Arrival? && stream[from].topic == topic then [stream[from].record] else [])
         + Arrivals(stream, from + 1, to, topic)
  }

  lemma {:induction false} ArrivalsSplit(stream: seq<Outcome>, from: nat, mid: nat, to: nat, topic: string)
    requires from <= mid <= to <= |stream|
    ensures Arrivals(stream, from, to, topic) == Arrivals(stream, from, mid, topic) + Arrivals(stream, mid, to, topic)
    decreases |stream| - from
  {
    if from < mid {
      ArrivalsSplit(stream, from + 1, mid, to, topic);
    }
  }

  /** Fetching goes on until the batch is full, and else stops at the first outcome that is not
      an arrival, or at the end of the stream. */
  lemma {:induction false} FetchStops(buffers: Buffers, topic: string, stream: seq<Outcome>, from: nat,
                                      collected: seq<Record>, max: int)
    requires from <= |stream|
    ensures var r := Fetched(buffers, topic, stream, from, collected, max);
            && from <= r.consumed <= |stream|
            && (forall i :: from <= i < r.consumed - 1 ==> stream[i].Arrival?)
            && (|r.collected| < max ==>
                  r.consumed == |stream| || (r.consumed > from && !stream[r.consumed - 1].Arrival?))
    decreases |stream| - from
  {
    if |collected| < max && from < |stream| && stream[from].Arrival? {
      var u, record := stream[from].topic, stream[from].record;
      if u == topic {
        FetchStops(buffers, topic, stream, from + 1, collected + [record], max);
      } else {
        FetchStops(buffers[u := BufferOf(buffers, u) + [record]], topic, stream, from + 1, collected, max);
      }
    }
  }

  /** A poll that does not fill its batch has met a timeout, an error or the end of the stream;
      one that finds a full batch in its buffer does not touch the stream. */
  lemma PollStops(buffers: Buffers, topic: string, stream: seq<Outcome>, from: nat, max: int)
    requires from <= |stream|
    ensures var r := Poll(buffers, topic, stream, from, max);
            && from <= r.consumed <= |stream|
            && (forall i :: from <= i < r.consumed - 1 ==> stream[i].Arrival?)
            && (|r.collected| < max ==>
                  r.consumed == |stream| || (r.consumed > from && !stream[r.consumed - 1].Arrival?))
            && (|BufferOf(buffers, topic)| >= max ==> r.consumed == from && !r.raised)
  {
    var had := BufferOf(buffers, topic);
    FetchStops(AfterTake(buffers, topic, max), topic, stream, from, had[..TakeCount(had, max)], max);
  }

  /** What topic t has in hand: the batch, if it is the polled topic, before its buffer. */
  function InHand(buffers: Buffers, collected: seq<Record>, topic: string, t: string): seq<Record> {
    (if t == topic then collected else []) + BufferOf(buffers, t)
  }

  lemma {:induction false} FetchBounds(buffers: Buffers, topic: string, stream: seq<Outcome>, from: nat,
                                       collected: seq<Record>, max: int)
    requires from <= |stream|
    ensures var r := Fetched(buffers, topic, stream, from, collected, max);
            && from <= r.consumed <= |stream|
            && (|r.collected| <= max || r.collected == collected)
            && (r.raised <==> exists i :: from <= i < r.consumed && stream[i].Failure?)
    decreases |stream| - from
  {
    if |collected| < max && from < |stream| && stream[from].Arrival? {
      var u, record := stream[from].topic, stream[from].record;
      if u == topic {
        FetchBounds(buffers, topic, stream, from + 1, collected + [record], max);
      } else {
        FetchBounds(buffers[u := BufferOf(buffers, u) + [record]], topic, stream, from + 1, collected, max);
      }
    }
  }

  /** An arriving record goes behind everything its topic has in hand, before what follows. */
  lemma HandStep(buffers: Buffers, collected: seq<Record>, topic: string, u: string, record: Record, t: string,
                 rest: seq<Record>)
    requires BufferOf(buffers, topic) == []
    ensures (if u == topic then InHand(buffers, collected + [record], topic, t)
             else InHand(buffers[u := BufferOf(buffers, u) + [record]], collected, topic, t)) + rest
            == InHand(buffers, collected, topic, t) + ((if u == t then [record] else []) + rest)
  {
  }

  lemma {:induction false} FetchKeeps(buffers: Buffers, topic: string, stream: seq<Outcome>, from: nat,
                                      collected: seq<Record>, max: int, t: string)
    requires from <= |stream|
    requires |collected| < max ==> BufferOf(buffers, topic) == []
    ensures var r := Fetched(buffers, topic, stream, from, collected, max);
            && from <= r.consumed <= |stream|
            && InHand(r.buffers, r.collected, topic, t)
               == InHand(buffers, collected, topic, t) + Arrivals(stream, from, r.consumed, t)
    decreases |stream| - from
  {
    var r := Fetched(buffers, topic, stream, from, collected, max);
    FetchBounds(buffers, topic, stream, from, collected, max);
    if |collected| < max && from < |stream| && stream[from].Arrival? {
      var u, record := stream[from].topic, stream[from].record;
      if u == topic {
        FetchKeeps(buffers, topic, stream, from + 1, collected + [record], max, t);
      } else {
        FetchKeeps(buffers[u := BufferOf(buffers, u) + [record]], topic, stream, from + 1, collected, max, t);
      }
      HandStep(buffers, collected, topic, u, record, t, Arrivals(stream, from + 1, r.consumed, t));
    } else {
      assert r.buffers == buffers && r.collected == collected;
      assert r.consumed == from + 1 ==> Arrivals(stream, from + 1, r.consumed, t) == [];
      assert Arrivals(stream, from, r.consumed, t) == [];
      assert InHand(buffers, collected, topic, t) + [] == InHand(buffers, collected, topic, t);
    }
  }

  /** One poll: per topic, what was buffered and what arrives is handed on in order, at most
      `max` records at a time, and it raises exactly when it runs into an error. */
  lemma PollKeeps(buffers: Buffers, topic: string, stream: seq<Outcome>, from: nat, max: int, t: string)
    requires from <= |stream|
    ensures var r := Poll(buffers, topic, stream, from, max);
            && from <= r.consumed <= |stream|
            && |r.collected| <= (if max < 0 then 0 else max)
            && (r.raised <==> exists i :: from <= i < r.consumed && stream[i].Failure?)
            && InHand(r.buffers, r.collected, topic, t) == BufferOf(buffers, t) + Arrivals(stream, from, r.consumed, t)
  {
    var n, rest := TakeCount(BufferOf(buffers, topic), max), AfterTake(buffers, topic, max);
    TakeKeeps(buffers, topic, max, t);
    FetchBounds(rest, topic, stream, from, BufferOf(buffers, topic)[..n], max);
    FetchKeeps(rest, topic, stream, from, BufferOf(buffers, topic)[..n], max, t);
  }

  /** Taking from the buffer keeps everything in hand, and leaves nothing behind unless the
      batch is full. */
  lemma TakeKeeps(buffers: Buffers, topic: string, max: int, t: string)
    ensures var buffer := BufferOf(buffers, topic);
            var n := TakeCount(buffer, max);
            && InHand(AfterTake(buffers, topic, max), buffer[..n], topic, t) == BufferOf(buffers, t)
            && (n < max ==> BufferOf(AfterTake(buffers, topic, max), topic) == [])
  {
    var buffer := BufferOf(buffers, topic);
    var n := TakeCount(buffer, max);
    assert buffer == buffer[..n] + buffer[n..];
  }

  /** The records that a poll returns. */
  function Returned(r: Polled): seq<Record> {
    if r.raised then [] else r.collected
  }

  /** The stream runs into an error at i, before any timeout, with records collected for the
      topic (`had` of them from its buffer) but not yet a full batch of them. */
  ghost predicate FailsWithRecords(stream: seq<Outcome>, from: nat, i: nat, topic: string, had: nat, max: int)
    requires from <= |stream|
  {
    && from <= i < |stream| && stream[i].Failure?
    && (forall j :: from <= j < i ==> stream[j].Arrival?)
    && 0 < had + |Arrivals(stream, from, i, topic)| < max
  }

  /** Fetching raises with records in hand exactly when the stream says so. */
  lemma {:induction false} FetchRaisesWithRecords(buffers: Buffers, topic: string, stream: seq<Outcome>, from: nat,
                                                  collected: seq<Record>, max: int)
    requires from <= |stream|
    ensures var r := Fetched(buffers, topic, stream, from, collected, max);
            r.raised && r.collected != [] <==> exists i :: FailsWithRecords(stream, from, i, topic, |collected|, max)
    decreases |stream| - from
  {
    if |collected| < max && from < |stream| {
      match stream[from] {
        case Timeout =>
        case Failure =>
          assert Arrivals(stream, from, from, topic) == [];
          assert collected != [] ==> FailsWithRecords(stream, from, from, topic, |collected|, max);
        case Arrival(u, record) =>
          var more := if u == topic then collected + [record] else collected;
          var others := if u == topic then buffers else buffers[u := BufferOf(buffers, u) + [record]];
          FetchRaisesWithRecords(others, topic, stream, from + 1, more, max);
          forall i: nat
            ensures FailsWithRecords(stream, from, i, topic, |collected|, max)
                    <==> FailsWithRecords(stream, from + 1, i, topic, |more|, max)
          {
            if from < i <= |stream| {
              ArrivalsCount(stream, from, i, topic);
            }
          }
          var next, had := from + 1, |more|;
          if i: nat :| FailsWithRecords(stream, next, i, topic, had, max) {
            assert FailsWithRecords(stream, from, i, topic, |collected|, max);
          }
      }
    }
  }

  lemma {:induction false} ArrivalsCount(stream: seq<Outcome>, from: nat, to: nat, topic: string)
    requires from < to <= |stream|
    ensures |Arrivals(stream, from, to, topic)|
            == |Arrivals(stream, from + 1, to, topic)|
               + if stream[from].Arrival? && stream[from].topic == topic then 1 else 0
  {
  }

  /** A poll raises with records collected, and so loses them, exactly when that happens. */
  lemma LosesWhenRaised(buffers: Buffers, topic: string, stream: seq<Outcome>, from: nat, max: int)
    requires from <= |stream|
    ensures var r := Poll(buffers, topic, stream, from, max);
            && r.consumed <= |stream| && from <= r.consumed
            && ((forall t :: InHand(r.buffers, Returned(r), topic, t)
                             == BufferOf(buffers, t) + Arrivals(stream, from, r.consumed, t))
                <==> !(r.raised && r.collected != []))
  {
    var r := Poll(buffers, topic, stream, from, max);
    PollKeeps(buffers, topic, stream, from, max, topic);
    if r.raised && r.collected != [] {
      assert |InHand(r.buffers, [], topic, topic)| < |InHand(r.buffers, r.collected, topic, topic)|;
    } else {
      forall t
        ensures InHand(r.buffers, Returned(r), topic, t) == BufferOf(buffers, t) + Arrivals(stream, from, r.consumed, t)
      {
        PollKeeps(buffers, topic, stream, from, max, t);
      }
    }
  }

  lemma PollRaisesWithRecords(buffers: Buffers, topic: string, stream: seq<Outcome>, from: nat, max: int)
    requires from <= |stream|
    ensures var r := Poll(buffers, topic, stream, from, max);
            r.raised && r.collected != []
            <==> exists i :: FailsWithRecords(stream, from, i, topic, |BufferOf(buffers, topic)|, max)
  {
    var had := BufferOf(buffers, topic);
    var n := TakeCount(had, max);
    FetchRaisesWithRecords(AfterTake(buffers, topic, max), topic, stream, from, had[..n], max);
    forall i: nat
      ensures FailsWithRecords(stream, from, i, topic, n, max) <==> FailsWithRecords(stream, from, i, topic, |had|, max)
    {
    }
  }

  /** A poll loses records exactly when the consumer yields an error before any timeout, and by
      then the buffer and the arrivals of the topic come to some records but not a full batch. */
  lemma PollLosesOnlyOnError(buffers: Buffers, topic: string, stream: seq<Outcome>, from: nat, max: int)
    requires from <= |stream|
    ensures var r := Poll(buffers, topic, stream, from, max);
            && from <= r.consumed <= |stream|
            && ((exists t :: InHand(r.buffers, Returned(r), topic, t)
                             != BufferOf(buffers, t) + Arrivals(stream, from, r.consumed, t))
                <==> exists i :: FailsWithRecords(stream, from, i, topic, |BufferOf(buffers, topic)|, max))
  {
    LosesWhenRaised(buffers, topic, stream, from, max);
    PollRaisesWithRecords(buffers, topic, stream, from, max);
  }

  /** One record, then an error: the poll returns nothing and the record is gone. */
  lemma PollCanLose(topic: string, record: Record)
    ensures var r := Poll(map[], topic, [Arrival(topic, record), Failure], 0, 2);
            r.consumed == 2 && Returned(r) == [] && BufferOf(r.buffers, topic) == []
  {
    var stream := [Arrival(topic, record), Failure];
    assert Fetched(map[], topic, stream, 1, [record], 2) == Polled(map[], [record], 2, true);
    assert [] + [record] == [record];
    assert Poll(map[], topic, stream, 0, 2) == Fetched(map[], topic, stream, 0, [], 2);
  }

  // ---------- interleaved polls ----------

  datatype Progress = Progress(buffers: Buffers, position: nat)

  /** The buffers and stream position after polling these topics in turn. */
  function Polls(topics: seq<string>, stream: seq<Outcome>, max: int): (r: Progress)
    ensures r.position <= |stream|
  {
    if topics == [] then Progress(map[], 0)
    else
      var p := Polls(topics[..|topics| - 1], stream, max);
      PollKeeps(p.buffers, topics[|topics| - 1], stream, p.position, max, "");
      var r := Poll(p.buffers, topics[|topics| - 1], stream, p.position, max);
      Progress(r.buffers, r.consumed)
  }

  /** Everything returned to the polls of topic t, in order. */
  function Delivered(topics: seq<string>, stream: seq<Outcome>, max: int, t: string): seq<Record> {
    if topics == [] then []
    else
      var front, topic := topics[..|topics| - 1], topics[|topics| - 1];
      var p := Polls(front, stream, max);
      Delivered(front, stream, max, t)
      + if topic == t then Returned(Poll(p.buffers, topic, stream, p.position, max)) else []
  }

  lemma Regroup(before: seq<Record>, batch: seq<Record>, buffer': seq<Record>, buffer: seq<Record>, more: seq<Record>)
    requires batch + buffer' == buffer + more
    ensures (before + batch) + buffer' == (before + buffer) + more
  {
    assert (before + batch) + buffer' == before + (batch + buffer');
    assert (before + buffer) + more == before + (buffer + more);
  }

  /** A poll of the topic from here runs into an error with records at hand. */
  ghost predicate LosesFrom(p: Progress, topic: string, stream: seq<Outcome>, max: int)
    requires p.position <= |stream|
  {
    exists i :: FailsWithRecords(stream, p.position, i, topic, |BufferOf(p.buffers, topic)|, max)
  }

  ghost predicate LosesAt(topics: seq<string>, k: nat, stream: seq<Outcome>, max: int) {
    k < |topics| && LosesFrom(Polls(topics[..k], stream, max), topics[k], stream, max)
  }

  lemma LosesAtStep(topics: seq<string>, topic: string, k: nat, stream: seq<Outcome>, max: int)
    ensures LosesAt(topics + [topic], k, stream, max)
            <==> if k == |topics| then LosesFrom(Polls(topics, stream, max), topic, stream, max)
                 else LosesAt(topics, k, stream, max)
  {
    var all := topics + [topic];
    if k < |topics| {
      assert all[..k] == topics[..k] && all[k] == topics[k];
    } else if k == |topics| {
      assert all[..k] == topics && all[k] == topic;
    }
  }

  /** No poll of topic t in the run loses records. */
  ghost predicate Lossless(topics: seq<string>, stream: seq<Outcome>, max: int, t: string) {
    forall k: nat :: LosesAt(topics, k, stream, max) ==> topics[k] != t
  }

  lemma LosslessStep(topics: seq<string>, topic: string, stream: seq<Outcome>, max: int, t: string)
    ensures Lossless(topics + [topic], stream, max, t)
            <==> Lossless(topics, stream, max, t) && (topic == t ==> !LosesAt(topics + [topic], |topics|, stream, max))
  {
    var all := topics + [topic];
    forall k: nat | k < |topics|
      ensures LosesAt(all, k, stream, max) <==> LosesAt(topics, k, stream, max)
      ensures all[k] == topics[k]
    {
      LosesAtStep(topics, topic, k, stream, max);
    }
    assert all[|topics|] == topic;
  }

  /** What one more poll does to the records of topic t: it hands them on, or loses its batch. */
  lemma OneMorePoll(before: seq<Record>, p: Progress, topic: string, stream: seq<Outcome>, max: int, t: string)
    requires p.position <= |stream|
    ensures p.position <= Poll(p.buffers, topic, stream, p.position, max).consumed <= |stream|
    ensures var r := Poll(p.buffers, topic, stream, p.position, max);
            var after := before + (if topic == t then Returned(r) else []) + BufferOf(r.buffers, t);
            var due := before + BufferOf(p.buffers, t) + Arrivals(stream, p.position, r.consumed, t);
            if topic == t && r.raised && r.collected != [] then |after| < |due| else after == due
  {
    var r := Poll(p.buffers, topic, stream, p.position, max);
    PollKeeps(p.buffers, topic, stream, p.position, max, t);
    Regroup(before, if topic == t then r.collected else [], BufferOf(r.buffers, t),
            BufferOf(p.buffers, t), Arrivals(stream, p.position, r.consumed, t));
  }

  /** Over any interleaving of polls, errors included, the delivered and buffered records of a
      topic are exactly its arrivals, in order, if no poll of the topic loses records; else they
      are fewer. */
  lemma {:induction false} DeliveredOrLost(topics: seq<string>, stream: seq<Outcome>, max: int, t: string)
    ensures var p := Polls(topics, stream, max);
            var kept := Delivered(topics, stream, max, t) + BufferOf(p.buffers, t);
            var due := Arrivals(stream, 0, p.position, t);
            if Lossless(topics, stream, max, t) then kept == due else |kept| < |due|
  {
    if topics != [] {
      var front, topic := topics[..|topics| - 1], topics[|topics| - 1];
      assert topics == front + [topic];
      var p := Polls(front, stream, max);
      DeliveredOrLost(front, stream, max, t);
      OneMorePoll(Delivered(front, stream, max, t), p, topic, stream, max, t);
      ArrivalsSplit(stream, 0, p.position, Polls(topics, stream, max).position, t);
      PollRaisesWithRecords(p.buffers, topic, stream, p.position, max);
      LosslessStep(front, topic, stream, max, t);
      LosesAtStep(front, topic, |front|, stream, max);
    }
  }

  /** Over any interleaving of polls, errors included, the delivered and buffered records of a
      topic are its arrivals, in order, exactly when no poll of the topic runs into an error
      with records at hand. */
  lemma NothingLostOrReordered(topics: seq<string>, stream: seq<Outcome>, max: int, t: string)
    ensures var p := Polls(topics, stream, max);
            Delivered(topics, stream, max, t) + BufferOf(p.buffers, t) == Arrivals(stream, 0, p.position, t)
            <==> Lossless(topics, stream, max, t)
  {
    DeliveredOrLost(topics, stream, max, t);
  }
}
