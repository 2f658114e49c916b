/** Publishing with retries, the spool file that keeps what could not be published, and its
    replay (adapters.py, ops.py). A publish attempt on the inner bus succeeds or has no
    effect; which attempts succeed is a parameter. */
module ReliablePublish {
  import opened Sequences

  datatype Event = Event(topic: string, key: string, value: int)

  datatype DeadLetter = DeadLetter(event: Event, reason: string)

  /** A line of the spool file: a readable record, white space, or any other text. */
  datatype Line = RecordLine(record: DeadLetter) | BlankLine | BadLine

  /** The contents of a file. After a torn write the last line has no newline. */
  datatype Text = Text(lines: seq<Line>, torn: bool)

  const NO_TEXT := Text([], false)

  /** A line written on behind a torn one: two records on one line are unreadable. */
  function Joined(last: Line, record: DeadLetter): Line {
    if last.BlankLine? then RecordLine(record) else BadLine
  }

  /** The file after a record is written at its end. */
  function Appended(text: Text, record: DeadLetter): Text {
    if text.torn && text.lines != [] then
      var n := |text.lines| - 1;
      Text(text.lines[..n] + [Joined(text.lines[n], record)], false)
    else Text(text.lines + [RecordLine(record)], false)
  }

  /** The readable records of a file, in order. */
  function RecordsOf(lines: seq<Line>): seq<DeadLetter> {
    if lines == [] then []
    else RecordsOf(lines[..|lines| - 1])
         + if lines[|lines| - 1].RecordLine? then [lines[|lines| - 1].record] else []
  }

  function LinesOf(records: seq<DeadLetter>): seq<Line> {
    seq(|records|, i requires 0 <= i < |records| => RecordLine(records[i]))
  }

  function EventsOf(records: seq<DeadLetter>): (r: seq<Event>)
    ensures |r| == |records|
  {
    seq(|records|, i requires 0 <= i < |records| => records[i].event)
  }

  lemma RecordsOfStep(lines: seq<Line>, line: Line)
    ensures RecordsOf(lines + [line]) == RecordsOf(lines) + if line.RecordLine? then [line.record] else []
  {
    assert (lines + [line])[..|lines|] == lines;
  }

  lemma {:induction false} RecordsOfLines(records: seq<DeadLetter>)
    ensures RecordsOf(LinesOf(records)) == records
  {
    if records != [] {
      var front, last := records[..|records| - 1], records[|records| - 1];
      RecordsOfLines(front);
      assert LinesOf(records) == LinesOf(front) + [RecordLine(last)];
      RecordsOfStep(LinesOf(front), RecordLine(last));
    }
  }

  // ---------- one step of the world ----------

  /** The first attempt that succeeds, within the retry budget. */
  function FirstSuccess(attempts: seq<bool>): (r: Option<nat>)
    ensures r.Some? ==> r.value < |attempts| && attempts[r.value] && forall i :: 0 <= i < r.value ==> !attempts[i]
    ensures r.None? ==> forall i :: 0 <= i < |attempts| ==> !attempts[i]
  {
    if attempts == [] then None
    else
      var front := FirstSuccess(attempts[..|attempts| - 1]);
      if front.Some? then front
      else if attempts[|attempts| - 1] then Some(|attempts| - 1)
      else None
  }

  /** How many records a replay delivers before the first failure. */
  function ReplayCount(total: nat, outcomes: seq<bool>): (n: nat)
    requires |outcomes| == total
    ensures n <= total && (forall i :: 0 <= i < n ==> outcomes[i]) && (n < total ==> !outcomes[n])
  {
    if total == 0 then 0
    else
      var front := ReplayCount(total - 1, outcomes[..total - 1]);
      if front == total - 1 && outcomes[front] then total else front
  }

  /** What survives a restart: the events on the bus and the spool file. */
  datatype World = World(delivered: seq<Event>, file: Text)

  datatype Op =
    | Publish(event: Event, outcomes: seq<bool>, reason: string)
    | Replay(outcomes: seq<bool>)
    | Restart

  /** One step of the world; a restart only reloads the file. */
  ghost predicate Step(w: World, op: Op, w': World) {
    match op
    case Publish(e, outcomes, reason) =>
      if FirstSuccess(outcomes).Some? then w' == w.(delivered := w.delivered + [e])
      else w' == w.(file := Appended(w.file, DeadLetter(e, reason)))
    case Replay(outcomes) =>
      |outcomes| == |RecordsOf(w.file.lines)| &&
      var records := RecordsOf(w.file.lines);
      var n := ReplayCount(|records|, outcomes);
      w'.delivered == w.delivered + EventsOf(records[..n]) && w'.file == Text(LinesOf(records[n..]), false)
    case Restart => w' == w
  }

  // ---------- files and spools ----------

  /** A file on disk; a missing one has no lines. */
  class File {
    var present: bool
    var text: Text

    constructor ()
      ensures Valid() && !present
    {
      present, text := false, NO_TEXT;
    }

    ghost predicate Valid()
      reads this
    {
      !present ==> text == NO_TEXT
    }
  }

  class FileBackedSpool {
    const file: File
    var records: seq<DeadLetter>
    var quarantined: nat

    /** `_load_existing`. */
    static method LoadExisting(lines: seq<Line>) returns (records: seq<DeadLetter>, quarantined: nat)
      ensures records == RecordsOf(lines) && quarantined == |lines| - |records|
    {
      records, quarantined := [], 0;
      for i := 0 to |lines|
        invariant records == RecordsOf(lines[..i]) && quarantined == i - |records|
      {
        assert lines[..i + 1] == lines[..i] + [lines[i]];
        RecordsOfStep(lines[..i], lines[i]);
        match lines[i] {
          case RecordLine(record) => records := records + [record];
          case _ => quarantined := quarantined + 1;
        }
      }
      assert lines[..|lines|] == lines;
    }

    /** A new process finds what an earlier one left in the file. */
    constructor (file: File)
      requires file.Valid()
      ensures this.file == file && records == RecordsOf(file.text.lines)
      ensures quarantined == |file.text.lines| - |records|
    {
      this.file := file;
      var loaded, bad := LoadExisting(file.text.lines);
      records, quarantined := loaded, bad;
    }

    /** `append`. */
    method Append(record: DeadLetter)
      requires file.Valid()
      modifies this, file
      ensures file.Valid() && file.text == Appended(old(file.text), record)
      ensures records == old(records) + [record] && quarantined == old(quarantined)
    {
      records := records + [record];
      file.present := true;
      file.text := Appended(file.text, record);
    }

    /** `drain`. */
    method Drain() returns (drained: seq<DeadLetter>)
      requires file.Valid()
      modifies this, file
      ensures file.Valid() && file.text == NO_TEXT && !file.present
      ensures drained == old(records) && records == [] && quarantined == old(quarantined)
    {
      drained := records;
      records := [];
      file.present, file.text := false, NO_TEXT;
    }

    /** `replace`. */
    method Replace(remaining: seq<DeadLetter>)
      requires file.Valid()
      modifies this, file
      ensures file.Valid() && file.text == Text(LinesOf(remaining), false) && file.present == (remaining != [])
      ensures records == remaining && quarantined == old(quarantined)
    {
      records := remaining;
      if records == [] {
        file.present, file.text := false, NO_TEXT;
        return;
      }
      file.present, file.text := true, Text(LinesOf(records), false);
    }
  }

  /** The inner bus; the caller says whether an attempt succeeds. */
  class InnerBus {
    var delivered: seq<Event>

    constructor ()
      ensures delivered == []
    {
      delivered := [];
    }

    method Publish(e: Event, succeeds: bool) returns (ok: bool)
      modifies this
      ensures ok == succeeds && delivered == old(delivered) + if succeeds then [e] else []
    {
      if succeeds {
        delivered := delivered + [e];
      }
      return succeeds;
    }
  }

  // ---------- publishing ----------

  datatype PublishResult = PublishResult(event: Event, acknowledged: bool, attempts: nat)

  class ReliableEventBus {
    const inner: InnerBus
    const spool: FileBackedSpool
    const retries: nat
    var deadLetters: seq<DeadLetter>
    var results: seq<PublishResult>

    constructor (inner: InnerBus, spool: FileBackedSpool, retries: nat)
      ensures this.inner == inner && this.spool == spool && this.retries == retries
      ensures deadLetters == [] && results == []
    {
      this.inner, this.spool, this.retries := inner, spool, retries;
      deadLetters, results := [], [];
    }

    /** `publish`: `outcomes` says which of the retries + 1 attempts succeed. The event is
        delivered once, or spooled once and reported as an error. */
    method Publish(e: Event, outcomes: seq<bool>, reason: string) returns (raised: bool)
      requires |outcomes| == retries + 1 && spool.file.Valid()
      modifies this, inner, spool, spool.file
      ensures spool.file.Valid() && raised == FirstSuccess(outcomes).None?
      ensures inner.delivered == old(inner.delivered) + if raised then [] else [e]
      ensures spool.file.text == if raised then Appended(old(spool.file.text), DeadLetter(e, reason))
          else old(spool.file.text)
      ensures Step(World(old(inner.delivered), old(spool.file.text)), Op.Publish(e, outcomes, reason),
                   World(inner.delivered, spool.file.text))
      ensures spool.records == old(spool.records) + if raised then [DeadLetter(e, reason)] else []
      ensures deadLetters == old(deadLetters) + if raised then [DeadLetter(e, reason)] else []
      ensures var attempts := if raised then retries + 1 else FirstSuccess(outcomes).value + 1;
              results == old(results) + [PublishResult(e, !raised, attempts)]
    {
      var attempts := 0;
      while attempts <= retries
        invariant 0 <= attempts <= retries + 1
        invariant forall i :: 0 <= i < attempts ==> !outcomes[i]
        invariant inner.delivered == old(inner.delivered) && spool.file.Valid()
        invariant spool.file.text == old(spool.file.text) && spool.records == old(spool.records)
        invariant deadLetters == old(deadLetters) && results == old(results)
      {
        var ok := inner.Publish(e, outcomes[attempts]);
        attempts := attempts + 1;
        if ok {
          results := results + [PublishResult(e, true, attempts)];
          return false;
        }
      }
      spool.Append(DeadLetter(e, reason));
      deadLetters := deadLetters + [DeadLetter(e, reason)];
      results := results + [PublishResult(e, false, attempts)];
      return true;
    }
  }

  // ---------- replay ----------

  datatype ReplayResult = ReplayResult(replayed: nat, failed: nat, remaining: nat, deleted: bool)

  /** `replay_kafka_spool`: delivers a prefix of the file's records in order and leaves
      exactly the rest; without a failure the file is removed. */
  method ReplayKafkaSpool(file: File, bus: InnerBus, outcomes: seq<bool>, dryRun: bool) returns (result: ReplayResult)
    requires file.Valid() && |outcomes| == |RecordsOf(file.text.lines)|
    modifies file, bus
    ensures file.Valid()
    ensures !dryRun ==>
              Step(World(old(bus.delivered), old(file.text)), Replay(outcomes), World(bus.delivered, file.text))
    ensures var records := RecordsOf(old(file.text).lines);
            var n := if dryRun then 0 else ReplayCount(|records|, outcomes);
            && bus.delivered == old(bus.delivered) + EventsOf(records[..n])
            && RecordsOf(file.text.lines) == records[n..]
            && (dryRun ==> file.text == old(file.text) && result == ReplayResult(0, 0, |records|, false))
            && (!dryRun ==> result == ReplayResult(n, if n < |records| then 1 else 0, |records| - n, n == |records|)
                            && file.present == (n < |records|))
  {
    var spool := new FileBackedSpool(file);
    var records := spool.records;
    if dryRun {
      assert EventsOf(records[..0]) == [];
      return ReplayResult(0, 0, |records|, false);
    }
    for i := 0 to |records|
      invariant bus.delivered == old(bus.delivered) + EventsOf(records[..i])
      invariant forall k :: 0 <= k < i ==> outcomes[k]
      invariant file.Valid() && file.text == old(file.text) && spool.records == records
    {
      var ok := bus.Publish(records[i].event, outcomes[i]);
      if !ok {
        assert ReplayCount(|records|, outcomes) == i;
        RecordsOfLines(records[i..]);
        spool.Replace(records[i..]);
        return ReplayResult(i, 1, |records| - i, false);
      }
      assert EventsOf(records[..i + 1]) == EventsOf(records[..i]) + [records[i].event];
    }
    assert records[..|records|] == records && records[|records|..] == [];
    assert LinesOf([]) == [];
    var drained := spool.Drain();
    result := ReplayResult(|drained|, 0, 0, true);
  }

  // ---------- runs ----------

  ghost predicate IsRun(worlds: seq<World>, ops: seq<Op>) {
    && |worlds| == |ops| + 1
    && forall i :: 0 <= i < |ops| ==> Step(worlds[i], ops[i], worlds[i + 1])
  }

  /** The events offered for publishing, in order. */
  function OfferedEvents(ops: seq<Op>): seq<Event> {
    if ops == [] then []
    else OfferedEvents(ops[..|ops| - 1]) + if ops[|ops| - 1].Publish? then [ops[|ops| - 1].event] else []
  }

  function Spooled(w: World): seq<Event> {
    EventsOf(RecordsOf(w.file.lines))
  }

  /** Every event on the bus or in the file, as often as it is there. */
  function Kept(w: World): multiset<Event> {
    multiset(w.delivered) + multiset(Spooled(w))
  }

  lemma EventsSplit(records: seq<DeadLetter>, n: nat)
    requires n <= |records|
    ensures EventsOf(records) == EventsOf(records[..n]) + EventsOf(records[n..])
  {
  }

  // ---------- torn files ----------

  predicate FailsToPublish(op: Op) {
    op.Publish? && FirstSuccess(op.outcomes).None?
  }

  /** The steps that write the file; every one of them leaves its last line terminated. */
  predicate Writes(op: Op) {
    op.Replay? || FailsToPublish(op)
  }

  /** The last line is unterminated text, which spoils whatever is appended. */
  predicate Spoils(text: Text) {
    text.torn && text.lines != [] && !text.lines[|text.lines| - 1].BlankLine?
  }

  /** Appending keeps the record exactly when the file does not spoil it; otherwise the record
      is lost, and with it a readable last line. */
  lemma AppendKeeps(text: Text, record: DeadLetter)
    ensures var before, after := EventsOf(RecordsOf(text.lines)), EventsOf(RecordsOf(Appended(text, record).lines));
            if Spoils(text)
            then after == EventsOf(RecordsOf(text.lines[..|text.lines| - 1])) && multiset(after) <= multiset(before)
            else after == before + [record.event]
  {
    if text.torn && text.lines != [] {
      var front, last := text.lines[..|text.lines| - 1], text.lines[|text.lines| - 1];
      assert text.lines == front + [last];
      RecordsOfStep(front, last);
      RecordsOfStep(front, Joined(last, record));
      EventsStep(RecordsOf(front), record);
      if last.RecordLine? {
        EventsStep(RecordsOf(front), last.record);
      }
    } else {
      RecordsOfStep(text.lines, RecordLine(record));
      EventsStep(RecordsOf(text.lines), record);
    }
  }

  lemma EventsStep(records: seq<DeadLetter>, record: DeadLetter)
    ensures EventsOf(records + [record]) == EventsOf(records) + [record.event]
    ensures EventsOf(records + []) == EventsOf(records)
  {
    assert records + [] == records;
  }

  function OfferedBy(op: Op): multiset<Event> {
    if op.Publish? then multiset{op.event} else multiset{}
  }

  /** A step keeps every event and the one it offers, unless it spools on a spoiling file. */
  lemma StepConserves(w: World, op: Op, w': World)
    requires Step(w, op, w')
    ensures Kept(w') <= Kept(w) + OfferedBy(op)
    ensures Kept(w') == Kept(w) + OfferedBy(op) <==> !(FailsToPublish(op) && Spoils(w.file))
  {
    match op {
      case Publish(e, outcomes, reason) =>
        if FirstSuccess(outcomes).None? {
          AppendKeeps(w.file, DeadLetter(e, reason));
          if Spoils(w.file) {
            assert |Kept(w')| < |Kept(w) + OfferedBy(op)|;
          }
        }
      case Replay(outcomes) =>
        var records := RecordsOf(w.file.lines);
        var n := ReplayCount(|records|, outcomes);
        EventsSplit(records, n);
        RecordsOfLines(records[n..]);
      case Restart =>
    }
  }

  ghost predicate FirstWriteFailsAt(ops: seq<Op>, k: nat) {
    k < |ops| && FailsToPublish(ops[k]) && forall j :: 0 <= j < k ==> !Writes(ops[j])
  }

  /** The first step of the run that writes the file is a publish that fails. */
  ghost predicate FirstWriteFails(ops: seq<Op>) {
    exists k: nat :: FirstWriteFailsAt(ops, k)
  }

  lemma FirstWriteStep(ops: seq<Op>, op: Op)
    ensures FirstWriteFails(ops + [op])
            <==> FirstWriteFails(ops) || (FailsToPublish(op) && forall j :: 0 <= j < |ops| ==> !Writes(ops[j]))
  {
    var all := ops + [op];
    assert forall j :: 0 <= j < |ops| ==> all[j] == ops[j];
    forall k: nat
      ensures FirstWriteFailsAt(all, k)
              <==> if k == |ops| then FailsToPublish(op) && (forall j :: 0 <= j < |ops| ==> !Writes(ops[j]))
                   else FirstWriteFailsAt(ops, k)
    {
    }
    if k: nat :| FirstWriteFailsAt(ops, k) {
      assert FirstWriteFailsAt(all, k);
    }
    assert FirstWriteFailsAt(all, |ops|) ==> FirstWriteFails(all);
  }

  lemma RunPrefix(worlds: seq<World>, ops: seq<Op>)
    requires IsRun(worlds, ops) && ops != []
    ensures IsRun(worlds[..|ops|], ops[..|ops| - 1])
    ensures Step(worlds[|ops| - 1], ops[|ops| - 1], worlds[|ops|])
  {
    var n := |ops| - 1;
    forall i | 0 <= i < n
      ensures Step(worlds[..n + 1][i], ops[..n][i], worlds[..n + 1][i + 1])
    {
      assert Step(worlds[i], ops[i], worlds[i + 1]);
    }
    assert Step(worlds[n], ops[n], worlds[n + 1]);
  }

  /** The file stays as it was until a step writes it, and is not torn from then on. */
  lemma {:induction false} TornUntilWritten(worlds: seq<World>, ops: seq<Op>)
    requires IsRun(worlds, ops)
    ensures var last := worlds[|ops|].file;
            if forall j :: 0 <= j < |ops| ==> !Writes(ops[j]) then last == worlds[0].file else !last.torn
  {
    if ops != [] {
      RunPrefix(worlds, ops);
      TornUntilWritten(worlds[..|ops|], ops[..|ops| - 1]);
    }
  }

  /** Over any run of publishes, restarts and completed replays every offered event is exactly
      once on the bus or in the spool file, exactly unless the file was spoiling at the start
      and the first step that wrote it was a failing publish. */
  lemma {:induction false} EveryEventOnce(worlds: seq<World>, ops: seq<Op>)
    requires IsRun(worlds, ops)
    ensures Kept(worlds[|ops|]) <= Kept(worlds[0]) + multiset(OfferedEvents(ops))
    ensures Kept(worlds[|ops|]) == Kept(worlds[0]) + multiset(OfferedEvents(ops))
            <==> !(Spoils(worlds[0].file) && FirstWriteFails(ops))
  {
    if ops != [] {
      var n := |ops| - 1;
      var front, op := ops[..n], ops[n];
      assert ops == front + [op];
      RunPrefix(worlds, ops);
      EveryEventOnce(worlds[..n + 1], front);
      TornUntilWritten(worlds[..n + 1], front);
      StepConserves(worlds[n], op, worlds[n + 1]);
      FirstWriteStep(front, op);
      OfferedStep(front, op);
      StrictSum(Kept(worlds[n]), Kept(worlds[0]) + multiset(OfferedEvents(front)), OfferedBy(op), Kept(worlds[n + 1]));
    }
  }

  lemma OfferedStep(ops: seq<Op>, op: Op)
    ensures multiset(OfferedEvents(ops + [op])) == multiset(OfferedEvents(ops)) + OfferedBy(op)
  {
    assert (ops + [op])[..|ops|] == ops;
  }

  /** What is lost once stays lost. */
  lemma StrictSum(kept: multiset<Event>, due: multiset<Event>, offered: multiset<Event>, after: multiset<Event>)
    requires kept <= due && after <= kept + offered
    ensures after <= due + offered
    ensures after == due + offered <==> kept == due && after == kept + offered
  {
    if after == due + offered {
      forall e
        ensures kept[e] == due[e]
      {
        assert after[e] <= (kept + offered)[e];
      }
    }
  }

  /** A record without its newline, and a publish that fails: both events are gone. */
  lemma TornSpoolLoses(e: Event, f: Event)
    ensures var w := World([], Text([RecordLine(DeadLetter(e, ""))], true));
            var w' := World([], Appended(w.file, DeadLetter(f, "")));
            Step(w, Publish(f, [false], ""), w') && Kept(w) == multiset{e} && Kept(w') == multiset{}
  {
    var line := RecordLine(DeadLetter(e, ""));
    var w := World([], Text([line], true));
    RecordsOfStep([], line);
    assert [] + [line] == [line];
    AppendKeeps(w.file, DeadLetter(f, ""));
    assert [line][..0] == [];
    assert EventsOf(RecordsOf([line])) == [e];
  }
}
