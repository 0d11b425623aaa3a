/** The Loki batching buffer: producers, flushers, retries and drops, interleaved in any order.

    A coroutine inside `_flush_batch` owns the batch it took; its code between two suspensions is
    one step. The outcome of each post is arbitrary. */
module LokiBuffer {
  import opened Common
  import opened LokiGrouping
  import opened Ordering

  const MAX_FLUSH_RETRIES: nat := 2

  /** A suspended `_flush_batch`: the batch it took and the attempts that failed so far. */
  datatype Flight = Flight(batch: seq<Entry>, attempt: nat)

  /** `acked`, `dropped` and `pushed` are the history of the run. */
  datatype Buffer = Buffer(
    batch: seq<Entry>,
    flights: seq<Flight>,
    droppedEntries: nat,
    acked: seq<Entry>,
    dropped: seq<Entry>,
    pushed: seq<Entry>)

  const EMPTY: Buffer := Buffer([], [], 0, [], [], [])

  /** A producer appends; a manual or timed flush starts; a post answers (204 or not). */
  datatype Step =
    | Push(entry: Entry)
    | StartFlush
    | Answer(flight: nat, ok: bool)

  function ValueCount(batch: seq<Entry>): nat {
    if batch == [] then 0 else |batch[0].values| + ValueCount(batch[1..])
  }

  /** Take the batch and leave an empty one, before the first suspension. */
  function TakeBatch(b: Buffer): Buffer {
    if b.batch == [] then b else b.(batch := [], flights := b.flights + [Flight(b.batch, 0)])
  }

  function Without(flights: seq<Flight>, i: nat): seq<Flight>
    requires i < |flights|
  {
    flights[..i] + flights[i + 1..]
  }

  function Appended(b: Buffer, e: Entry): Buffer {
    b.(batch := b.batch + [e], pushed := b.pushed + [e])
  }

  function Acked(b: Buffer, i: nat): Buffer
    requires i < |b.flights|
  {
    b.(flights := Without(b.flights, i), acked := b.acked + b.flights[i].batch)
  }

  function Retried(b: Buffer, i: nat): Buffer
    requires i < |b.flights|
  {
    b.(flights := b.flights[i := Flight(b.flights[i].batch, b.flights[i].attempt + 1)])
  }

  function Dropped(b: Buffer, i: nat): Buffer
    requires i < |b.flights|
  {
    b.(flights := Without(b.flights, i),
       dropped := b.dropped + b.flights[i].batch,
       droppedEntries := b.droppedEntries + ValueCount(b.flights[i].batch))
  }

  function Next(b: Buffer, step: Step, batchSize: int): Buffer {
    match step
    case Push(e) => if |b.batch| + 1 >= batchSize then TakeBatch(Appended(b, e)) else Appended(b, e)
    case StartFlush => TakeBatch(b)
    case Answer(i, ok) =>
      if i >= |b.flights| then b
      else if ok then Acked(b, i)
      else if b.flights[i].attempt + 1 < MAX_FLUSH_RETRIES then Retried(b, i)
      else Dropped(b, i)
  }

  function Run(b: Buffer, steps: seq<Step>, batchSize: int): Buffer
    decreases |steps|
  {
    if steps == [] then b else Run(Next(b, steps[0], batchSize), steps[1..], batchSize)
  }

  // ---------------------------------------------------------------- conservation

  function InFlight(flights: seq<Flight>): multiset<Entry> {
    if flights == [] then multiset{} else multiset(flights[0].batch) + InFlight(flights[1..])
  }

  lemma {:induction false} InFlightAppend(a: seq<Flight>, b: seq<Flight>)
    ensures InFlight(a + b) == InFlight(a) + InFlight(b)
  {
    if a == [] {
      assert a + b == b;
    } else {
      assert (a + b)[1..] == a[1..] + b;
      InFlightAppend(a[1..], b);
    }
  }

  lemma InFlightOne(f: Flight)
    ensures InFlight([f]) == multiset(f.batch)
  {
    assert [f][1..] == [];
  }

  lemma InFlightSplit(flights: seq<Flight>, i: nat)
    requires i < |flights|
    ensures InFlight(flights) == InFlight(Without(flights, i)) + multiset(flights[i].batch)
  {
    CutAround(flights, i);
    InFlightMiddle(flights[..i], flights[i], flights[i + 1..]);
  }

  lemma CutAround(flights: seq<Flight>, i: nat)
    requires i < |flights|
    ensures flights == flights[..i] + ([flights[i]] + flights[i + 1..])
  {
  }

  lemma InFlightMiddle(a: seq<Flight>, f: Flight, b: seq<Flight>)
    ensures InFlight(a + ([f] + b)) == InFlight(a + b) + multiset(f.batch)
  {
    InFlightAppend(a, [f] + b);
    InFlightFirst(f, b);
    InFlightAppend(a, b);
    MiddleLast(InFlight(a), multiset(f.batch), InFlight(b));
  }

  lemma MiddleLast(a: multiset<Entry>, f: multiset<Entry>, b: multiset<Entry>)
    ensures a + (f + b) == (a + b) + f
  {
  }

  lemma InFlightFirst(f: Flight, rest: seq<Flight>)
    ensures InFlight([f] + rest) == multiset(f.batch) + InFlight(rest)
  {
    assert ([f] + rest)[1..] == rest;
  }

  lemma InFlightRetry(flights: seq<Flight>, i: nat, attempt: nat)
    requires i < |flights|
    ensures InFlight(flights[i := Flight(flights[i].batch, attempt)]) == InFlight(flights)
  {
    var later := flights[i := Flight(flights[i].batch, attempt)];
    InFlightSplit(flights, i);
    InFlightSplit(later, i);
    assert Without(later, i) == Without(flights, i);
  }

  lemma {:induction false} ValueCountAppend(a: seq<Entry>, b: seq<Entry>)
    ensures ValueCount(a + b) == ValueCount(a) + ValueCount(b)
  {
    if a == [] {
      assert a + b == b;
    } else {
      assert (a + b)[1..] == a[1..] + b;
      ValueCountAppend(a[1..], b);
    }
  }

  ghost predicate Balanced(b: Buffer) {
    multiset(b.pushed) == multiset(b.acked) + multiset(b.dropped) + (InFlight(b.flights) + multiset(b.batch))
  }

  /** Every pushed entry is in exactly one place, the drop count counts the dropped, the batch
      stays short, and no batch is posted more often than allowed. */
  ghost predicate Accounted(b: Buffer, batchSize: int) {
    && Balanced(b)
    && b.droppedEntries == ValueCount(b.dropped)
    && |b.batch| < Max(1, batchSize)
    && Bounded(b.flights)
  }

  /** No flight is empty, and none has used up its attempts. */
  ghost predicate Bounded(flights: seq<Flight>) {
    forall i :: 0 <= i < |flights| ==> flights[i].attempt < MAX_FLUSH_RETRIES && flights[i].batch != []
  }

  lemma TakeBatchMoves(b: Buffer)
    ensures InFlight(TakeBatch(b).flights) + multiset(TakeBatch(b).batch) == InFlight(b.flights) + multiset(b.batch)
    ensures Balanced(b) ==> Balanced(TakeBatch(b))
  {
    InFlightAppend(b.flights, [Flight(b.batch, 0)]);
    InFlightOne(Flight(b.batch, 0));
  }

  lemma PushBalanced(b: Buffer, e: Entry)
    requires Balanced(b)
    ensures Balanced(Appended(b, e))
  {
  }

  lemma Resettle(p: multiset<Entry>, a: multiset<Entry>, d: multiset<Entry>, rest: multiset<Entry>, f: multiset<Entry>, t: multiset<Entry>)
    requires p == a + d + ((rest + f) + t)
    ensures p == (a + f) + d + (rest + t)
    ensures p == a + (d + f) + (rest + t)
  {
    assert forall e :: p[e] == a[e] + d[e] + rest[e] + f[e] + t[e];
  }

  lemma SettledBalanced(b: Buffer, i: nat)
    requires Balanced(b) && i < |b.flights|
    ensures Balanced(Acked(b, i))
    ensures Balanced(b.(flights := Without(b.flights, i), dropped := b.dropped + b.flights[i].batch))
  {
    var f := b.flights[i];
    InFlightSplit(b.flights, i);
    Resettle(multiset(b.pushed), multiset(b.acked), multiset(b.dropped), InFlight(Without(b.flights, i)),
             multiset(f.batch), multiset(b.batch));
    assert multiset(b.acked + f.batch) == multiset(b.acked) + multiset(f.batch);
    assert multiset(b.dropped + f.batch) == multiset(b.dropped) + multiset(f.batch);
  }

  lemma AckAccounted(b: Buffer, i: nat, batchSize: int)
    requires Accounted(b, batchSize) && i < |b.flights|
    ensures Accounted(Acked(b, i), batchSize)
  {
    SettledBalanced(b, i);
  }

  lemma RetryAccounted(b: Buffer, i: nat, batchSize: int)
    requires Accounted(b, batchSize) && i < |b.flights| && b.flights[i].attempt + 1 < MAX_FLUSH_RETRIES
    ensures Accounted(Retried(b, i), batchSize)
  {
    RetryBalanced(b, i);
    RetriedBounded(b.flights, i);
  }

  lemma RetryBalanced(b: Buffer, i: nat)
    requires Balanced(b) && i < |b.flights|
    ensures Balanced(Retried(b, i))
  {
    InFlightRetry(b.flights, i, b.flights[i].attempt + 1);
    SameFlightBalanced(b, Retried(b, i).flights);
  }

  lemma RetriedBounded(flights: seq<Flight>, i: nat)
    requires Bounded(flights) && i < |flights| && flights[i].attempt + 1 < MAX_FLUSH_RETRIES
    ensures Bounded(flights[i := Flight(flights[i].batch, flights[i].attempt + 1)])
  {
  }

  lemma SameFlightBalanced(b: Buffer, flights: seq<Flight>)
    requires Balanced(b) && InFlight(flights) == InFlight(b.flights)
    ensures Balanced(b.(flights := flights))
  {
  }

  lemma DropAccounted(b: Buffer, i: nat, batchSize: int)
    requires Accounted(b, batchSize) && i < |b.flights|
    ensures Accounted(Dropped(b, i), batchSize)
  {
    SettledBalanced(b, i);
    ValueCountAppend(b.dropped, b.flights[i].batch);
    WithoutBounded(b.flights, i);
  }

  lemma WithoutBounded(flights: seq<Flight>, i: nat)
    requires Bounded(flights) && i < |flights|
    ensures Bounded(Without(flights, i))
  {
    forall j | 0 <= j < |Without(flights, i)| ensures Without(flights, i)[j] in flights {
      assert Without(flights, i)[j] == flights[if j < i then j else j + 1];
    }
  }

  lemma StepAccounted(b: Buffer, step: Step, batchSize: int)
    requires Accounted(b, batchSize)
    ensures Accounted(Next(b, step, batchSize), batchSize)
  {
    match step
    case Push(e) => PushAccounted(b, e, batchSize);
    case StartFlush => TakeAccounted(b, batchSize);
    case Answer(i, ok) =>
      if i < |b.flights| {
        if ok { AckAccounted(b, i, batchSize); }
        else if b.flights[i].attempt + 1 < MAX_FLUSH_RETRIES { RetryAccounted(b, i, batchSize); }
        else { DropAccounted(b, i, batchSize); }
      }
  }

  lemma TakeAccounted(b: Buffer, batchSize: int)
    requires Balanced(b) && Bounded(b.flights) && b.droppedEntries == ValueCount(b.dropped)
    ensures Accounted(TakeBatch(b), batchSize)
  {
    TakeBatchMoves(b);
  }

  lemma PushAccounted(b: Buffer, e: Entry, batchSize: int)
    requires Accounted(b, batchSize)
    ensures Accounted(Next(b, Push(e), batchSize), batchSize)
  {
    PushBalanced(b, e);
    if |b.batch| + 1 >= batchSize { TakeAccounted(Appended(b, e), batchSize); }
  }

  /** In every interleaving, from the empty buffer on, nothing is lost, invented or counted twice. */
  lemma {:induction false} RunAccounted(b: Buffer, steps: seq<Step>, batchSize: int)
    requires Accounted(b, batchSize)
    ensures Accounted(Run(b, steps, batchSize), batchSize)
    decreases |steps|
  {
    if steps != [] {
      StepAccounted(b, steps[0], batchSize);
      RunAccounted(Next(b, steps[0], batchSize), steps[1..], batchSize);
    }
  }

  /** Messages pushed once are acknowledged at most once, and never both acknowledged and dropped. */
  lemma AcknowledgedOnce(steps: seq<Step>, batchSize: int, e: Entry)
    requires multiset(Run(EMPTY, steps, batchSize).pushed)[e] <= 1
    ensures var b := Run(EMPTY, steps, batchSize);
            multiset(b.acked)[e] + multiset(b.dropped)[e] <= 1
            && (e in b.acked ==> e !in b.dropped && e !in b.batch)
  {
    RunAccounted(EMPTY, steps, batchSize);
    var b := Run(EMPTY, steps, batchSize);
    assert multiset(b.pushed)[e]
        == multiset(b.acked)[e] + InFlight(b.flights)[e] + multiset(b.batch)[e] + multiset(b.dropped)[e];
    assert e in b.acked ==> e in multiset(b.acked);
    assert e in b.dropped ==> e in multiset(b.dropped);
    assert e in b.batch ==> e in multiset(b.batch);
  }

  /** Entries made by `push_log` carry one line each, so the drop counter is the number of dropped
      messages, and once nothing is buffered or in flight it is what was not acknowledged. */
  lemma DropCountExact(steps: seq<Step>, batchSize: int)
    requires forall i :: 0 <= i < |steps| && steps[i].Push? ==> |steps[i].entry.values| == 1
    ensures var b := Run(EMPTY, steps, batchSize);
            b.droppedEntries == |b.dropped|
            && (b.flights == [] && b.batch == [] ==> b.droppedEntries == |b.pushed| - |b.acked|)
  {
    RunAccounted(EMPTY, steps, batchSize);
    var b := Run(EMPTY, steps, batchSize);
    PushedAreSingle(EMPTY, steps, batchSize);
    forall e | e in b.dropped ensures |e.values| == 1 {
      assert e in multiset(b.dropped);
      assert e in multiset(b.pushed);
      assert e in b.pushed;
    }
    SinglesCount(b.dropped);
    if b.flights == [] && b.batch == [] {
      assert multiset(b.pushed) == multiset(b.acked) + multiset(b.dropped);
      assert |multiset(b.pushed)| == |multiset(b.acked)| + |multiset(b.dropped)|;
    }
  }

  lemma {:induction false} SinglesCount(batch: seq<Entry>)
    requires forall e :: e in batch ==> |e.values| == 1
    ensures ValueCount(batch) == |batch|
  {
    if batch != [] {
      assert batch[0] in batch;
      SinglesCount(batch[1..]);
    }
  }

  lemma {:induction false} PushedAreSingle(b: Buffer, steps: seq<Step>, batchSize: int)
    requires forall i :: 0 <= i < |steps| && steps[i].Push? ==> |steps[i].entry.values| == 1
    requires forall e :: e in b.pushed ==> |e.values| == 1
    ensures forall e :: e in Run(b, steps, batchSize).pushed ==> |e.values| == 1
    decreases |steps|
  {
    if steps != [] {
      var c := Next(b, steps[0], batchSize);
      assert forall i :: 0 <= i < |steps[1..]| ==> steps[1..][i] == steps[i + 1];
      PushedAreSingle(c, steps[1..], batchSize);
    }
  }

  /** A failed post leaves the flight's batch alone, so the retry sends the same payload; after the
      last failure the flight is gone. Neither puts entries back into the buffer. */
  lemma RetrySendsSamePayload(b: Buffer, i: nat, batchSize: int)
    requires i < |b.flights|
    ensures var c := Next(b, Answer(i, false), batchSize);
            if b.flights[i].attempt + 1 < MAX_FLUSH_RETRIES
            then |c.flights| == |b.flights| && Grouped(c.flights[i].batch) == Grouped(b.flights[i].batch)
            else |c.flights| == |b.flights| - 1 && c.dropped == b.dropped + b.flights[i].batch
    ensures Next(b, Answer(i, false), batchSize).batch == b.batch
  {
  }

  /** Where the flight that is at `i` is after a step; None when the step ended it. */
  function Moved(b: Buffer, step: Step, i: nat): Option<nat>
    requires i < |b.flights|
  {
    match step
    case Push(_) => Some(i)
    case StartFlush => Some(i)
    case Answer(j, ok) =>
      if j >= |b.flights| || (!ok && b.flights[j].attempt + 1 < MAX_FLUSH_RETRIES) then Some(i)
      else if j == i then None
      else Some(if j < i then i - 1 else i)
  }

  lemma MovedFlight(b: Buffer, step: Step, i: nat, batchSize: int)
    requires i < |b.flights|
    ensures match Moved(b, step, i)
            case Some(j) => j < |Next(b, step, batchSize).flights| && Next(b, step, batchSize).flights[j].batch == b.flights[i].batch
            case None => step.Answer? && step.flight == i
  {
  }

  /** The same over a run. */
  function Tracked(b: Buffer, steps: seq<Step>, i: nat, batchSize: int): Option<nat>
    requires i < |b.flights|
    decreases |steps|
  {
    if steps == [] then Some(i)
    else
      MovedFlight(b, steps[0], i, batchSize);
      match Moved(b, steps[0], i)
      case Some(j) => Tracked(Next(b, steps[0], batchSize), steps[1..], j, batchSize)
      case None => None
  }

  /** However pushes, other flushes and failed attempts are interleaved, every attempt of a flight
      posts the streams of the batch it took. */
  lemma {:induction false} PayloadNeverChanges(b: Buffer, steps: seq<Step>, i: nat, batchSize: int)
    requires i < |b.flights| && Tracked(b, steps, i, batchSize).Some?
    ensures var j := Tracked(b, steps, i, batchSize).value;
            && j < |Run(b, steps, batchSize).flights|
            && Grouped(Run(b, steps, batchSize).flights[j].batch) == Grouped(b.flights[i].batch)
    decreases |steps|
  {
    if steps != [] {
      MovedFlight(b, steps[0], i, batchSize);
      PayloadNeverChanges(Next(b, steps[0], batchSize), steps[1..], Moved(b, steps[0], i).value, batchSize);
    }
  }

  /** No entry, buffered or in flight, has a label twice. */
  ghost predicate Proper(b: Buffer) {
    ProperBatch(b.batch) && forall i :: 0 <= i < |b.flights| ==> ProperBatch(b.flights[i].batch)
  }

  ghost predicate ProperStep(step: Step) { step.Push? ==> DistinctKeys(step.entry.labels) }

  lemma StepProper(b: Buffer, step: Step, batchSize: int)
    requires Proper(b) && ProperStep(step)
    ensures Proper(Next(b, step, batchSize))
  {
  }

  lemma {:induction false} RunProper(b: Buffer, steps: seq<Step>, batchSize: int)
    requires Proper(b) && forall i :: 0 <= i < |steps| ==> ProperStep(steps[i])
    ensures Proper(Run(b, steps, batchSize))
    decreases |steps|
  {
    if steps != [] {
      StepProper(b, steps[0], batchSize);
      RunProper(Next(b, steps[0], batchSize), steps[1..], batchSize);
    }
  }

  method CountValues(batch: seq<Entry>) returns (count: nat)
    ensures count == ValueCount(batch)
  {
    count := 0;
    for n := 0 to |batch|
      invariant count == ValueCount(batch[..n])
    {
      assert batch[..n + 1] == batch[..n] + [batch[n]];
      ValueCountAppend(batch[..n], [batch[n]]);
      count := count + |batch[n].values|;
    }
    assert batch[..|batch|] == batch;
  }

  // ---------------------------------------------------------------- the client

  /** The client's fields, and for each suspended `_flush_batch` its local variables. */
  class LokiClient {
    const batchSize: int
    const defaultLabels: Labels
    var batch: seq<Entry>
    var droppedEntries: nat
    var flights: seq<Flight>
    ghost var acked: seq<Entry>
    ghost var dropped: seq<Entry>
    ghost var pushed: seq<Entry>

    constructor (batchSize: int, defaultLabels: Labels)
      requires DistinctKeys(defaultLabels)
      ensures Valid()
      ensures this.batchSize == batchSize && this.defaultLabels == defaultLabels && State() == EMPTY
    {
      this.batchSize, this.defaultLabels := batchSize, defaultLabels;
      batch, droppedEntries, flights := [], 0, [];
      acked, dropped, pushed := [], [], [];
    }

    ghost function State(): Buffer
      reads this
    {
      Buffer(batch, flights, droppedEntries, acked, dropped, pushed)
    }

    ghost predicate Valid()
      reads this
    {
      DistinctKeys(defaultLabels) && Proper(State())
    }

    /** `push_log` up to its first suspension; `done` is false when it went on to flush. */
    method PushLog(message: string, labels: Labels, timestamp: Option<string>, now: string) returns (done: bool)
      requires Valid()
      modifies this
      ensures Valid()
      ensures var ts := if timestamp.Some? && timestamp.value != "0" then timestamp.value else now;
              State() == Next(old(State()), Push(Entry(Merged(defaultLabels, labels), [(ts, message)])), batchSize)
      ensures done ==> flights == old(flights)
    {
      var mergedLabels := Merged(defaultLabels, labels);
      MergedMap(defaultLabels, labels);
      var ts := if timestamp.Some? && timestamp.value != "0" then timestamp.value else now;
      var entry := Entry(mergedLabels, [(ts, message)]);
      batch := batch + [entry];
      pushed := pushed + [entry];
      if |batch| >= batchSize {
        BeginFlush();
        return false;
      }
      return true;
    }

    /** `_flush_batch` up to its first suspension. */
    method BeginFlush()
      requires Valid()
      modifies this
      ensures Valid()
      ensures State() == TakeBatch(old(State()))
    {
      if batch == [] {
        return;
      }
      flights := flights + [Flight(batch, 0)];
      batch := [];
    }

    /** The payload the next attempt of a flight posts. */
    method Payload(i: nat) returns (streams: Streams)
      requires Valid() && i < |flights|
      ensures streams == Grouped(flights[i].batch) && IsPartition(flights[i].batch, streams)
    {
      streams := GroupByLabels(flights[i].batch);
      GroupingIsPartition(flights[i].batch);
    }

    /** The rest of one attempt, once its post has answered or raised; a result means that the
        coroutine returned it. */
    method Resume(i: nat, ok: bool) returns (result: Option<bool>)
      requires Valid() && i < |flights|
      modifies this
      ensures Valid()
      ensures State() == Next(old(State()), Answer(i, ok), batchSize)
      ensures result.Some? <==> |flights| < old(|flights|)
      ensures result.Some? ==> result.value == ok
    {
      var flight := flights[i];
      if ok {
        flights := Without(flights, i);
        acked := acked + flight.batch;
        return Some(true);
      }
      if flight.attempt < MAX_FLUSH_RETRIES - 1 {
        flights := flights[i := flight.(attempt := flight.attempt + 1)];
        return None;
      }
      var count := CountValues(flight.batch);
      droppedEntries := droppedEntries + count;
      flights := Without(flights, i);
      dropped := dropped + flight.batch;
      return Some(false);
    }
  }
}
