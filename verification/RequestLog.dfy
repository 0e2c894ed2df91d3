/**
 The in-memory ring of recent requests, and the batches handed to the thread that
 appends them to the history file.

 `Fields` is what the mutex guards and each function on it one critical section;
 `Log` performs them in place.  `Sys` adds the writer thread and the file, and the list
 of everything ever recorded, against which nothing may be lost, repeated or reordered.
 */
module RequestLog {
  import opened Prelude
  import opened CsvRows

  const K_CSV_BATCH_SIZE: nat := 100

  datatype Fields = Fields(
    capacity: nat, persistent: bool, buffer: seq<RequestEvent>, nextSeq: nat,
    pendingBatch: seq<RequestEvent>, writeQueue: seq<seq<RequestEvent>>, stop: bool)

  function Empty(capacity: nat, persistent: bool): Fields {
    Fields(capacity, persistent, [], 1, [], [], false)
  }

  /** The last `n` elements, or all of them. */
  function Suffix<T>(s: seq<T>, n: nat): (r: seq<T>)
    ensures |r| <= n && |r| <= |s|
  {
    if |s| <= n then s else s[|s| - n..]
  }

  function Batched(k: Fields, e: RequestEvent): Fields {
    if !k.persistent then k
    else if |k.pendingBatch| + 1 >= K_CSV_BATCH_SIZE
    then k.(writeQueue := k.writeQueue + [k.pendingBatch + [e]], pendingBatch := [])
    else k.(pendingBatch := k.pendingBatch + [e])
  }

  function Record(k: Fields, event: RequestEvent): Fields {
    var e := event.(seqNo := k.nextSeq);
    Batched(k, e).(nextSeq := k.nextSeq + 1, buffer := Suffix(k.buffer + [e], k.capacity))
  }

  /** The destructor's critical section. */
  function RequestStop(k: Fields): Fields {
    k.(writeQueue := if k.pendingBatch != [] then k.writeQueue + [k.pendingBatch] else k.writeQueue,
       pendingBatch := [], stop := true)
  }

  function TakeBatches(k: Fields): Fields {
    k.(writeQueue := [])
  }

  function Concat<T>(batches: seq<seq<T>>): seq<T> {
    if batches == [] then [] else Concat(Front(batches)) + Last(batches)
  }

  function After(events: seq<RequestEvent>, since: nat): seq<RequestEvent> {
    if events == [] then []
    else After(Front(events), since) + if Last(events).seqNo > since then [Last(events)] else []
  }

  /** The first `limit` events newer than `since`; one is added before the limit is looked at, so a limit of 0 acts as 1. */
  function EventsSince(k: Fields, since: nat, limit: nat): seq<RequestEvent> {
    var newer := After(k.buffer, since);
    var most := if limit == 0 then 1 else limit;
    if |newer| <= most then newer else newer[..most]
  }

  function LatestSeq(k: Fields): int {
    k.nextSeq - 1
  }

  class Log {
    const capacity: nat
    const persistent: bool
    var buffer: seq<RequestEvent>
    var nextSeq: nat
    var pendingBatch: seq<RequestEvent>
    var writeQueue: seq<seq<RequestEvent>>
    var stop: bool

    ghost function Abs(): Fields
      reads this
    {
      Fields(capacity, persistent, buffer, nextSeq, pendingBatch, writeQueue, stop)
    }

    constructor (capacity: nat, persistent: bool)
      ensures Abs() == Empty(capacity, persistent)
    {
      this.capacity, this.persistent := capacity, persistent;
      buffer, nextSeq, pendingBatch, writeQueue, stop := [], 1, [], [], false;
    }

    method Add(event: RequestEvent)
      modifies this
      ensures Abs() == Record(old(Abs()), event)
    {
      var e := event.(seqNo := nextSeq);
      nextSeq := nextSeq + 1;
      if persistent {
        pendingBatch := pendingBatch + [e];
        if |pendingBatch| >= K_CSV_BATCH_SIZE {
          writeQueue := writeQueue + [pendingBatch];
          pendingBatch := [];
        }
      }
      buffer := buffer + [e];
      TrimRing();
    }

    method TrimRing()
      modifies `buffer
      ensures buffer == Suffix(old(buffer), capacity)
    {
      while |buffer| > capacity
        invariant Suffix(buffer, capacity) == Suffix(old(buffer), capacity)
        decreases |buffer|
      {
        buffer := buffer[1..];
      }
    }

    method Recent(limit: nat) returns (result: seq<RequestEvent>)
      ensures result == Suffix(buffer, limit)
    {
      var count := if limit < |buffer| then limit else |buffer|;
      result := buffer[|buffer| - count..];
    }

    method EventsAfter(sinceSeq: nat, limit: nat) returns (result: seq<RequestEvent>)
      ensures result == EventsSince(Abs(), sinceSeq, limit)
    {
      result := [];
      for i := 0 to |buffer|
        invariant result == After(buffer[..i], sinceSeq)
        invariant result == [] || |result| < limit
      {
        assert Front(buffer[..i + 1]) == buffer[..i];
        if buffer[i].seqNo > sinceSeq {
          result := result + [buffer[i]];
          if |result| >= limit {
            AfterPrefix(buffer, i + 1, sinceSeq);
            return;
          }
        }
      }
      assert buffer[..|buffer|] == buffer;
    }

    method Shutdown()
      modifies this
      ensures Abs() == RequestStop(old(Abs()))
    {
      if pendingBatch != [] {
        writeQueue := writeQueue + [pendingBatch];
        pendingBatch := [];
      }
      stop := true;
    }

    /** One round of the writer: the file's rows with everything queued appended to them. */
    method WriteQueued(rows: string) returns (rows': string)
      modifies this
      ensures Abs() == TakeBatches(old(Abs()))
      ensures rows' == rows + Rows(Concat(old(writeQueue)))
    {
      var batches := writeQueue;
      writeQueue := [];
      rows' := rows;
      for i := 0 to |batches|
        invariant rows' == rows + Rows(Concat(batches[..i]))
        invariant Abs() == TakeBatches(old(Abs()))
      {
        rows' := WriteBatch(rows', batches[i]);
        FlatBatches(Row, rows, batches, i);
      }
      assert batches[..|batches|] == batches;
    }

    static method WriteBatch(rows: string, batch: seq<RequestEvent>) returns (rows': string)
      ensures rows' == rows + Rows(batch)
    {
      rows' := rows;
      assert Flat(Row, batch[..0]) == "";
      for j := 0 to |batch|
        invariant rows' == rows + Flat(Row, batch[..j])
      {
        var row := ToCsvRow(batch[j]);
        rows' := rows' + row;
        FlatNext(Row, rows, batch, j);
      }
      assert batch[..|batch|] == batch;
    }
  }

  lemma {:induction false} FlatNext<T>(row: T -> string, rows: string, batch: seq<T>, j: nat)
    requires j < |batch|
    ensures rows + Flat(row, batch[..j]) + row(batch[j]) == rows + Flat(row, batch[..j + 1])
  {
    assert Front(batch[..j + 1]) == batch[..j];
  }

  lemma {:induction false} FlatBatches<T>(row: T -> string, rows: string, batches: seq<seq<T>>, i: nat)
    requires i < |batches|
    ensures rows + Flat(row, Concat(batches[..i])) + Flat(row, batches[i]) == rows + Flat(row, Concat(batches[..i + 1]))
  {
    assert Front(batches[..i + 1]) == batches[..i];
    FlatConcat(row, Concat(batches[..i]), batches[i]);
  }

  lemma {:induction false} AfterPrefix(events: seq<RequestEvent>, n: nat, since: nat)
    requires n <= |events|
    ensures After(events[..n], since) <= After(events, since)
    decreases |events|
  {
    if n == |events| {
      assert events[..n] == events;
    } else {
      assert Front(events)[..n] == events[..n];
      AfterPrefix(Front(events), n, since);
    }
  }

  // ------------------------------------------------------------------ the protocol

  datatype Writer = Waiting | Writing(rest: seq<RequestEvent>) | Exited

  /** `file` holds the events whose rows were written, `all` every event recorded. */
  datatype Sys = Sys(fields: Fields, writer: Writer, file: seq<RequestEvent>, all: seq<RequestEvent>)

  datatype Step =
    | RecordStep(event: RequestEvent)
    | StopStep
    | TakeStep
    | RowStep
    | FlushStep
    | ExitStep

  function Init(capacity: nat): Sys {
    Sys(Empty(capacity, true), Waiting, [], [])
  }

  predicate Enabled(s: Sys, step: Step) {
    match step
    case RecordStep(_) => !s.fields.stop
    case StopStep => !s.fields.stop
    case TakeStep => s.writer.Waiting? && s.fields.writeQueue != []
    case RowStep => s.writer.Writing? && s.writer.rest != []
    case FlushStep => s.writer.Writing? && s.writer.rest == []
    case ExitStep => s.writer.Waiting? && s.fields.writeQueue == [] && s.fields.stop
  }

  function Apply(s: Sys, step: Step): Sys
    requires Enabled(s, step)
  {
    match step
    case RecordStep(event) =>
      s.(fields := Record(s.fields, event), all := s.all + [event.(seqNo := s.fields.nextSeq)])
    case StopStep => s.(fields := RequestStop(s.fields))
    case TakeStep => s.(fields := TakeBatches(s.fields), writer := Writing(Concat(s.fields.writeQueue)))
    case RowStep => s.(file := s.file + [s.writer.rest[0]], writer := Writing(s.writer.rest[1..]))
    case FlushStep => s.(writer := Waiting)
    case ExitStep => s.(writer := Exited)
  }

  predicate Feasible(capacity: nat, steps: seq<Step>)
    decreases |steps|, 0
  {
    steps == [] || (Feasible(capacity, Front(steps)) && Enabled(Run(capacity, Front(steps)), Last(steps)))
  }

  function Run(capacity: nat, steps: seq<Step>): Sys
    requires Feasible(capacity, steps)
    decreases |steps|, 1
  {
    if steps == [] then Init(capacity) else Apply(Run(capacity, Front(steps)), Last(steps))
  }

  function InHand(w: Writer): seq<RequestEvent> {
    if w.Writing? then w.rest else []
  }

  /** Nothing lost, nothing twice, nothing out of order. */
  ghost predicate Conserved(s: Sys) {
    s.file + InHand(s.writer) + Concat(s.fields.writeQueue) + s.fields.pendingBatch == s.all
  }

  ghost predicate Numbered(s: Sys) {
    && s.fields.nextSeq == |s.all| + 1
    && forall i :: 0 <= i < |s.all| ==> s.all[i].seqNo == i + 1
  }

  ghost predicate Inv(s: Sys) {
    && s.fields.persistent
    && Conserved(s) && Numbered(s)
    && s.fields.buffer == Suffix(s.all, s.fields.capacity)
    && |s.fields.pendingBatch| < K_CSV_BATCH_SIZE
    && (s.fields.stop ==> s.fields.pendingBatch == [])
    && (s.writer.Exited? ==> s.fields.stop && s.fields.writeQueue == [])
  }

  lemma {:induction false} ConcatSnoc<T>(batches: seq<seq<T>>, b: seq<T>)
    ensures Concat(batches + [b]) == Concat(batches) + b
  {
    assert Front(batches + [b]) == batches;
  }

  lemma {:induction false} RecordConserves(s: Sys, event: RequestEvent)
    requires s.fields.persistent && Conserved(s) && !s.fields.stop
    ensures Conserved(Apply(s, RecordStep(event)))
  {
    var e := event.(seqNo := s.fields.nextSeq);
    var before := s.file + InHand(s.writer) + Concat(s.fields.writeQueue);
    ConcatSnoc(s.fields.writeQueue, s.fields.pendingBatch + [e]);
    assert before + s.fields.pendingBatch + [e] == before + (s.fields.pendingBatch + [e]);
    var t := Apply(s, RecordStep(event));
    assert t.file + InHand(t.writer) == s.file + InHand(s.writer);
    if t.fields.pendingBatch == [] {
      assert s.file + InHand(s.writer) + (Concat(s.fields.writeQueue) + (s.fields.pendingBatch + [e]))
             == before + (s.fields.pendingBatch + [e]);
    }
  }

  lemma {:induction false} StopConserves(s: Sys)
    requires Conserved(s) && !s.fields.stop
    ensures Conserved(Apply(s, StopStep))
  {
    ConcatSnoc(s.fields.writeQueue, s.fields.pendingBatch);
    assert s.file + InHand(s.writer) + (Concat(s.fields.writeQueue) + s.fields.pendingBatch)
           == s.file + InHand(s.writer) + Concat(s.fields.writeQueue) + s.fields.pendingBatch;
  }

  lemma {:induction false} WriterConserves(s: Sys, step: Step)
    requires Conserved(s) && Enabled(s, step) && !step.RecordStep? && !step.StopStep?
    ensures Conserved(Apply(s, step))
  {
    match step
    case RowStep =>
      var rest := s.writer.rest;
      assert rest == [rest[0]] + rest[1..];
      assert s.file + [rest[0]] + rest[1..] == s.file + rest;
    case TakeStep =>
      assert s.file + [] + Concat(s.fields.writeQueue) == s.file + Concat(s.fields.writeQueue) + [];
    case FlushStep =>
    case ExitStep =>
  }

  lemma {:induction false} RingKeepsTail<T>(all: seq<T>, e: T, n: nat)
    ensures Suffix(Suffix(all, n) + [e], n) == Suffix(all + [e], n)
  {
  }

  lemma {:induction false} StepKeepsInv(s: Sys, step: Step)
    requires Inv(s) && Enabled(s, step)
    ensures Inv(Apply(s, step)) && Apply(s, step).fields.capacity == s.fields.capacity
  {
    match step
    case RecordStep(event) =>
      RecordConserves(s, event);
      RingKeepsTail(s.all, event.(seqNo := s.fields.nextSeq), s.fields.capacity);
    case StopStep => StopConserves(s);
    case _ => WriterConserves(s, step);
  }

  /** Every interleaving of recorders and the writer. */
  lemma {:induction false} RunKeepsInv(capacity: nat, steps: seq<Step>)
    requires Feasible(capacity, steps)
    ensures Inv(Run(capacity, steps)) && Run(capacity, steps).fields.capacity == capacity
  {
    if steps != [] {
      RunKeepsInv(capacity, Front(steps));
      StepKeepsInv(Run(capacity, Front(steps)), Last(steps));
    }
  }

  /** The events recorded by a run, in the order of their calls and numbered from 1. */
  function Recorded(steps: seq<Step>): seq<RequestEvent> {
    if steps == [] then []
    else
      var before := Recorded(Front(steps));
      match Last(steps)
      case RecordStep(event) => before + [event.(seqNo := |before| + 1)]
      case _ => before
  }

  lemma {:induction false} AllIsRecorded(capacity: nat, steps: seq<Step>)
    requires Feasible(capacity, steps)
    ensures Run(capacity, steps).all == Recorded(steps)
  {
    if steps != [] {
      AllIsRecorded(capacity, Front(steps));
      RunKeepsInv(capacity, Front(steps));
    }
  }

  /** At every moment: file, writer, queue and open batch together are exactly what was recorded, and the ring is its tail. */
  lemma {:induction false} NothingLost(capacity: nat, steps: seq<Step>)
    requires Feasible(capacity, steps)
    ensures var s := Run(capacity, steps);
            && s.file + InHand(s.writer) + Concat(s.fields.writeQueue) + s.fields.pendingBatch == Recorded(steps)
            && |s.fields.buffer| == (if |Recorded(steps)| < capacity then |Recorded(steps)| else capacity)
            && s.fields.buffer == Recorded(steps)[|Recorded(steps)| - |s.fields.buffer|..]
            && |s.fields.pendingBatch| < 100
  {
    RunKeepsInv(capacity, steps);
    AllIsRecorded(capacity, steps);
  }

  /** A batch is handed over exactly when it has a hundred events; only the destructor hands over less. */
  lemma {:induction false} BatchesAreFull(capacity: nat, steps: seq<Step>, i: nat)
    requires Feasible(capacity, steps) && !Run(capacity, steps).fields.stop && i < |Run(capacity, steps).fields.writeQueue|
    ensures |Run(capacity, steps).fields.writeQueue[i]| == 100
  {
    if steps != [] {
      var s := Run(capacity, Front(steps));
      RunKeepsInv(capacity, Front(steps));
      if Last(steps).RecordStep? && i == |s.fields.writeQueue| {
        assert |s.fields.pendingBatch| < K_CSV_BATCH_SIZE;
      } else {
        BatchesAreFull(capacity, Front(steps), i);
      }
    }
  }

  /** A log without a file keeps the ring and nothing else. */
  lemma {:induction false} MemoryOnly(k: Fields, event: RequestEvent)
    requires !k.persistent
    ensures var t := Record(k, event);
            && t.pendingBatch == k.pendingBatch && t.writeQueue == k.writeQueue && t.nextSeq == k.nextSeq + 1
            && |t.buffer| <= k.capacity && (k.capacity > 0 ==> t.buffer != [] && Last(t.buffer) == event.(seqNo := k.nextSeq))
  {
  }

  /** Once the destructor has joined the writer, the rows in the file read back as every recorded event. */
  lemma {:induction false} ClosedFileIsComplete(capacity: nat, steps: seq<Step>)
    requires Feasible(capacity, steps) && Run(capacity, steps).writer.Exited?
    requires Timestamped(Recorded(steps))
    ensures Run(capacity, steps).file == Recorded(steps)
    ensures Parse(Rows(Run(capacity, steps).file)) == Some(AllFields(Recorded(steps)))
    ensures var events, records := Recorded(steps), Parse(Rows(Run(capacity, steps).file));
            && records.Some? && |records.value| == |events|
            && forall n :: 0 <= n < |events| ==> Records(events[n], records.value[n])
  {
    RunKeepsInv(capacity, steps);
    AllIsRecorded(capacity, steps);
    FileReadsBack(Recorded(steps));
    FileSaysWhatHappened(Recorded(steps));
  }

  /** What the writer still has to do after shutdown was requested. */
  function Rounds(s: Sys): nat {
    match s.writer
    case Exited => 0
    case Waiting => if s.fields.writeQueue == [] then 1 else |Concat(s.fields.writeQueue)| + 3
    case Writing(rest) => |rest| + 2 + if s.fields.writeQueue == [] then 0 else |Concat(s.fields.writeQueue)| + 2
  }

  function WriterStep(s: Sys): Step {
    match s.writer
    case Writing(rest) => if rest != [] then RowStep else FlushStep
    case _ => if s.fields.writeQueue != [] then TakeStep else ExitStep
  }

  ghost predicate Leads(s: Sys, t: Sys, n: nat)
    decreases n
  {
    if n == 0 then s == t
    else Enabled(s, WriterStep(s)) && Leads(Apply(s, WriterStep(s)), t, n - 1)
  }

  /** After shutdown the writer is never stuck and leaves its loop within a bounded number of its own steps. */
  lemma {:induction false} ShutdownDrains(s: Sys) returns (t: Sys)
    requires Inv(s) && s.fields.stop
    ensures Leads(s, t, Rounds(s)) && t.writer.Exited? && t.file == s.all
    decreases Rounds(s)
  {
    if s.writer.Exited? {
      t := s;
    } else {
      var step := WriterStep(s);
      StepKeepsInv(s, step);
      t := ShutdownDrains(Apply(s, step));
    }
  }
}
