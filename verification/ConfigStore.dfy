/**
 The configuration holder: readers take the published snapshot, `update` copies it,
 mutates the copy and publishes the result, a background writer persists whatever
 snapshot is newest when it next looks, and a poller reloads the file when its
 modification time has changed.

 `Code` is what the object and its file hold; `Store` performs whole calls in place.
 `Sys` adds the program counters of one updating thread (the update mutex admits one at
 a time), of the writer and of the poller, and a log of everything ever published.  Each
 log entry says on which earlier entry it was based, so that a lost change can be seen:
 it is an entry that some later entry was not based on.
 */
module ConfigStore {
  import opened Prelude

  /** A change to the configuration; `None` stands for a mutator that throws. */
  type Mutator<!C> = C -> Option<C>

  /** The YAML file: `None` when it does not parse. */
  datatype File<C> = File(config: Option<C>, mtime: nat)

  datatype Code<C> = Code(current: C, pending: Option<C>, stop: bool, lastMtime: nat, file: File<C>)

  // ------------------------------------------------------------------ the object

  class Store<C> {
    var current: C
    var pendingWrite: Option<C>
    var stop: bool
    var lastMtime: nat
    var file: File<C>

    ghost function Abs(): Code<C>
      reads this
    {
      Code(current, pendingWrite, stop, lastMtime, file)
    }

    /** The state after loading the file. */
    constructor (config: C, mtime: nat)
      ensures Abs() == Code(config, None, false, mtime, File(Some(config), mtime))
    {
      current, pendingWrite, stop, lastMtime := config, None, false, mtime;
      file := File(Some(config), mtime);
    }

    method Get() returns (config: C)
      ensures config == current
    {
      config := current;
    }

    /** One whole update with no other thread in between; `ok` is false when the mutator throws. */
    method Update(mutator: Mutator<C>) returns (ok: bool)
      modifies this
      ensures ok == mutator(old(current)).Some?
      ensures !ok ==> Abs() == old(Abs())
      ensures ok ==> Some(current) == mutator(old(current)) && pendingWrite == Some(current)
      ensures stop == old(stop) && lastMtime == old(lastMtime) && file == old(file)
    {
      var updated := mutator(current);
      if updated.None? {
        return false;
      }
      current := updated.value;
      pendingWrite := Some(updated.value);
      ok := true;
    }

    /** The writer's wait: either work, or `None` when it is time to leave the loop. */
    method NextWork() returns (work: Option<C>)
      requires stop || pendingWrite.Some?
      modifies `pendingWrite
      ensures work == old(pendingWrite) && pendingWrite == None
    {
      if pendingWrite.None? && stop {
        return None;
      }
      work := pendingWrite;
      pendingWrite := None;
    }

    /** `mtime` is the modification time that the file system gives the new file. */
    method WriteToDisk(config: C, mtime: nat)
      modifies `file, `lastMtime
      ensures file == File(Some(config), mtime) && lastMtime == mtime
    {
      file := File(Some(config), mtime);
      lastMtime := file.mtime;
    }

    /** The destructor: stop, and the writer's loop until it ends. */
    method Shutdown(mtime: nat)
      modifies `stop, `pendingWrite, `file, `lastMtime
      ensures stop && pendingWrite == None
      ensures match old(pendingWrite)
              case Some(c) => file == File(Some(c), mtime) && lastMtime == mtime
              case None => file == old(file) && lastMtime == old(lastMtime)
    {
      stop := true;
      var work := NextWork();
      while work.Some?
        invariant stop && pendingWrite == None
        invariant work.Some? ==> work == old(pendingWrite) && file == old(file) && lastMtime == old(lastMtime)
        invariant work.None? ==> match old(pendingWrite)
                                 case Some(c) => file == File(Some(c), mtime) && lastMtime == mtime
                                 case None => file == old(file) && lastMtime == old(lastMtime)
        decreases if work.Some? then 1 else 0
      {
        WriteToDisk(work.value, mtime);
        work := NextWork();
      }
    }

    /** One whole poll with no other thread in between. */
    method PollForExternalChanges()
      modifies `current, `lastMtime
      ensures file.mtime == old(lastMtime) || file.config.None? ==> Abs() == old(Abs())
      ensures file.mtime != old(lastMtime) && file.config.Some? ==> Some(current) == file.config && lastMtime == file.mtime
    {
      var mtime := file.mtime;
      if mtime == lastMtime {
        return;
      }
      var config := file.config;
      if config.None? {
        return;
      }
      current := config.value;
      lastMtime := mtime;
    }
  }

  // ------------------------------------------------------------------ the protocol

  /**
   The thread that holds the update mutex, and how far it got.  `copyV` is how long the log was when the copy was
   taken, `reloaded` whether the poller has published anything since.
   */
  datatype Updater<!C> =
    | Nobody
    | Locked(mutator: Mutator<C>)
    | Copied(mutator: Mutator<C>, copy: C, copyV: nat, reloaded: bool)
    | Mutated(mutator: Mutator<C>, snapshot: C, copyV: nat, reloaded: bool)
    | Swapped(snapshot: C)

  datatype Writer<C> = Waiting | Writing(snapshot: C) | Written | Exited

  /**
   The poller.  It notes the file's time, compares it with the last one known, reads the file and publishes what it
   read, and anything may happen in between.  `readV` is the log entry that the file had been written from; `settled`
   says that nothing newer was on its way when the file was read, `swapped` that an update was published since, and
   `edited` that the file was written by somebody else since.
   */
  datatype Poller<C> =
    | Idle
    | Noticed(mtime: nat)
    | Differs(mtime: nat)
    | HasRead(mtime: nat, config: C, readV: nat, settled: bool, swapped: bool, edited: bool)

  /** What was published, and the length of the log that it was based on. */
  datatype Event<!C> = Commit(config: C, onV: nat, mutator: Mutator<C>) | Reload(config: C, onV: nat)

  /**
   `pendingV`, `writingV` and `diskV` say which entry of the log the pending, the in-flight and the persisted snapshot
   are; `handmade` says that somebody else wrote the file last, `foreign` that nothing was published from it since.
   */
  datatype Sys<!C> = Sys(
    code: Code<C>, updater: Updater<C>, writer: Writer<C>, poller: Poller<C>,
    base: C, log: seq<Event<C>>, pendingV: nat, writingV: nat, diskV: nat, foreign: bool, handmade: bool)

  datatype Step<!C> =
    | LockStep(mutator: Mutator<C>)
    | CopyStep
    | MutateStep
    | SwapStep
    | EnqueueStep
    | StopStep
    | TakeStep
    | ExitStep
    | WriteStep(mtime: nat)
    | NoteStep
    | EditStep(config: Option<C>, mtime: nat)
    | NoticeStep
    | CompareStep
    | ReadStep
    | StoreStep

  function Init<C>(config: C, mtime: nat): Sys<C> {
    Sys(Code(config, None, false, mtime, File(Some(config), mtime)), Nobody, Waiting, Idle, config, [], 0, 0, 0, false, false)
  }

  /** The object is destroyed only when nobody is updating or polling, and not used afterwards. */
  predicate Enabled<C>(s: Sys<C>, step: Step<C>) {
    match step
    case LockStep(_) => s.updater.Nobody? && !s.code.stop
    case CopyStep => s.updater.Locked?
    case MutateStep => s.updater.Copied?
    case SwapStep => s.updater.Mutated?
    case EnqueueStep => s.updater.Swapped?
    case StopStep => s.updater.Nobody? && s.poller.Idle?
    case TakeStep => s.writer.Waiting? && s.code.pending.Some?
    case ExitStep => s.writer.Waiting? && s.code.pending.None? && s.code.stop
    case WriteStep(_) => s.writer.Writing?
    case NoteStep => s.writer.Written?
    case EditStep(_, _) => true
    case NoticeStep => s.poller.Idle? && !s.code.stop
    case CompareStep => s.poller.Noticed?
    case ReadStep => s.poller.Differs?
    case StoreStep => s.poller.HasRead?
  }

  /** The value of a log of that length. */
  function ValueAt<C>(base: C, log: seq<Event<C>>, v: nat): C
    requires v <= |log|
  {
    if v == 0 then base else log[v - 1].config
  }

  /** Nothing that was published is still on its way to the file. */
  predicate Settled<C>(s: Sys<C>) {
    s.code.pending.None? && !s.writer.Writing? && !s.updater.Swapped?
  }

  function Reloaded<C>(u: Updater<C>): Updater<C> {
    match u
    case Copied(mutator, copy, copyV, _) => Copied(mutator, copy, copyV, true)
    case Mutated(mutator, snapshot, copyV, _) => Mutated(mutator, snapshot, copyV, true)
    case _ => u
  }

  function Apply<C>(s: Sys<C>, step: Step<C>): Sys<C>
    requires Enabled(s, step)
  {
    match step
    case LockStep(mutator) => s.(updater := Locked(mutator))
    case CopyStep => s.(updater := Copied(s.updater.mutator, s.code.current, |s.log|, false))
    case MutateStep => s.(updater := Finished(s.updater))
    case SwapStep =>
      s.(code := s.code.(current := s.updater.snapshot),
         log := s.log + [Commit(s.updater.snapshot, s.updater.copyV, s.updater.mutator)],
         updater := Swapped(s.updater.snapshot),
         poller := if s.poller.HasRead? then s.poller.(swapped := true) else s.poller)
    case EnqueueStep =>
      s.(code := s.code.(pending := Some(s.updater.snapshot)), pendingV := |s.log|, updater := Nobody)
    case StopStep => s.(code := s.code.(stop := true))
    case TakeStep => s.(code := s.code.(pending := None), writer := Writing(s.code.pending.value), writingV := s.pendingV)
    case ExitStep => s.(writer := Exited)
    case WriteStep(mtime) =>
      s.(code := s.code.(file := File(Some(s.writer.snapshot), mtime)), writer := Written, diskV := s.writingV, foreign := false, handmade := false)
    case NoteStep => s.(code := s.code.(lastMtime := s.code.file.mtime), writer := Waiting)
    case EditStep(config, mtime) =>
      s.(code := s.code.(file := File(config, mtime)), foreign := true, handmade := true,
         poller := if s.poller.HasRead? then s.poller.(edited := true) else s.poller)
    case NoticeStep => s.(poller := Noticed(s.code.file.mtime))
    case CompareStep => s.(poller := if s.poller.mtime == s.code.lastMtime then Idle else Differs(s.poller.mtime))
    case ReadStep =>
      s.(poller := match s.code.file.config
                   case None => Idle
                   case Some(config) => HasRead(s.poller.mtime, config, s.diskV, Settled(s), false, false))
    case StoreStep =>
      s.(code := s.code.(current := s.poller.config, lastMtime := s.poller.mtime),
         log := s.log + [Reload(s.poller.config, s.poller.readV)],
         diskV := |s.log| + 1, foreign := s.poller.edited,
         updater := Reloaded(s.updater), poller := Idle)
  }

  /** The mutator's verdict on the copy. */
  function Finished<C>(u: Updater<C>): Updater<C>
    requires u.Copied?
  {
    match u.mutator(u.copy)
    case None => Nobody
    case Some(c) => Mutated(u.mutator, c, u.copyV, u.reloaded)
  }

  predicate Feasible<C>(s: Sys<C>, steps: seq<Step<C>>)
    decreases |steps|, 0
  {
    steps == [] || (Feasible(s, Front(steps)) && Enabled(Run(s, Front(steps)), Last(steps)))
  }

  function Run<C>(s: Sys<C>, steps: seq<Step<C>>): Sys<C>
    requires Feasible(s, steps)
    decreases |steps|, 1
  {
    if steps == [] then s else Apply(Run(s, Front(steps)), Last(steps))
  }

  // ------------------------------------------------------------------ when no change is lost

  /** Every entry was based on the one just before it. */
  predicate Linear<C>(log: seq<Event<C>>) {
    forall v :: 0 <= v < |log| ==> log[v].onV == v
  }

  /**
   What has to be kept apart: an update is not published over a reload that came after its copy, and a poll publishes
   only what it read while nothing newer was on its way, and no update in the meantime.
   */
  predicate KeptApart<C>(s: Sys<C>, step: Step<C>)
    requires Enabled(s, step)
  {
    match step
    case SwapStep => !s.updater.reloaded
    case StoreStep => s.poller.settled && !s.poller.swapped
    case _ => true
  }

  predicate Undisturbed<C>(s: Sys<C>, steps: seq<Step<C>>)
    requires Feasible(s, steps)
  {
    steps == [] || (Undisturbed(s, Front(steps)) && KeptApart(Run(s, Front(steps)), Last(steps)))
  }

  /** The configuration obtained by performing the logged changes one after the other. */
  function Replay<C>(base: C, log: seq<Event<C>>): C {
    if log == [] then base
    else
      match Last(log)
      case Reload(config, _) => config
      case Commit(_, _, mutator) => (match mutator(Replay(base, Front(log))) case Some(c) => c case None => Replay(base, Front(log)))
  }

  // ------------------------------------------------------------------ what every step keeps

  ghost predicate UpdaterOk<C>(s: Sys<C>) {
    match s.updater
    case Nobody => true
    case Locked(_) => !s.code.stop
    case Copied(_, copy, copyV, reloaded) =>
      !s.code.stop && copyV <= |s.log| && copy == ValueAt(s.base, s.log, copyV) && (copyV == |s.log| <==> !reloaded)
    case Mutated(mutator, snapshot, copyV, reloaded) =>
      !s.code.stop && copyV <= |s.log| && mutator(ValueAt(s.base, s.log, copyV)) == Some(snapshot) && (copyV == |s.log| <==> !reloaded)
    case Swapped(snapshot) => !s.code.stop && snapshot == s.code.current && NewestV(s) < |s.log|
  }

  /** Which log entry the newest of the pending, the in-flight and the persisted snapshot is. */
  function NewestV<C>(s: Sys<C>): nat {
    if s.code.pending.Some? then s.pendingV else if s.writer.Writing? then s.writingV else s.diskV
  }

  ghost predicate CopiesOk<C>(s: Sys<C>) {
    && s.diskV <= |s.log|
    && (!s.foreign ==> s.code.file.config == Some(ValueAt(s.base, s.log, s.diskV)))
    && (s.code.pending.Some? ==>
          s.diskV < s.pendingV <= |s.log| && s.code.pending.value == ValueAt(s.base, s.log, s.pendingV))
    && (s.writer.Writing? ==>
          && s.diskV < s.writingV <= |s.log| && s.writer.snapshot == ValueAt(s.base, s.log, s.writingV)
          && (s.code.pending.Some? ==> s.writingV < s.pendingV))
    && (!s.updater.Swapped? ==> NewestV(s) == |s.log|)
  }

  /** What the poller read is the newest there is exactly if the two observations it stands on still hold. */
  ghost predicate PollerOk<C>(s: Sys<C>) {
    && (!s.poller.Idle? ==> !s.code.stop)
    && (s.poller.HasRead? ==>
      && s.poller.readV <= |s.log|
      && (s.poller.readV == |s.log| <==> s.poller.settled && !s.poller.swapped)
      && (s.poller.settled && !s.poller.swapped ==> Settled(s) && s.diskV == |s.log|)
      && (s.poller.settled && !s.poller.swapped && !s.poller.edited ==> s.code.file.config == Some(s.poller.config)))
  }

  /** Every committed entry is its mutator's result on the entry it was based on. */
  ghost predicate CommitOk<C>(base: C, log: seq<Event<C>>, v: nat)
    requires v < |log|
  {
    var e := log[v];
    e.onV <= v && (e.Commit? ==> e.mutator(ValueAt(base, log, e.onV)) == Some(e.config))
  }

  ghost predicate Inv<C>(s: Sys<C>) {
    && s.code.current == ValueAt(s.base, s.log, |s.log|)
    && (forall v :: 0 <= v < |s.log| ==> CommitOk(s.base, s.log, v))
    && UpdaterOk(s) && CopiesOk(s) && PollerOk(s)
    && (s.writer.Exited? ==> s.code.stop && s.code.pending.None?)
  }

  /** A longer log has the same values where it had them. */
  lemma {:induction false} ValuesStay<C>(base: C, log: seq<Event<C>>, e: Event<C>)
    ensures forall v :: 0 <= v <= |log| ==> ValueAt(base, log + [e], v) == ValueAt(base, log, v)
    ensures forall v :: 0 <= v < |log| && CommitOk(base, log, v) ==> CommitOk(base, log + [e], v)
    ensures ValueAt(base, log + [e], |log| + 1) == e.config
  {
  }

  lemma {:induction false} UpdaterKeeps<C>(s: Sys<C>, step: Step<C>)
    requires Inv(s) && Enabled(s, step) && (step.LockStep? || step.CopyStep? || step.MutateStep?)
    ensures Inv(Apply(s, step))
  {
  }

  lemma {:induction false} SwapKeeps<C>(s: Sys<C>)
    requires Inv(s) && Enabled(s, SwapStep)
    ensures Inv(Apply(s, SwapStep))
  {
    ValuesStay(s.base, s.log, Commit(s.updater.snapshot, s.updater.copyV, s.updater.mutator));
  }

  lemma {:induction false} EnqueueKeeps<C>(s: Sys<C>)
    requires Inv(s) && Enabled(s, EnqueueStep)
    ensures Inv(Apply(s, EnqueueStep))
  {
  }

  lemma {:induction false} WriterKeeps<C>(s: Sys<C>, step: Step<C>)
    requires Inv(s) && Enabled(s, step) && (step.TakeStep? || step.ExitStep? || step.NoteStep? || step.StopStep?)
    ensures Inv(Apply(s, step))
  {
  }

  lemma {:induction false} WriteKeeps<C>(s: Sys<C>, mtime: nat)
    requires Inv(s) && Enabled(s, WriteStep(mtime))
    ensures Inv(Apply(s, WriteStep(mtime)))
  {
  }

  lemma {:induction false} EditKeeps<C>(s: Sys<C>, config: Option<C>, mtime: nat)
    requires Inv(s)
    ensures Inv(Apply(s, EditStep(config, mtime)))
  {
  }

  lemma {:induction false} PollKeeps<C>(s: Sys<C>, step: Step<C>)
    requires Inv(s) && Enabled(s, step) && (step.NoticeStep? || step.CompareStep? || step.ReadStep?)
    ensures Inv(Apply(s, step))
  {
  }

  lemma {:induction false} StoreKeeps<C>(s: Sys<C>)
    requires Inv(s) && Enabled(s, StoreStep) && KeptApart(s, StoreStep)
    ensures Inv(Apply(s, StoreStep))
  {
    ValuesStay(s.base, s.log, Reload(s.poller.config, s.poller.readV));
  }

  lemma {:induction false} StepKeepsInv<C>(s: Sys<C>, step: Step<C>)
    requires Inv(s) && Enabled(s, step) && (step.StoreStep? ==> KeptApart(s, step))
    ensures Inv(Apply(s, step))
  {
    match step
    case SwapStep => SwapKeeps(s);
    case EnqueueStep => EnqueueKeeps(s);
    case WriteStep(mtime) => WriteKeeps(s, mtime);
    case EditStep(config, mtime) => EditKeeps(s, config, mtime);
    case StoreStep => StoreKeeps(s);
    case LockStep(_) => UpdaterKeeps(s, step);
    case CopyStep => UpdaterKeeps(s, step);
    case MutateStep => UpdaterKeeps(s, step);
    case NoticeStep => PollKeeps(s, step);
    case CompareStep => PollKeeps(s, step);
    case ReadStep => PollKeeps(s, step);
    case StopStep => WriterKeeps(s, step);
    case TakeStep => WriterKeeps(s, step);
    case ExitStep => WriterKeeps(s, step);
    case NoteStep => WriterKeeps(s, step);
  }

  lemma {:induction false} RunKeepsInv<C>(config: C, mtime: nat, steps: seq<Step<C>>)
    requires Feasible(Init(config, mtime), steps) && Undisturbed(Init(config, mtime), steps)
    ensures Inv(Run(Init(config, mtime), steps)) && Run(Init(config, mtime), steps).base == config
  {
    if steps != [] {
      RunKeepsInv(config, mtime, Front(steps));
      StepKeepsInv(Run(Init(config, mtime), Front(steps)), Last(steps));
    }
  }

  // ------------------------------------------------------------------ exactly when a change is lost

  /** What a step publishes is based on the newest entry exactly if the two things were kept apart. */
  lemma {:induction false} StepIsLinearExactly<C>(s: Sys<C>, step: Step<C>)
    requires Inv(s) && Enabled(s, step) && Linear(s.log)
    ensures Linear(Apply(s, step).log) <==> KeptApart(s, step)
  {
    var t := Apply(s, step);
    if step.SwapStep? || step.StoreStep? {
      assert t.log == s.log + [Last(t.log)] && t.log[|s.log|] == Last(t.log);
      assert Last(t.log).onV == |s.log| <==> KeptApart(s, step);
      forall v | 0 <= v < |s.log| ensures t.log[v].onV == v { assert t.log[v] == s.log[v]; }
    }
  }

  lemma {:induction false} LogGrows<C>(s: Sys<C>, step: Step<C>)
    requires Enabled(s, step)
    ensures s.log <= Apply(s, step).log
  {
  }

  /**
   Over every interleaving: no published change is dropped by a later one, an update by a reload or the other way
   round, if and only if no update was published over a reload that came after its copy, and no poll published what it
   read while an older snapshot was on its way to the file or an update came in between.
   */
  lemma {:induction false} NothingIsDroppedExactly<C>(config: C, mtime: nat, steps: seq<Step<C>>)
    requires Feasible(Init(config, mtime), steps)
    ensures Linear(Run(Init(config, mtime), steps).log) <==> Undisturbed(Init(config, mtime), steps)
  {
    if steps != [] {
      NothingIsDroppedExactly(config, mtime, Front(steps));
      var s := Run(Init(config, mtime), Front(steps));
      if Undisturbed(Init(config, mtime), Front(steps)) {
        RunKeepsInv(config, mtime, Front(steps));
        StepIsLinearExactly(s, Last(steps));
      } else {
        LogGrows(s, Last(steps));
        var v :| 0 <= v < |s.log| && s.log[v].onV != v;
        assert Apply(s, Last(steps)).log[v] == s.log[v];
      }
    }
  }

  /** In a log without gaps the newest value is all changes performed one after the other. */
  lemma {:induction false} LinearReplays<C>(base: C, log: seq<Event<C>>)
    requires Linear(log) && forall v :: 0 <= v < |log| ==> CommitOk(base, log, v)
    ensures ValueAt(base, log, |log|) == Replay(base, log)
  {
    if log != [] {
      var front := Front(log);
      assert log == front + [Last(log)];
      forall v | 0 <= v < |front| ensures CommitOk(base, front, v) && front[v].onV == v {
        assert CommitOk(base, log, v) && front[v] == log[v];
        assert ValueAt(base, front, front[v].onV) == ValueAt(base, log, log[v].onV);
      }
      LinearReplays(base, front);
      assert CommitOk(base, log, |log| - 1) && log[|log| - 1].onV == |log| - 1;
      assert ValueAt(base, log, |log| - 1) == ValueAt(base, front, |front|);
    }
  }

  // ------------------------------------------------------------------ what an undisturbed run promises

  /** The newest of {pending, in flight, on disk}. */
  function Newest<C>(s: Sys<C>): Option<C> {
    if s.code.pending.Some? then s.code.pending
    else if s.writer.Writing? then Some(s.writer.snapshot)
    else s.code.file.config
  }

  /** No update is under way and the writer has nothing to do or in hand. */
  predicate Quiet<C>(s: Sys<C>) {
    s.updater.Nobody? && s.code.pending.None? && (s.writer.Waiting? || s.writer.Exited?)
  }

  lemma {:induction false} NoUpdateIsLost<C>(config: C, mtime: nat, steps: seq<Step<C>>)
    requires Feasible(Init(config, mtime), steps) && Undisturbed(Init(config, mtime), steps)
    ensures var s := Run(Init(config, mtime), steps);
            && s.code.current == Replay(config, s.log)
            && (!s.updater.Swapped? && (!s.foreign || s.code.pending.Some? || s.writer.Writing?) ==> Newest(s) == Some(s.code.current))
            && (Quiet(s) && !s.foreign ==> s.code.file.config == Some(s.code.current))
  {
    RunKeepsInv(config, mtime, steps);
    NothingIsDroppedExactly(config, mtime, steps);
    LinearReplays(config, Run(Init(config, mtime), steps).log);
  }

  /** What the store itself wrote is always the replay of a prefix of the log, and each write is of a longer one. */
  lemma {:induction false} DiskIsAPrefix<C>(config: C, mtime: nat, steps: seq<Step<C>>, step: Step<C>)
    requires Feasible(Init(config, mtime), steps) && Undisturbed(Init(config, mtime), steps)
    requires Enabled(Run(Init(config, mtime), steps), step)
    ensures var s := Run(Init(config, mtime), steps);
            && s.diskV <= |s.log|
            && (!s.foreign ==> s.code.file.config == Some(Replay(config, s.log[..s.diskV])))
            && s.diskV <= Apply(s, step).diskV
            && (step.WriteStep? ==> s.diskV < Apply(s, step).diskV)
  {
    RunKeepsInv(config, mtime, steps);
    NothingIsDroppedExactly(config, mtime, steps);
    var s := Run(Init(config, mtime), steps);
    PrefixReplays(config, s.log, s.diskV);
  }

  lemma {:induction false} PrefixReplays<C>(base: C, log: seq<Event<C>>, v: nat)
    requires v <= |log| && Linear(log) && forall w :: 0 <= w < |log| ==> CommitOk(base, log, w)
    ensures ValueAt(base, log, v) == Replay(base, log[..v])
    decreases |log|
  {
    if v == |log| {
      assert log[..v] == log;
      LinearReplays(base, log);
    } else {
      var front := Front(log);
      forall w | 0 <= w < |front| ensures CommitOk(base, front, w) && front[w].onV == w {
        assert CommitOk(base, log, w) && front[w] == log[w];
        assert ValueAt(base, front, front[w].onV) == ValueAt(base, log, log[w].onV);
      }
      PrefixReplays(base, front, v);
      assert front[..v] == log[..v];
    }
  }

  /** When the writer thread has exited, an unedited file holds the last published configuration. */
  lemma {:induction false} ExitedMeansPersisted<C>(config: C, mtime: nat, steps: seq<Step<C>>)
    requires Feasible(Init(config, mtime), steps) && Undisturbed(Init(config, mtime), steps)
    requires Run(Init(config, mtime), steps).writer.Exited?
    ensures var s := Run(Init(config, mtime), steps);
            s.updater.Nobody? && s.code.pending.None? && (!s.foreign ==> s.code.file.config == Some(s.code.current))
  {
    RunKeepsInv(config, mtime, steps);
  }

  /** The steps the writer still has to take once shutdown was requested. */
  function Remaining<C>(s: Sys<C>, mtime: nat): seq<Step<C>> {
    var rest := if s.code.pending.Some? then [TakeStep, WriteStep(mtime), NoteStep, ExitStep] else [ExitStep];
    match s.writer
    case Waiting => rest
    case Writing(_) => [WriteStep(mtime), NoteStep] + rest
    case Written => [NoteStep] + rest
    case Exited => []
  }

  ghost predicate Leads<C>(s: Sys<C>, steps: seq<Step<C>>, t: Sys<C>)
    decreases |steps|
  {
    if steps == [] then s == t else Enabled(s, steps[0]) && Leads(Apply(s, steps[0]), steps[1..], t)
  }

  /** From any reachable state in which shutdown was requested, the writer leaves its loop with everything persisted. */
  lemma {:induction false} ShutdownDrains<C>(s: Sys<C>, mtime: nat) returns (t: Sys<C>)
    requires Inv(s) && s.code.stop
    ensures Leads(s, Remaining(s, mtime), t)
    ensures t.writer.Exited? && t.code.current == s.code.current
    ensures !s.foreign || s.code.pending.Some? || s.writer.Writing? ==> t.code.file.config == Some(t.code.current)
    decreases |Remaining(s, mtime)|
  {
    var steps := Remaining(s, mtime);
    if steps == [] {
      t := s;
    } else {
      StepKeepsInv(s, steps[0]);
      var next := Apply(s, steps[0]);
      assert Remaining(next, mtime) == steps[1..];
      t := ShutdownDrains(next, mtime);
    }
  }

  // ------------------------------------------------------------------ what one update and one poll come to

  lemma {:induction false} LeadsOne<C>(s: Sys<C>, step: Step<C>, rest: seq<Step<C>>, t: Sys<C>)
    requires Enabled(s, step) && (if rest == [] then Apply(s, step) == t else Leads(Apply(s, step), rest, t))
    ensures Leads(s, [step] + rest, t)
  {
    assert ([step] + rest)[1..] == rest;
  }

  /** An update whose mutator throws ends where it began, the update mutex free again. */
  lemma {:induction false} ThrowingUpdateChangesNothing<C>(s: Sys<C>, m: Mutator<C>)
    requires s.updater.Nobody? && !s.code.stop && m(s.code.current).None?
    ensures Leads(s, [LockStep(m), CopyStep, MutateStep], s)
  {
    var locked := Apply(s, LockStep(m));
    var copied := Apply(locked, CopyStep);
    LeadsOne(copied, MutateStep, [], s);
    LeadsOne(locked, CopyStep, [MutateStep], s);
    LeadsOne(s, LockStep(m), [CopyStep, MutateStep], s);
  }

  /** The mutator that the thread holding the update mutex still has to apply or to publish. */
  function Under<C>(s: Sys<C>): Option<Mutator<C>> {
    match s.updater
    case Nobody => None
    case Locked(m) => Some(m)
    case Copied(m, _, _, _) => Some(m)
    case Mutated(m, _, _, _) => Some(m)
    case Swapped(_) => None
  }

  predicate UpdatersOwn<C>(steps: seq<Step<C>>) {
    forall i :: 0 <= i < |steps| ==> steps[i].CopyStep? || steps[i].MutateStep? || steps[i].SwapStep? || steps[i].EnqueueStep?
  }

  /** The log has one entry more: the result of this mutator on the configuration it was based on, published and pending. */
  ghost predicate Committed<C>(s: Sys<C>, t: Sys<C>, m: Mutator<C>) {
    && t.log != [] && Front(t.log) == s.log && Last(t.log).Commit? && Last(t.log).mutator == m
    && Last(t.log).onV <= |s.log| && m(ValueAt(s.base, s.log, Last(t.log).onV)) == Some(Last(t.log).config)
    && t.code == s.code.(current := Last(t.log).config, pending := Some(Last(t.log).config))
  }

  ghost predicate Outcome<C>(s: Sys<C>, t: Sys<C>) {
    && t.updater.Nobody? && t.writer == s.writer
    && if s.updater.Swapped? then t.log == s.log && t.code == s.code.(pending := Some(s.code.current))
       else (t.log == s.log && t.code == s.code) || (Under(s).Some? && Committed(s, t, Under(s).value))
  }

  lemma {:induction false} Enqueues<C>(s: Sys<C>) returns (t: Sys<C>)
    requires Inv(s) && s.updater.Swapped?
    ensures Leads(s, [EnqueueStep], t) && Outcome(s, t) && t.log == s.log
  {
    t := Apply(s, EnqueueStep);
    LeadsOne(s, EnqueueStep, [], t);
  }

  lemma {:induction false} Publishes<C>(s: Sys<C>) returns (t: Sys<C>)
    requires Inv(s) && s.updater.Mutated?
    ensures Leads(s, [SwapStep, EnqueueStep], t) && Outcome(s, t)
  {
    SwapKeeps(s);
    t := Enqueues(Apply(s, SwapStep));
    LeadsOne(s, SwapStep, [EnqueueStep], t);
    assert Front(t.log) == s.log;
  }

  lemma {:induction false} Mutates<C>(s: Sys<C>) returns (steps: seq<Step<C>>, t: Sys<C>)
    requires Inv(s) && s.updater.Copied?
    ensures |steps| <= 3 && UpdatersOwn(steps) && Leads(s, steps, t) && Outcome(s, t)
    ensures s.updater.mutator(s.updater.copy).None? <==> t.log == s.log
  {
    UpdaterKeeps(s, MutateStep);
    var next := Apply(s, MutateStep);
    if next.updater.Mutated? {
      t := Publishes(next);
      LeadsOne(s, MutateStep, [SwapStep, EnqueueStep], t);
      steps := [MutateStep] + [SwapStep, EnqueueStep];
    } else {
      t := next;
      LeadsOne(s, MutateStep, [], t);
      steps := [MutateStep] + [];
    }
  }

  /**
   Whatever it holds, the updating thread gives the mutex back within four steps of its own; on the way it publishes its
   change once if the mutator accepts the copy, and leaves object and file alone if not.
   */
  lemma {:induction false} UpdaterFinishes<C>(s: Sys<C>) returns (steps: seq<Step<C>>, t: Sys<C>)
    requires Inv(s)
    ensures |steps| <= 4 && UpdatersOwn(steps) && Leads(s, steps, t) && Outcome(s, t)
    ensures s.updater.Locked? ==> (s.updater.mutator(s.code.current).Some? <==> Under(s).Some? && Committed(s, t, Under(s).value))
  {
    match s.updater {
      case Nobody => steps, t := [], s;
      case Swapped(_) => t := Enqueues(s); steps := [EnqueueStep];
      case Mutated(_, _, _, _) => t := Publishes(s); steps := [SwapStep, EnqueueStep];
      case Copied(_, _, _, _) => steps, t := Mutates(s);
      case Locked(_) =>
        UpdaterKeeps(s, CopyStep);
        var rest;
        rest, t := Mutates(Apply(s, CopyStep));
        LeadsOne(s, CopyStep, rest, t);
        steps := [CopyStep] + rest;
    }
  }

  /** The poll's own steps, when nothing comes between them. */
  function WholePoll<C>(s: Sys<C>): seq<Step<C>> {
    if s.code.file.mtime == s.code.lastMtime then [NoticeStep, CompareStep]
    else if s.code.file.config.None? then [NoticeStep, CompareStep, ReadStep]
    else [NoticeStep, CompareStep, ReadStep, StoreStep]
  }

  /** A poll of a file whose time is known, or that does not parse, changes nothing; any other publishes what the file says. */
  lemma {:induction false} PollAlone<C>(s: Sys<C>) returns (t: Sys<C>)
    requires s.poller.Idle? && !s.code.stop
    ensures Leads(s, WholePoll(s), t) && t.poller.Idle?
    ensures s.code.file.mtime == s.code.lastMtime || s.code.file.config.None? ==> t == s
    ensures s.code.file.mtime != s.code.lastMtime && s.code.file.config.Some? ==>
              t.code == s.code.(current := s.code.file.config.value, lastMtime := s.code.file.mtime)
  {
    var noticed := Apply(s, NoticeStep);
    var compared := Apply(noticed, CompareStep);
    t := compared;
    if compared.poller.Differs? {
      var read := Apply(compared, ReadStep);
      t := read;
      if read.poller.HasRead? {
        t := Apply(read, StoreStep);
        LeadsOne(read, StoreStep, [], t);
        LeadsOne(compared, ReadStep, [StoreStep], t);
        LeadsOne(noticed, CompareStep, [ReadStep, StoreStep], t);
        LeadsOne(s, NoticeStep, [CompareStep, ReadStep, StoreStep], t);
      } else {
        LeadsOne(compared, ReadStep, [], t);
        LeadsOne(noticed, CompareStep, [ReadStep], t);
        LeadsOne(s, NoticeStep, [CompareStep, ReadStep], t);
      }
    } else {
      LeadsOne(noticed, CompareStep, [], t);
      LeadsOne(s, NoticeStep, [CompareStep], t);
    }
  }

  /** A poll under way ends within three steps of its own, and publishes at most what it has read. */
  lemma {:induction false} PollerFinishes<C>(s: Sys<C>) returns (steps: seq<Step<C>>, t: Sys<C>)
    requires Inv(s)
    ensures |steps| <= 3 && Leads(s, steps, t) && t.poller.Idle? && t.writer == s.writer
    ensures t.code == s.code || (t.log != [] && Last(t.log).Reload? && Front(t.log) == s.log
                                 && t.code == s.code.(current := Last(t.log).config, lastMtime := t.code.lastMtime))
  {
    steps, t := [], s;
    if s.poller.Noticed? {
      steps, t := FromNoticed(s);
    } else if s.poller.Differs? {
      steps, t := FromDiffers(s);
    } else if s.poller.HasRead? {
      t := Apply(s, StoreStep);
      LeadsOne(s, StoreStep, [], t);
      steps := [StoreStep] + [];
    }
  }

  lemma {:induction false} FromDiffers<C>(s: Sys<C>) returns (steps: seq<Step<C>>, t: Sys<C>)
    requires s.poller.Differs?
    ensures |steps| <= 2 && Leads(s, steps, t) && t.poller.Idle? && t.writer == s.writer
    ensures t.code == s.code || (t.log != [] && Last(t.log).Reload? && Front(t.log) == s.log
                                 && t.code == s.code.(current := Last(t.log).config, lastMtime := t.code.lastMtime))
  {
    var read := Apply(s, ReadStep);
    if read.poller.HasRead? {
      t := Apply(read, StoreStep);
      LeadsOne(read, StoreStep, [], t);
      LeadsOne(s, ReadStep, [StoreStep] + [], t);
      steps := [ReadStep] + ([StoreStep] + []);
    } else {
      t := read;
      LeadsOne(s, ReadStep, [], t);
      steps := [ReadStep] + [];
    }
  }

  lemma {:induction false} FromNoticed<C>(s: Sys<C>) returns (steps: seq<Step<C>>, t: Sys<C>)
    requires s.poller.Noticed?
    ensures |steps| <= 3 && Leads(s, steps, t) && t.poller.Idle? && t.writer == s.writer
    ensures t.code == s.code || (t.log != [] && Last(t.log).Reload? && Front(t.log) == s.log
                                 && t.code == s.code.(current := Last(t.log).config, lastMtime := t.code.lastMtime))
  {
    var compared := Apply(s, CompareStep);
    if compared.poller.Differs? {
      var rest;
      rest, t := FromDiffers(compared);
      LeadsOne(s, CompareStep, rest, t);
      steps := [CompareStep] + rest;
    } else {
      t := compared;
      LeadsOne(s, CompareStep, [], t);
      steps := [CompareStep] + [];
    }
  }

  /** The steps the writer has to take until it has nothing more to do. */
  function CatchingUp<C>(s: Sys<C>, mtime: nat): seq<Step<C>> {
    var rest := if s.code.pending.Some? then [TakeStep, WriteStep(mtime), NoteStep] else [];
    match s.writer
    case Waiting => rest
    case Writing(_) => [WriteStep(mtime), NoteStep] + rest
    case Written => [NoteStep] + rest
    case Exited => []
  }

  /** From every invariant state the writer's own steps bring the file up to what is published, but for an update not yet enqueued. */
  lemma {:induction false} WriterCatchesUp<C>(s: Sys<C>, mtime: nat) returns (t: Sys<C>)
    requires Inv(s) && !s.writer.Exited?
    ensures Leads(s, CatchingUp(s, mtime), t) && CaughtUp(s, t)
    decreases |CatchingUp(s, mtime)|
  {
    var steps := CatchingUp(s, mtime);
    if steps == [] {
      t := s;
    } else {
      StepKeepsInv(s, steps[0]);
      var next := Apply(s, steps[0]);
      t := WriterCatchesUp(next, mtime);
      CaughtUpBefore(s, mtime, next, t);
    }
  }

  ghost predicate CaughtUp<C>(s: Sys<C>, t: Sys<C>) {
    && t.writer.Waiting? && t.code.pending.None? && t.code.current == s.code.current
    && (!s.updater.Swapped? && (!s.foreign || s.code.pending.Some? || s.writer.Writing?) ==> t.code.file.config == Some(t.code.current))
    && (s.code.pending.Some? || !s.writer.Waiting? ==> t.code.lastMtime == t.code.file.mtime)
    && (s.code.pending.None? && s.writer.Waiting? ==> t == s)
    && (s.code.pending.None? && !s.writer.Writing? ==> t.code.file == s.code.file)
  }

  lemma {:induction false} CaughtUpBefore<C>(s: Sys<C>, mtime: nat, next: Sys<C>, t: Sys<C>)
    requires Inv(s) && !s.writer.Exited? && CatchingUp(s, mtime) != []
    requires Enabled(s, CatchingUp(s, mtime)[0]) && next == Apply(s, CatchingUp(s, mtime)[0]) && CaughtUp(next, t)
    ensures CaughtUp(s, t) && CatchingUp(next, mtime) == CatchingUp(s, mtime)[1..]
  {
  }

  // ------------------------------------------------------------------ three ways to lose a change

  lemma {:induction false} OneMore<C>(s: Sys<C>, steps: seq<Step<C>>, step: Step<C>)
    requires Feasible(s, steps) && Enabled(Run(s, steps), step)
    ensures Feasible(s, steps + [step]) && Run(s, steps + [step]) == Apply(Run(s, steps), step)
  {
    assert Front(steps + [step]) == steps;
  }

  /** One whole update. */
  function WholeUpdate<C>(m: Mutator<C>): seq<Step<C>> {
    [LockStep(m)] + [CopyStep] + [MutateStep] + [SwapStep] + [EnqueueStep]
  }

  lemma {:induction false} UpdateRuns<C>(s: Sys<C>, steps: seq<Step<C>>, m: Mutator<C>) returns (all: seq<Step<C>>)
    requires Feasible(s, steps)
    requires var r := Run(s, steps); r.updater.Nobody? && !r.code.stop && m(r.code.current).Some?
    ensures all == steps + WholeUpdate(m) && Feasible(s, all)
    ensures var r := Run(s, steps); var c := m(r.code.current).value;
            Run(s, all) == r.(code := r.code.(current := c, pending := Some(c)), log := r.log + [Commit(c, |r.log|, m)], pendingV := |r.log| + 1,
                              poller := if r.poller.HasRead? then r.poller.(swapped := true) else r.poller)
  {
    OneMore(s, steps, LockStep(m));
    all := steps + [LockStep(m)];
    OneMore(s, all, CopyStep);
    all := all + [CopyStep];
    OneMore(s, all, MutateStep);
    all := all + [MutateStep];
    OneMore(s, all, SwapStep);
    all := all + [SwapStep];
    OneMore(s, all, EnqueueStep);
    all := all + [EnqueueStep];
    assert all == steps + WholeUpdate(m);
  }

  /** The first three sections of a poll, when there is something to see. */
  lemma {:induction false} ReadRuns<C>(s: Sys<C>, steps: seq<Step<C>>) returns (all: seq<Step<C>>)
    requires Feasible(s, steps)
    requires var r := Run(s, steps); r.poller.Idle? && !r.code.stop && r.code.file.mtime != r.code.lastMtime && r.code.file.config.Some?
    ensures Feasible(s, all)
    ensures var r := Run(s, steps);
            Run(s, all) == r.(poller := HasRead(r.code.file.mtime, r.code.file.config.value, r.diskV, Settled(r), false, false))
  {
    OneMore(s, steps, NoticeStep);
    all := steps + [NoticeStep];
    OneMore(s, all, CompareStep);
    all := all + [CompareStep];
    OneMore(s, all, ReadStep);
    all := all + [ReadStep];
  }

  /** The writer takes what is pending and writes it. */
  lemma {:induction false} WriteRuns<C>(s: Sys<C>, steps: seq<Step<C>>, mtime: nat) returns (all: seq<Step<C>>)
    requires Feasible(s, steps)
    requires var r := Run(s, steps); r.writer.Waiting? && r.code.pending.Some?
    ensures all == steps + [TakeStep] + [WriteStep(mtime)] && Feasible(s, all)
    ensures var r := Run(s, steps);
            Run(s, all) == r.(code := r.code.(pending := None, file := File(r.code.pending, mtime)), writer := Written,
                              writingV := r.pendingV, diskV := r.pendingV, foreign := false, handmade := false)
  {
    OneMore(s, steps, TakeStep);
    all := steps + [TakeStep];
    OneMore(s, all, WriteStep(mtime));
    all := all + [WriteStep(mtime)];
  }

  /** An update, written under time 1, its time not yet noted. */
  lemma {:induction false} WrittenRuns(m: Mutator<int>) returns (all: seq<Step<int>>)
    requires m(0) == Some(1)
    ensures Feasible(Init(0, 0), all)
    ensures Run(Init(0, 0), all) == Sys(Code(1, None, false, 0, File(Some(1), 1)), Nobody, Written, Idle, 0, [Commit(1, 0, m)], 1, 1, 1, false, false)
  {
    var s := Init(0, 0);
    all := UpdateRuns(s, [], m);
    all := WriteRuns(s, all, 1);
  }

  /** A poll that reads an older own write, because its time was not noted yet, reverts the newer update. */
  lemma {:induction false} PollRevertsPendingUpdate() returns (all: seq<Step<int>>)
    ensures Feasible(Init(0, 0), all)
    ensures var s := Run(Init(0, 0), all); s.code.current == 1 && |s.log| == 3 && s.log[1].config == 2 && !Linear(s.log)
  {
    var s := Init(0, 0);
    var increment: Mutator<int> := x => Some(x + 1);
    all := WrittenRuns(increment);
    all := UpdateRuns(s, all, increment);
    all := ReadRuns(s, all);
    OneMore(s, all, StoreStep);
    all := all + [StoreStep];
    assert Run(s, all).log[2].onV == 1;
  }

  /** A poll that read what was newest then, and publishes it after the next update, reverts that one too. */
  lemma {:induction false} PollRevertsLaterUpdate() returns (all: seq<Step<int>>)
    ensures Feasible(Init(0, 0), all)
    ensures var s := Run(Init(0, 0), all); s.code.current == 1 && |s.log| == 3 && s.log[1].config == 2 && !Linear(s.log)
  {
    var s := Init(0, 0);
    var increment: Mutator<int> := x => Some(x + 1);
    all := WrittenRuns(increment);
    all := ReadRuns(s, all);
    OneMore(s, all, NoteStep);
    all := all + [NoteStep];
    all := UpdateRuns(s, all, increment);
    OneMore(s, all, StoreStep);
    all := all + [StoreStep];
    assert Run(s, all).log[2].onV == 1;
  }

  /** An edit, and then an update that has its copy. */
  lemma {:induction false} CopiedAfterEdit(m: Mutator<int>) returns (all: seq<Step<int>>)
    ensures Feasible(Init(0, 0), all)
    ensures Run(Init(0, 0), all) == Sys(Code(0, None, false, 0, File(Some(7), 5)), Copied(m, 0, 0, false), Waiting, Idle, 0, [], 0, 0, 0, true, true)
  {
    var s := Init(0, 0);
    OneMore(s, [], EditStep(Some(7), 5));
    all := [] + [EditStep(Some(7), 5)];
    OneMore(s, all, LockStep(m));
    all := all + [LockStep(m)];
    OneMore(s, all, CopyStep);
    all := all + [CopyStep];
  }

  /** An update that copied the configuration before a reload reverts the edit that was reloaded. */
  lemma {:induction false} UpdateRevertsReload() returns (all: seq<Step<int>>)
    ensures Feasible(Init(0, 0), all)
    ensures var s := Run(Init(0, 0), all); s.code.current == 1 && |s.log| == 2 && s.log[0].config == 7 && !Linear(s.log)
  {
    var s := Init(0, 0);
    all := CopiedAfterEdit(x => Some(x + 1));
    all := ReadRuns(s, all);
    OneMore(s, all, StoreStep);
    all := all + [StoreStep];
    OneMore(s, all, MutateStep);
    all := all + [MutateStep];
    OneMore(s, all, SwapStep);
    all := all + [SwapStep];
    assert Run(s, all).log[1].onV == 0;
  }

  // ------------------------------------------------------------------ edits by hand

  /** Nobody edits the file and no poll begins; one that is under way may go on. */
  predicate NoNewPollNoEdit<C>(steps: seq<Step<C>>) {
    forall i :: 0 <= i < |steps| ==> !steps[i].EditStep? && !steps[i].NoticeStep?
  }

  predicate Writes<C>(steps: seq<Step<C>>) {
    exists i :: 0 <= i < |steps| && steps[i].WriteStep?
  }

  /**
   The time that the store knows after these steps, of which none writes the file: the edit's own if the writer has
   noted it last, the time noticed by the poll under way if that has published last, and else the time known before.
   */
  function KnownAfter<C>(known: nat, noticed: nat, edit: nat, steps: seq<Step<C>>): nat {
    if steps == [] then known
    else if Last(steps).NoteStep? then edit
    else if Last(steps).StoreStep? then noticed
    else KnownAfter(known, noticed, edit, Front(steps))
  }

  /** The time that the poll under way has noticed. */
  function Noticing<C>(s: Sys<C>): nat {
    if s.poller.Idle? then 0 else s.poller.mtime
  }

  /** What the first three sections of a poll see, with no other thread in between: the edit, still there and noticed. */
  ghost predicate NextPollReads<C>(s: Sys<C>, config: C)
    requires s.poller.Idle? && !s.code.stop
  {
    var differs := Apply(Apply(s, NoticeStep), CompareStep);
    s.handmade && differs.poller.Differs? && var read := Apply(differs, ReadStep).poller; read.HasRead? && read.config == config
  }

  /** Whether the edit is still in the file, and whether its time still stands out. */
  ghost predicate EditStands<C>(s: Sys<C>, config: C, mtime: nat, noticed: nat, written: bool, known: nat) {
    && (!s.poller.Idle? ==> s.poller.mtime == noticed)
    && (s.handmade <==> !written)
    && (!written ==> s.code.file == File(Some(config), mtime) && s.code.lastMtime == known)
  }

  lemma {:induction false} EditStandsAfter<C>(s: Sys<C>, step: Step<C>, config: C, mtime: nat, noticed: nat, written: bool, known: nat)
    requires Enabled(s, step) && !step.EditStep? && !step.NoticeStep? && EditStands(s, config, mtime, noticed, written, known)
    ensures EditStands(Apply(s, step), config, mtime, noticed, written || step.WriteStep?,
                       if step.NoteStep? then mtime else if step.StoreStep? then noticed else known)
  {
  }

  lemma {:induction false} EditFate<C>(t: Sys<C>, steps: seq<Step<C>>, config: C, mtime: nat, noticed: nat, known: nat)
    requires Feasible(t, steps) && NoNewPollNoEdit(steps) && EditStands(t, config, mtime, noticed, false, known)
    ensures EditStands(Run(t, steps), config, mtime, noticed, Writes(steps), KnownAfter(known, noticed, mtime, steps))
  {
    if steps != [] {
      var front, step := Front(steps), Last(steps);
      assert forall i :: 0 <= i < |front| ==> front[i] == steps[i];
      assert NoNewPollNoEdit(front) && step == steps[|steps| - 1];
      EditFate(t, front, config, mtime, noticed, known);
      EditStandsAfter(Run(t, front), step, config, mtime, noticed, Writes(front), KnownAfter(known, noticed, mtime, front));
      Grows(steps);
    }
  }

  lemma {:induction false} Grows<C>(steps: seq<Step<C>>)
    requires steps != []
    ensures Writes(steps) <==> Writes(Front(steps)) || Last(steps).WriteStep?
  {
    if Writes(Front(steps)) {
      var i :| 0 <= i < |Front(steps)| && Front(steps)[i].WriteStep?;
      assert steps[i].WriteStep?;
    }
    if Writes(steps) {
      var i :| 0 <= i < |steps| && steps[i].WriteStep?;
      assert i < |steps| - 1 ==> Front(steps)[i] == steps[i];
    }
  }

  /**
   Whatever is under way when the file is edited: the next poll to begin reads the edit if and only if, until then, the
   writer did not write the file and the time last known, by a note of the writer or by the poll that was under way,
   is not the edit's.
   */
  lemma {:induction false} EditIsReloadedExactly<C>(s: Sys<C>, config: C, mtime: nat, steps: seq<Step<C>>)
    requires Feasible(Apply(s, EditStep(Some(config), mtime)), steps) && NoNewPollNoEdit(steps)
    requires var t := Run(Apply(s, EditStep(Some(config), mtime)), steps); t.poller.Idle? && !t.code.stop
    ensures NextPollReads(Run(Apply(s, EditStep(Some(config), mtime)), steps), config)
       <==> !Writes(steps) && KnownAfter(s.code.lastMtime, Noticing(s), mtime, steps) != mtime
  {
    EditFate(Apply(s, EditStep(Some(config), mtime)), steps, config, mtime, Noticing(s), s.code.lastMtime);
  }

  /** The poll under way itself reads the edit if it had not read before and the writer did not write in between. */
  lemma {:induction false} PollUnderWayReads<C>(s: Sys<C>, config: C, mtime: nat, steps: seq<Step<C>>)
    requires Feasible(Apply(s, EditStep(Some(config), mtime)), steps) && NoNewPollNoEdit(steps)
    requires Enabled(Run(Apply(s, EditStep(Some(config), mtime)), steps), ReadStep)
    ensures var t := Run(Apply(s, EditStep(Some(config), mtime)), steps);
            && (t.handmade <==> !Writes(steps))
            && (t.handmade ==> Apply(t, ReadStep).poller.HasRead? && Apply(t, ReadStep).poller.config == config)
  {
    EditFate(Apply(s, EditStep(Some(config), mtime)), steps, config, mtime, Noticing(s), s.code.lastMtime);
  }

  /** An edit made while nothing was under way, overwritten by the next update before any poll came by. */
  lemma {:induction false} EditIsOverwritten() returns (all: seq<Step<int>>)
    ensures var t := Apply(Init(0, 0), EditStep(Some(7), 5));
            && Feasible(t, all) && NoNewPollNoEdit(all)
            && var s := Run(t, all); Quiet(s) && s.code.file.config == Some(1) && s.code.file.mtime == s.code.lastMtime
  {
    var t := Apply(Init(0, 0), EditStep(Some(7), 5));
    var increment: Mutator<int> := x => Some(x + 1);
    all := UpdateRuns(t, [], increment);
    all := WriteRuns(t, all, 6);
    OneMore(t, all, NoteStep);
    all := all + [NoteStep];
    OwnSteps(increment, 6);
  }

  lemma {:induction false} OwnSteps<C>(m: Mutator<C>, mtime: nat)
    ensures NoNewPollNoEdit([] + WholeUpdate(m) + [TakeStep] + [WriteStep(mtime)] + [NoteStep])
  {
  }

  /** A second edit in the tick of the first, under a poll that has read the first: taken for the one that was read. */
  lemma {:induction false} EditIsTakenForEarlier() returns (all: seq<Step<int>>)
    ensures Feasible(Init(0, 0), all)
    ensures var s := Run(Init(0, 0), all); Quiet(s) && s.code.current == 7 && s.code.file.config == Some(8) && s.foreign && Unseen(s)
  {
    var s := Init(0, 0);
    OneMore(s, [], EditStep(Some(7), 5));
    all := [] + [EditStep(Some(7), 5)];
    all := ReadRuns(s, all);
    OneMore(s, all, EditStep(Some(8), 5));
    all := all + [EditStep(Some(8), 5)];
    OneMore(s, all, StoreStep);
    all := all + [StoreStep];
  }

  /** An edit made between the writer's write and its note of the time, taken for the writer's own. */
  lemma {:induction false} EditIsTakenForOwn() returns (all: seq<Step<int>>)
    ensures Feasible(Init(0, 0), all)
    ensures var s := Run(Init(0, 0), all); Quiet(s) && s.code.current == 1 && s.code.file.config == Some(7) && Unseen(s)
  {
    var s := Init(0, 0);
    var increment: Mutator<int> := x => Some(x + 1);
    all := WrittenRuns(increment);
    OneMore(s, all, EditStep(Some(7), 5));
    all := all + [EditStep(Some(7), 5)];
    OneMore(s, all, NoteStep);
    all := all + [NoteStep];
  }

  /** If the file is somebody else's, its time is already known. */
  ghost predicate Unseen<C>(s: Sys<C>) {
    && (s.poller.HasRead? ==> !s.poller.edited)
    && (s.foreign ==>
          && s.code.file.mtime == s.code.lastMtime && !s.writer.Written?
          && (s.poller.Idle? || (s.poller.Noticed? && s.poller.mtime == s.code.lastMtime)))
  }

  /** Such an edit is never read, by any poll in any run, as long as nobody edits the file again. */
  lemma {:induction false} UnseenForGood<C>(s: Sys<C>, steps: seq<Step<C>>)
    requires s.foreign && Unseen(s) && Feasible(s, steps)
    requires forall i :: 0 <= i < |steps| ==> !steps[i].EditStep?
    ensures Unseen(Run(s, steps))
    ensures Run(s, steps).foreign ==> Run(s, steps).code.file == s.code.file && !Enabled(Run(s, steps), ReadStep)
  {
    if steps != [] {
      assert forall i :: 0 <= i < |Front(steps)| ==> Front(steps)[i] == steps[i];
      UnseenForGood(s, Front(steps));
      assert Last(steps) == steps[|steps| - 1];
    }
  }
}
