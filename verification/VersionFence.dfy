/** The version fence around a session's record, and the writers that go around it.

A snapshot of the worker carries the version read before it was taken. Persisting it runs in the
session's persist lane, one task at a time in order, and writes only while the record is still held
and the version is still current. A finalization raises the version before its own write; a
terminal write raises it again when it ends, and a deletion raises it when it begins. Other writers
of the record carry no version: a stop writes only while the record is held; a failed finalization
only looks for the session's worker, which recovery can enter again after a deletion has taken it
away; the start operation, recovery itself, the cleanup of a conversation and the end of a wait
write without any check.
 */
module VersionFence {
  import opened Options

  /** Whether a write raises the version when it ends: a terminal finalization always does, the record
      of a failed finalization only once it is stored. */
  datatype Closing = Never | Always | OnceStored

  /** A queued write with the version it carries, or a deletion. */
  datatype Task = Write(version: nat, closing: Closing) | Delete

  /** Who writes without a version. */
  datatype Writer = Stop | FailedFinalization | StartOperation | Recovery | ConversationCleanup | WaitEnd

  datatype Event =
    | Began(version: nat)
    | Wrote(version: nat)
    | WroteAround(writer: Writer)
    | Raised(to: nat, inLane: bool)
    | Deleted

  /** `held` is whether the daemon still has the record, `attached` whether the session's worker is in
      its table, `stored` whether the session is on disk. */
  datatype State = State(version: nat, held: bool, attached: bool, stored: bool,
                         queue: seq<Task>, running: Option<Task>, log: seq<Event>)

  const Fresh := State(0, true, false, true, [], None, [])

  datatype Step =
    | Queue(task: Task)           // from any version read so far
    | Raise                       // a finalization begins
    | Begin                       // the lane takes its next task
    | End(ok: bool)               // the task's storage call succeeds or fails
    | Attach                      // the start operation or recovery enters the worker
    | Detach                      // the worker has ended
    | WriteAround(writer: Writer)

  ghost predicate Enabled(s: State, step: Step) {
    match step
    case Queue(task) => task.Write? ==> task.version <= s.version
    case Raise => true
    case Begin => s.running.None? && s.queue != []
    case End(_) => s.running.Some?
    case Attach => true
    case Detach => s.attached
    case WriteAround(writer) =>
      // A deletion holds the mutation lane, in which these three are run.
      (match writer
       case Stop => s.held && s.attached && s.running != Some(Delete)
       case FailedFinalization => (s.attached || Writing(s)) && s.running != Some(Delete)
       case ConversationCleanup => s.running != Some(Delete)
       case _ => true)
  }

  /** A write that carries a version is in flight; its own failure is recorded as well. */
  predicate Writing(s: State) {
    s.running.Some? && s.running.value.Write?
  }

  function Apply(s: State, step: Step): State {
    match step
    case Queue(task) => s.(queue := s.queue + [task])
    case Raise => s.(version := s.version + 1, log := s.log + [Raised(s.version + 1, false)])
    case Begin =>
      if s.queue == [] then s
      else
        var t := s.(queue := s.queue[1..]);
        (match s.queue[0]
         case Write(v, _) =>
           if !s.held || v != s.version then t
           else t.(running := Some(s.queue[0]), log := s.log + [Began(v)])
         case Delete =>
           if !s.held then t
           else
             t.(running := Some(Delete), attached := false, version := s.version + 1,
                log := s.log + [Raised(s.version + 1, true)]))
    case End(ok) =>
      (match s.running
       case None => s
       case Some(Delete) =>
         if ok then s.(running := None, held := false, stored := false, log := s.log + [Deleted])
         else s.(running := None)
       case Some(Write(v, closing)) =>
         var t := if ok then s.(stored := true, log := s.log + [Wrote(v)]) else s;
         if closing.Always? || (closing.OnceStored? && ok)
         then t.(running := None, version := s.version + 1, log := t.log + [Raised(s.version + 1, true)])
         else t.(running := None))
    case Attach => s.(attached := true)
    case Detach => s.(attached := false)
    case WriteAround(writer) => s.(stored := true, log := s.log + [WroteAround(writer)])
  }

  ghost predicate IsRun(run: seq<State>) {
    && run != [] && run[0] == Fresh
    && forall i | 0 <= i < |run| - 1 :: Next(run[i], run[i + 1])
  }

  ghost predicate Next(s: State, t: State) {
    exists step :: Enabled(s, step) && t == Apply(s, step)
  }

  // ----- What may follow what -----

  /** `later` may come after `earlier`. */
  predicate MayFollow(earlier: Event, later: Event) {
    match later
    case Began(v) =>
      && !earlier.Deleted? && (earlier.Raised? ==> earlier.to <= v) && (earlier.Wrote? ==> earlier.version <= v)
    case Wrote(v) =>
      && !earlier.Deleted? && (earlier.Raised? && earlier.inLane ==> earlier.to <= v)
      && (earlier.Wrote? ==> earlier.version <= v)
    case WroteAround(writer) => writer.Stop? ==> !earlier.Deleted?
    case Raised(v, _) => earlier.Raised? ==> earlier.to < v
    case Deleted => true
  }

  ghost predicate Fenced(log: seq<Event>) {
    forall i, j | 0 <= i < j < |log| :: MayFollow(log[i], log[j])
  }

  ghost predicate Inv(s: State) {
    && Fenced(s.log)
    && (forall e | e in s.log ::
          && (e.Raised? ==> e.to <= s.version) && (e.Wrote? ==> e.version <= s.version)
          && (e.Deleted? ==> !s.held))
    && (!s.held ==> Deleted in s.log)
    && (s.running.Some? ==> s.held)
    && (s.running.Some? && s.running.value.Write? ==>
          var v := s.running.value.version;
          && v <= s.version
          && forall e | e in s.log :: (e.Raised? && e.inLane ==> e.to <= v) && (e.Wrote? ==> e.version <= v))
  }

  lemma FencedGrows(log: seq<Event>, e: Event)
    requires Fenced(log) && forall earlier | earlier in log :: MayFollow(earlier, e)
    ensures Fenced(log + [e])
  {
  }

  lemma StepKeepsInv(s: State, step: Step)
    requires Inv(s) && Enabled(s, step)
    ensures Inv(Apply(s, step))
  {
    hide Fenced;
    match step
    case Queue(task) =>
    case Raise => FencedGrows(s.log, Raised(s.version + 1, false));
    case Begin =>
      if s.queue != [] && s.held {
        if s.queue[0].Delete? {
          FencedGrows(s.log, Raised(s.version + 1, true));
        } else if s.queue[0].version == s.version {
          FencedGrows(s.log, Began(s.version));
        }
      }
    case End(ok) => EndKeeps(s, ok);
    case Attach =>
    case Detach =>
    case WriteAround(writer) => FencedGrows(s.log, WroteAround(writer));
  }

  lemma EndKeeps(s: State, ok: bool)
    requires Inv(s) && s.running.Some?
    ensures Inv(Apply(s, End(ok)))
  {
    hide Fenced;
    match s.running.value
    case Delete => if ok { FencedGrows(s.log, Deleted); }
    case Write(v, closing) =>
      var log := if ok then s.log + [Wrote(v)] else s.log;
      if ok { FencedGrows(s.log, Wrote(v)); }
      assert forall e | e in log :: e in s.log || e == Wrote(v);
      if closing.Always? || (closing.OnceStored? && ok) { FencedGrows(log, Raised(s.version + 1, true)); }
  }

  lemma {:induction false} RunKeepsInv(run: seq<State>, n: nat)
    requires IsRun(run) && n < |run|
    ensures Inv(run[n])
  {
    if n > 0 {
      RunKeepsInv(run, n - 1);
      assert Next(run[n - 1], run[n]);
      var step :| Enabled(run[n - 1], step) && run[n] == Apply(run[n - 1], step);
      hide Inv, Enabled, Apply;
      StepKeepsInv(run[n - 1], step);
    }
  }

  /** In every schedule, for the writes that carry a version: none begins with a version read before
      any raise; after a terminal write or the start of a deletion nothing older is written; after a
      deletion none is written at all; and they land in the order of their versions. */
  lemma StaleSnapshotsPersistNothing(run: seq<State>, n: nat, i: nat, j: nat)
    requires IsRun(run) && n < |run| && i < j < |run[n].log|
    ensures MayFollow(run[n].log[i], run[n].log[j])
  {
    RunKeepsInv(run, n);
  }

  // ----- Which writes may follow a deletion -----

  predicate IsWrite(e: Event) {
    e.Wrote? || e.WroteAround?
  }

  function Last(run: seq<State>): State
    requires run != []
  {
    run[|run| - 1]
  }

  ghost predicate AfterDeletion(log: seq<Event>, i: nat, j: nat, e: Event) {
    i < j < |log| && log[i] == Deleted && log[j] == e
  }

  /** Some schedule has `e` after the deletion of the session. */
  ghost predicate CanFollowDeletion(e: Event) {
    exists run: seq<State>, i: nat, j: nat :: IsRun(run) && AfterDeletion(Last(run).log, i, j, e)
  }

  /** The schedule in which a writer comes right after the deletion; recovery has been waiting for the
      worker's reply meanwhile, and enters the worker again. */
  lemma LateWrite(writer: Writer) returns (run: seq<State>)
    requires !writer.Stop?
    ensures IsRun(run)
    ensures Last(run).log == [Raised(1, true), Deleted, WroteAround(writer)] && !Last(run).held && Last(run).stored
  {
    var s1 := Apply(Fresh, Queue(Delete));
    var s2 := Apply(s1, Begin);
    var s3 := Apply(s2, End(true));
    var s4 := Apply(s3, Attach);
    var s5 := Apply(s4, WriteAround(writer));
    assert Next(Fresh, s1) by { assert Enabled(Fresh, Queue(Delete)); }
    assert Next(s1, s2) by { assert Enabled(s1, Begin); }
    assert Next(s2, s3) by { assert Enabled(s2, End(true)); }
    assert Next(s3, s4) by { assert Enabled(s3, Attach); }
    assert Next(s4, s5) by { assert Enabled(s4, WriteAround(writer)); }
    run := [Fresh, s1, s2, s3, s4, s5];
  }

  /** A write can follow the deletion of its session exactly when it carries no version and is not
      that of a stop. It then puts the session back on disk, with no record held. */
  lemma WritesAfterDeletionExactly(e: Event)
    requires IsWrite(e)
    ensures CanFollowDeletion(e) <==> e.WroteAround? && !e.writer.Stop?
  {
    if e.WroteAround? && !e.writer.Stop? {
      var run := LateWrite(e.writer);
      assert AfterDeletion(Last(run).log, 1, 2, e);
    } else {
      forall run: seq<State>, i: nat, j: nat | IsRun(run) ensures !AfterDeletion(Last(run).log, i, j, e) {
        if i < j < |Last(run).log| { StaleSnapshotsPersistNothing(run, |run| - 1, i, j); }
      }
    }
  }

  ghost predicate BroughtBack(log: seq<Event>, i: nat, j: nat) {
    i < j < |log| && log[i] == Deleted && log[j].WroteAround? && !log[j].writer.Stop?
  }

  /** A session is on disk without a record held only if such a write came after its deletion. */
  lemma {:induction false} OnlyLateWritesBringBack(run: seq<State>, n: nat) returns (i: nat, j: nat)
    requires IsRun(run) && n < |run| && !run[n].held && run[n].stored
    ensures BroughtBack(run[n].log, i, j)
    decreases n
  {
    assert n > 0;
    assert Next(run[n - 1], run[n]);
    var s, t := run[n - 1], run[n];
    var step :| Enabled(s, step) && t == Apply(s, step);
    RunKeepsInv(run, n - 1);
    assert s.log <= t.log;
    if !s.held && s.stored {
      i, j := OnlyLateWritesBringBack(run, n - 1);
    } else {
      assert step.WriteAround? && !s.held;
      i :| 0 <= i < |s.log| && s.log[i] == Deleted;
      j := |s.log|;
    }
  }

  /** A finalization on an idle lane is stored, and shuts out every snapshot whose version was read
      before it ended. */
  lemma FinalizationShutsOutOlder(s: State, version: nat)
    requires s.held && s.running.None? && s.queue == [] && version <= s.version + 1
    ensures var raised := Apply(s, Raise);
            var queued := Apply(raised, Queue(Write(raised.version, Always)));
            var stored := Apply(Apply(queued, Begin), End(true));
            var late := Apply(stored, Queue(Write(version, Never)));
            && Enabled(s, Raise) && Enabled(queued, Begin) && Enabled(Apply(queued, Begin), End(true))
            && Enabled(late, Begin)
            && Wrote(s.version + 1) in stored.log
            && Apply(late, Begin).running.None? && Apply(late, Begin).log == stored.log
  {
    var raised := Apply(s, Raise);
    var task := Write(raised.version, Always);
    var queued := Apply(raised, Queue(task));
    assert queued.queue == [task] && queued.queue[1..] == [];
    var begun := Apply(queued, Begin);
    assert begun.running == Some(task);
    var stored := Apply(begun, End(true));
    assert stored.log == begun.log + [Wrote(s.version + 1)] + [Raised(s.version + 2, true)];
    assert stored.queue == [];
  }
}
