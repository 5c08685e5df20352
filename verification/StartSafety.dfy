/** Safety of the start protocol over all its runs. */
module StartSafety {
  import opened Options
  import opened StartProtocol

  // ----- The invariant -----

  /** A spawn operation that has not yet got past its start frame. */
  predicate MaySend(d: Daemon) {
    d.Up? && (match d.pc
              case BeforeRecord | BeforeAuthority | BeforeSpawn | BeforeBootstrap
                 | BeforeReady | BeforeReference | BeforeAttempt | BeforeStart => true
              case _ => false)
  }

  /** The one start frame, not yet read by the worker. */
  predicate StartPending(p: Pipe) {
    p.frames != [] && p.frames[0].StartFrame?
  }

  /** No child exists, and no continuation of the run can create one. */
  predicate CannotStart(s: State) {
    && s.child.NotStarted?
    && (match s.worker
        case Gone | Refused | SpawnFailing => true
        case Unspawned | Booting | Waiting => !StartPending(s.pipe) && !MaySend(s.daemon)
        case _ => false)
  }

  /** What deletion needs: the command never started and never can, or its child has exited. */
  predicate Safe(s: State) {
    CannotStart(s) || s.child.Exited?
  }

  predicate Started(s: State) {
    s.startsSent > 0
  }

  predicate RecordShape(s: State, r: Record) {
    && (r.worker.Some? ==> r.prestart.Some?)
    && (r.prestart.Some? <==> r.startAttempted.Some?)
    && (r.startAttempted == Some(true) ==> r.worker.Some?)
    && (s.startsSent == 0 ==> r.status.Starting? || r.status.Lost? || r.status.SpawnFailed?)
  }

  /** One copy of the record, in memory or on disk. */
  predicate RecordOk(s: State, r: Record) {
    && (r.worker.Some? ==> r.worker.value == ReferenceTo(s.self))
    && (r.prestart.Some? ==> r.prestart.value == AuthorityFor(s.self))
    && RecordShape(s, r)
    && (!s.worker.Unspawned? ==> r.prestart.Some?)
    && (Started(s) ==> r.startAttempted == Some(true))
    && (r.directExited ==> s.child.Exited?)
    && (r.spawnError.Some? ==> !MaySend(s.daemon))
    && (r.status.Finished? ==> TerminalDirectChild(r, s.darwin))
    && (r.status.SpawnFailed? ==> NoMoreSends(s))
  }

  /** No start frame will be sent, and if one was the worker is gone without a child. */
  predicate NoMoreSends(s: State) {
    !MaySend(s.daemon) && (s.startsSent == 1 ==> s.worker.Gone? && s.child.NotStarted?)
  }

  predicate DiskOk(s: State) {
    && (s.disk.record.Some? ==> RecordOk(s, s.disk.record.value))
    && (s.disk.descriptor == Some(s.self) ==> !s.worker.Unspawned? && !s.worker.Booting?)
    && (s.disk.prestartReceipt.Some? && s.disk.prestartReceipt.value.token == s.self.token ==>
          s.worker.Gone? && s.child.NotStarted? && s.disk.prestartReceipt == Some(GenuinePrestart(s.self)))
    && (s.disk.spawnReceipt.Some? && s.disk.spawnReceipt.value.token == s.self.token ==>
          s.worker.Gone? && s.startsSent == 1 && (!s.disk.spawnReceipt.value.childStarted ==> s.child.NotStarted?))
  }

  predicate WorkerOk(s: State) {
    && s.spawns == (if s.child.NotStarted? then 0 else 1)
    && (s.worker.Hosting? ==> s.spawns == 1)
    && (s.spawns == 1 ==> s.worker.Hosting? || s.worker.Gone?)
    && (s.rootExited ==> s.child.Exited?)
    && (forall i | 1 <= i < |s.pipe.frames| :: s.pipe.frames[i].RollbackFrame?)
    && (StartPending(s.pipe) ==> s.startsSent == 1)
    && (s.startsSent == 1 && (s.worker.Booting? || s.worker.Waiting?) ==> StartPending(s.pipe))
    && (s.worker.Accepted? || s.worker.SpawnFailing? || s.spawns == 1 ==> s.startsSent == 1)
    && (s.daemon.Down? ==> s.pipe.closed)
    && (MaySend(s.daemon) ==> !s.pipe.closed)
    && (s.worker.Refused? ==> s.startsSent == 0 && !MaySend(s.daemon))
    && s.startsSent <= 1
  }

  predicate SpawnPcOk(s: State) {
    s.daemon.Up? ==>
      && (s.daemon.record.None? ==> s.daemon.pc.Idle?)
      && (MaySend(s.daemon) ==>
          s.startsSent == 0 && s.pipe.frames == [] && s.daemon.record.Some? && s.daemon.record.value.spawnError.None?)
      && (s.daemon.pc.BeforeRecord? || s.daemon.pc.BeforeAuthority? || s.daemon.pc.BeforeSpawn? ==> s.worker.Unspawned?)
      && (s.daemon.pc.BeforeSpawn? ==> s.daemon.record.value.prestart.Some? && Persisted(s))
      && (s.daemon.pc.BeforeStart? ==> s.daemon.record.value.startAttempted == Some(true) && AttemptPersisted(s))
      && (s.daemon.pc.BeforeAttempt? ==> s.daemon.record.value.worker.Some?)
      && (s.daemon.pc.BeforeResult? ==> s.startsSent == 1)
      && (s.daemon.pc.BeforeReference? || s.daemon.pc.BeforeAttempt? || s.daemon.pc.BeforeStart? ==>
            !s.worker.Unspawned? && !s.worker.Booting?)
      && (s.daemon.pc.BeforeStart? || s.startsSent == 1 ==> !s.worker.Unspawned?)
      && (s.daemon.pc.BeforeResult? || s.daemon.pc.StartFailed? || s.daemon.pc.RollingBack? ||
          s.daemon.pc.AwaitRollback? ==>
            s.daemon.record.value.prestart.Some?)
      && (s.daemon.pc.BeforeBootstrap? || s.daemon.pc.BeforeReady? ==> !s.worker.Unspawned?)
      && (s.daemon.pc.Failing? && s.daemon.pc.noWorker ==> CannotStart(s))
      && (s.daemon.pc.Failing? && NoChild(s.daemon.pc.cleanup) ==> NoMoreSends(s))
      && (s.daemon.pc.Failing? && s.daemon.pc.reference.Some? ==>
            s.daemon.pc.reference == Some(ReferenceTo(s.self)) && s.startsSent == 0 && !s.worker.Unspawned?)
      && (s.daemon.pc.DeletingUnspawned? ==> CannotStart(s))
  }

  predicate Persisted(s: State) {
    s.disk.record.Some? ==> s.disk.record.value.prestart.Some?
  }

  predicate AttemptPersisted(s: State) {
    s.disk.record.Some? ==> s.disk.record.value.startAttempted == Some(true)
  }

  predicate MemoryOk(s: State) {
    s.daemon.Up? ==>
      && (s.daemon.record.Some? ==> RecordOk(s, s.daemon.record.value))
      && (forall reply | reply in s.daemon.replies :: s.startsSent == 1 && (reply.directExited ==> s.child.Exited?))
      && (s.daemon.deleting ==> Safe(s))
  }

  predicate Inv(s: State) {
    && s.self.protocol == PROTOCOL
    && (s.startsSent == 1 ==> !s.worker.Unspawned? && !s.worker.Booting?)
    && WorkerOk(s) && DiskOk(s) && SpawnPcOk(s) && MemoryOk(s)
    && (s.deleted ==> Safe(s))
  }

  lemma InitInv(s: State)
    requires Init(s)
    ensures Inv(s)
  {
  }

  // ----- Every step keeps it -----

  lemma FirstKeepsInv(s: State, w: Write)
    requires Inv(s) && SpawnEnabled(s, WriteFirst(w))
    ensures Inv(SpawnApply(s, WriteFirst(w)))
    ensures Safe(s) ==> Safe(SpawnApply(s, WriteFirst(w)))
  {
  }

  lemma PrepareKeepsInv(s: State)
    requires Inv(s) && SpawnEnabled(s, PrepareFails)
    ensures Inv(SpawnApply(s, PrepareFails))
    ensures Safe(s) ==> Safe(SpawnApply(s, PrepareFails))
  {
  }

  lemma AuthorityKeepsInv(s: State, w: Write)
    requires Inv(s) && SpawnEnabled(s, PersistAuthority(w))
    ensures Inv(SpawnApply(s, PersistAuthority(w)))
    ensures Safe(s) ==> Safe(SpawnApply(s, PersistAuthority(w)))
  {
  }

  lemma LaunchKeepsInv(s: State, spawned: Spawned)
    requires Inv(s) && SpawnEnabled(s, SpawnWorker(spawned))
    ensures Inv(SpawnApply(s, SpawnWorker(spawned)))
    ensures Safe(s) ==> Safe(SpawnApply(s, SpawnWorker(spawned)))
  {
  }

  lemma BootstrapKeepsInv(s: State, a: SpawnStep)
    requires Inv(s) && SpawnEnabled(s, a) && a.SendBootstrap?
    ensures Inv(SpawnApply(s, a))
    ensures Safe(s) ==> Safe(SpawnApply(s, a))
  {
  }

  lemma ReadyKeepsInv(s: State, a: SpawnStep)
    requires Inv(s) && SpawnEnabled(s, a) && (a.ReadReady?)
    ensures Inv(SpawnApply(s, a))
    ensures Safe(s) ==> Safe(SpawnApply(s, a))
  {
  }

  lemma ReferenceKeepsInv(s: State, a: SpawnStep)
    requires Inv(s) && SpawnEnabled(s, a) && a.PersistReference?
    ensures Inv(SpawnApply(s, a))
    ensures Safe(s) ==> Safe(SpawnApply(s, a))
  {
  }

  lemma AttemptKeepsInv(s: State, w: Write)
    requires Inv(s) && SpawnEnabled(s, PersistAttempt(w))
    ensures Inv(SpawnApply(s, PersistAttempt(w)))
    ensures Safe(s) ==> Safe(SpawnApply(s, PersistAttempt(w)))
  {
  }

  lemma SendKeepsInv(s: State, a: SpawnStep)
    requires Inv(s) && SpawnEnabled(s, a) && (a.SendStart?)
    ensures Inv(SpawnApply(s, a))
    ensures Safe(s) ==> Safe(SpawnApply(s, a))
  {
  }

  lemma AnswerKeepsInv(s: State, drained: bool, w: Write)
    requires Inv(s) && SpawnEnabled(s, StartResult(true, drained, w))
    ensures Inv(SpawnApply(s, StartResult(true, drained, w)))
    ensures Safe(s) ==> Safe(SpawnApply(s, StartResult(true, drained, w)))
  {
    var t := SpawnApply(s, StartResult(true, drained, w));
    assert t.worker == s.worker && t.pipe == s.pipe && t.child == s.child && t.startsSent == s.startsSent;
    assert WorkerOk(t);
    assert RecordOk(t, t.daemon.record.value);
    assert DiskOk(t);
  }

  lemma SilenceKeepsInv(s: State, drained: bool, w: Write)
    requires Inv(s) && SpawnEnabled(s, StartResult(false, drained, w))
    ensures Inv(SpawnApply(s, StartResult(false, drained, w)))
    ensures Safe(s) ==> Safe(SpawnApply(s, StartResult(false, drained, w)))
  {
  }

  lemma FailureReadKeepsInv(s: State, a: SpawnStep)
    requires Inv(s) && SpawnEnabled(s, a) && a.ReadFailureReceipt?
    ensures Inv(SpawnApply(s, a))
    ensures Safe(s) ==> Safe(SpawnApply(s, a))
  {
  }

  lemma RollbackKeepsInv(s: State, sent: bool)
    requires Inv(s) && SpawnEnabled(s, SendRollback(sent))
    ensures Inv(SpawnApply(s, SendRollback(sent)))
    ensures Safe(s) ==> Safe(SpawnApply(s, SendRollback(sent)))
  {
  }

  lemma RolledBackKeepsInv(s: State, a: SpawnStep)
    requires Inv(s) && SpawnEnabled(s, a) && (a.ReadRollback?)
    ensures Inv(SpawnApply(s, a))
    ensures Safe(s) ==> Safe(SpawnApply(s, a))
  {
  }

  lemma FailureKeepsInv(s: State, accepted: bool, w: Write)
    requires Inv(s) && SpawnEnabled(s, RecordFailure(accepted, w))
    ensures Inv(SpawnApply(s, RecordFailure(accepted, w)))
    ensures Safe(s) ==> Safe(SpawnApply(s, RecordFailure(accepted, w)))
  {
  }

  lemma UnspawnedKeepsInv(s: State)
    requires Inv(s) && SpawnEnabled(s, DeleteUnspawned)
    ensures Inv(SpawnApply(s, DeleteUnspawned))
    ensures Safe(s) ==> Safe(SpawnApply(s, DeleteUnspawned))
  {
  }

  lemma SpawnKeepsInv(s: State, a: SpawnStep)
    requires Inv(s) && SpawnEnabled(s, a)
    ensures Inv(SpawnApply(s, a))
    ensures Safe(s) ==> Safe(SpawnApply(s, a))
  {
    hide Inv, Safe, SpawnApply;
    match a
    case WriteFirst(w) => FirstKeepsInv(s, w);
    case PrepareFails => PrepareKeepsInv(s);
    case PersistAuthority(w) => AuthorityKeepsInv(s, w);
    case SpawnWorker(spawned) => LaunchKeepsInv(s, spawned);
    case SendBootstrap(_, _) => BootstrapKeepsInv(s, a);
    case ReadReady(_, _, _) => ReadyKeepsInv(s, a);
    case PersistReference(_) => ReferenceKeepsInv(s, a);
    case PersistAttempt(w) => AttemptKeepsInv(s, w);
    case SendStart(_, _) => SendKeepsInv(s, a);
    case StartResult(answered, drained, w) =>
      if answered { AnswerKeepsInv(s, drained, w); } else { SilenceKeepsInv(s, drained, w); }
    case ReadFailureReceipt => FailureReadKeepsInv(s, a);
    case SendRollback(sent) => RollbackKeepsInv(s, sent);
    case ReadRollback(_) => RolledBackKeepsInv(s, a);
    case RecordFailure(accepted, w) => FailureKeepsInv(s, accepted, w);
    case DeleteUnspawned => UnspawnedKeepsInv(s);
  }

  lemma DecisionIsSafe(s: State, reason: Reason)
    requires Inv(s) && Owns(s) && DecideEnabled(s, reason)
    ensures Safe(s)
  {
  }

  lemma RecordKeepsInv(s: State, a: DaemonStep)
    requires Inv(s) && DaemonEnabled(s, a) && (a.Reconnect? || a.AskWorker? || a.ApplyReply? || a.Relabel?)
    ensures Inv(DaemonApply(s, a))
    ensures Safe(s) ==> Safe(DaemonApply(s, a))
  {
  }

  lemma PersistKeepsInv(s: State, a: DaemonStep)
    requires Inv(s) && DaemonEnabled(s, a) && (a.PersistNow?)
    ensures Inv(DaemonApply(s, a))
    ensures Safe(s) ==> Safe(DaemonApply(s, a))
  {
  }

  lemma DecideKeepsInv(s: State, reason: Reason)
    requires Inv(s) && DaemonEnabled(s, Decide(reason))
    ensures Inv(DaemonApply(s, Decide(reason)))
    ensures Safe(s) ==> Safe(DaemonApply(s, Decide(reason)))
  {
    DecisionIsSafe(s, reason);
    hide DecideEnabled;
  }

  lemma DeleteKeepsInv(s: State)
    requires Inv(s) && DaemonEnabled(s, Delete)
    ensures Inv(DaemonApply(s, Delete))
    ensures Safe(s) ==> Safe(DaemonApply(s, Delete))
  {
  }

  lemma DeleteFailsKeepsInv(s: State, kept: Disk)
    requires Inv(s) && DaemonEnabled(s, DeleteFails(kept))
    ensures Inv(DaemonApply(s, DeleteFails(kept)))
    ensures Safe(s) ==> Safe(DaemonApply(s, DeleteFails(kept)))
  {
  }

  lemma CrashKeepsInv(s: State)
    requires Inv(s) && DaemonEnabled(s, Crash)
    ensures Inv(DaemonApply(s, Crash))
    ensures Safe(s) ==> Safe(DaemonApply(s, Crash))
  {
  }

  lemma BootKeepsInv(s: State, deletes: bool)
    requires Inv(s) && DaemonEnabled(s, Boot(deletes))
    ensures Inv(DaemonApply(s, Boot(deletes)))
    ensures Safe(s) ==> Safe(DaemonApply(s, Boot(deletes)))
  {
  }

  lemma DaemonKeepsInv(s: State, a: DaemonStep)
    requires Inv(s) && DaemonEnabled(s, a)
    ensures Inv(DaemonApply(s, a))
    ensures Safe(s) ==> Safe(DaemonApply(s, a))
  {
    hide Inv, Safe, DaemonApply;
    match a
    case Reconnect => RecordKeepsInv(s, a);
    case AskWorker(_) => RecordKeepsInv(s, a);
    case ApplyReply(_, _) => RecordKeepsInv(s, a);
    case Relabel(_, _, _) => RecordKeepsInv(s, a);
    case PersistNow(_) => PersistKeepsInv(s, a);
    case Decide(reason) => DecideKeepsInv(s, reason);
    case Delete => DeleteKeepsInv(s);
    case DeleteFails(kept) => DeleteFailsKeepsInv(s, kept);
    case Crash => CrashKeepsInv(s);
    case Boot(deletes) => BootKeepsInv(s, deletes);
  }

  lemma BootsKeepsInv(s: State, a: WorldStep)
    requires Inv(s) && WorldEnabled(s, a) && a.WorkerBoots?
    ensures Inv(WorldApply(s, a))
    ensures Safe(s) ==> Safe(WorldApply(s, a))
  {
  }

  lemma ControlKeepsInv(s: State, a: WorldStep)
    requires Inv(s) && WorldEnabled(s, a) && a.ReadControl?
    ensures Inv(WorldApply(s, a))
    ensures Safe(s) ==> Safe(WorldApply(s, a))
  {
  }

  lemma ReceiptKeepsInv(s: State, a: WorldStep)
    requires Inv(s) && WorldEnabled(s, a) && (a.WriteNoChild? || a.WriteSpawnFailure?)
    ensures Inv(WorldApply(s, a))
    ensures Safe(s) ==> Safe(WorldApply(s, a))
  {
  }

  lemma ChildKeepsInv(s: State, a: WorldStep)
    requires Inv(s) && WorldEnabled(s, a) && (a.SpawnChild?)
    ensures Inv(WorldApply(s, a))
    ensures Safe(s) ==> Safe(WorldApply(s, a))
  {
  }

  lemma HostKeepsInv(s: State, a: WorldStep)
    requires Inv(s) && WorldEnabled(s, a) &&
             (a.AbandonChild? || a.SeeExit? || a.WorkerLeaves? || a.WorkerDies? || a.ChildExits?)
    ensures Inv(WorldApply(s, a))
    ensures Safe(s) ==> Safe(WorldApply(s, a))
  {
  }

  lemma ForeignPrestartKeepsInv(s: State, f: PrestartReceipt)
    requires Inv(s) && WorldEnabled(s, ForeignPrestart(f))
    ensures Inv(WorldApply(s, ForeignPrestart(f)))
    ensures Safe(s) ==> Safe(WorldApply(s, ForeignPrestart(f)))
  {
  }

  lemma ForeignSpawnKeepsInv(s: State, f: SpawnReceipt)
    requires Inv(s) && WorldEnabled(s, ForeignSpawn(f))
    ensures Inv(WorldApply(s, ForeignSpawn(f)))
    ensures Safe(s) ==> Safe(WorldApply(s, ForeignSpawn(f)))
  {
  }

  lemma ForeignDescriptorKeepsInv(s: State, f: Descriptor)
    requires Inv(s) && WorldEnabled(s, ForeignDescriptor(f))
    ensures Inv(WorldApply(s, ForeignDescriptor(f)))
    ensures Safe(s) ==> Safe(WorldApply(s, ForeignDescriptor(f)))
  {
  }

  lemma VanishKeepsInv(s: State, left: Disk)
    requires Inv(s) && WorldEnabled(s, FilesVanish(left))
    ensures Inv(WorldApply(s, FilesVanish(left)))
    ensures Safe(s) ==> Safe(WorldApply(s, FilesVanish(left)))
  {
  }

  lemma WorldKeepsInv(s: State, a: WorldStep)
    requires Inv(s) && WorldEnabled(s, a)
    ensures Inv(WorldApply(s, a))
    ensures Safe(s) ==> Safe(WorldApply(s, a))
  {
    hide Inv, Safe, WorldApply;
    match a
    case WorkerBoots(_) => BootsKeepsInv(s, a);
    case ReadControl => ControlKeepsInv(s, a);
    case WriteNoChild(_) => ReceiptKeepsInv(s, a);
    case SpawnChild(_) => ChildKeepsInv(s, a);
    case WriteSpawnFailure(_) => ReceiptKeepsInv(s, a);
    case AbandonChild(_, _) => HostKeepsInv(s, a);
    case SeeExit => HostKeepsInv(s, a);
    case WorkerLeaves => HostKeepsInv(s, a);
    case WorkerDies => HostKeepsInv(s, a);
    case ChildExits => HostKeepsInv(s, a);
    case ForeignPrestart(f) => ForeignPrestartKeepsInv(s, f);
    case ForeignSpawn(f) => ForeignSpawnKeepsInv(s, f);
    case ForeignDescriptor(f) => ForeignDescriptorKeepsInv(s, f);
    case FilesVanish(left) => VanishKeepsInv(s, left);
  }

  /** One step of anything keeps the invariant, and what is safe to delete stays safe. */
  lemma StepKeepsInv(s: State, a: Action)
    requires Inv(s) && Enabled(s, a)
    ensures Inv(Apply(s, a))
    ensures Safe(s) ==> Safe(Apply(s, a))
  {
    hide Inv, Safe, SpawnApply, DaemonApply, WorldApply;
    match a
    case Spawn(step) => SpawnKeepsInv(s, step);
    case Manage(step) => DaemonKeepsInv(s, step);
    case World(step) => WorldKeepsInv(s, step);
  }

  // ----- Whole runs -----

  lemma {:induction false} RunKeepsInv(run: seq<State>, i: nat)
    requires IsRun(run) && i < |run|
    ensures Inv(run[i])
  {
    hide Inv, Apply, Enabled;
    if i == 0 {
      InitInv(run[0]);
    } else {
      RunKeepsInv(run, i - 1);
      assert Next(run[i - 1], run[i]);
      var a :| Enabled(run[i - 1], a) && run[i] == Apply(run[i - 1], a);
      StepKeepsInv(run[i - 1], a);
    }
  }

  lemma {:induction false} SafeLasts(run: seq<State>, i: nat, j: nat)
    requires IsRun(run) && i <= j < |run| && Safe(run[i])
    ensures Safe(run[j])
  {
    hide Inv, Safe, Apply, Enabled;
    if i < j {
      SafeLasts(run, i, j - 1);
      RunKeepsInv(run, j - 1);
      assert Next(run[j - 1], run[j]);
      var a :| Enabled(run[j - 1], a) && run[j] == Apply(run[j - 1], a);
      StepKeepsInv(run[j - 1], a);
    }
  }

  /** Whatever crashes and restarts there were, a session is deleted only when its command's child
      either does not exist now and never will, or has exited. */
  lemma DeletionIsSafe(run: seq<State>, i: nat, j: nat)
    requires IsRun(run) && i <= j < |run| && run[i].deleted
    ensures !run[i].child.Alive? && !run[j].child.Alive?
    ensures run[i].child.NotStarted? ==> forall k | 0 <= k <= j :: run[k].child.NotStarted?
  {
    RunKeepsInv(run, i);
    SafeLasts(run, i, j);
    if run[i].child.NotStarted? {
      forall k | 0 <= k <= j ensures run[k].child.NotStarted? {
        if k < i { ChildStays(run, k, i); } else { SafeLasts(run, i, k); ExitedWasStarted(run, i, k); }
      }
    }
  }

  /** No step changes what kind of session it is. */
  predicate SameSession(s: State, t: State) {
    t.conversation == s.conversation && t.self == s.self && t.darwin == s.darwin
  }

  lemma ChildNeverUnstarts(s: State, a: Action)
    requires Enabled(s, a) && !s.child.NotStarted?
    ensures !Apply(s, a).child.NotStarted?
  {
    hide SpawnApply, DaemonApply;
    match a
    case Spawn(step) => SpawnLeavesChild(s, step);
    case Manage(step) => DaemonLeavesChild(s, step);
    case World(step) =>
  }

  lemma {:induction false} ChildStays(run: seq<State>, k: nat, i: nat)
    requires IsRun(run) && k <= i < |run| && run[i].child.NotStarted?
    ensures run[k].child.NotStarted?
    decreases i - k
  {
    if k < i && !run[k].child.NotStarted? {
      assert Next(run[k], run[k + 1]);
      var a :| Enabled(run[k], a) && run[k + 1] == Apply(run[k], a);
      ChildNeverUnstarts(run[k], a);
      ChildStays(run, k + 1, i);
    }
  }

  lemma CannotStartStep(s: State, a: Action)
    requires Inv(s) && Enabled(s, a) && CannotStart(s)
    ensures Apply(s, a).child.NotStarted?
  {
    hide Inv, SpawnApply, DaemonApply, WorldApply;
    match a
    case Spawn(step) => SpawnLeavesChild(s, step);
    case Manage(step) => DaemonLeavesChild(s, step);
    case World(step) => CannotStartInWorld(s, step);
  }

  predicate Launching(a: SpawnStep) {
    || a.WriteFirst? || a.PrepareFails? || a.PersistAuthority? || a.SpawnWorker?
    || a.SendBootstrap? || a.ReadReady? || a.PersistReference?
  }

  lemma LaunchLeavesChild(s: State, a: SpawnStep)
    requires SpawnEnabled(s, a) && Launching(a)
    ensures SpawnApply(s, a).child == s.child && SameSession(s, SpawnApply(s, a))
  {
    hide ReceiptCleanup, AuthorityFor, ReferenceTo, Persist;
  }

  lemma StartLeavesChild(s: State, a: SpawnStep)
    requires SpawnEnabled(s, a) && !Launching(a)
    ensures SpawnApply(s, a).child == s.child && SameSession(s, SpawnApply(s, a))
  {
    hide NoChild, ReceiptCleanup, RollbackCleanup, Persist;
  }

  lemma SpawnLeavesChild(s: State, a: SpawnStep)
    requires SpawnEnabled(s, a)
    ensures SpawnApply(s, a).child == s.child && SameSession(s, SpawnApply(s, a))
  {
    hide SpawnApply, SpawnEnabled;
    if Launching(a) { LaunchLeavesChild(s, a); } else { StartLeavesChild(s, a); }
  }

  lemma DaemonLeavesChild(s: State, a: DaemonStep)
    requires DaemonEnabled(s, a)
    ensures DaemonApply(s, a).child == s.child && SameSession(s, DaemonApply(s, a))
  {
  }

  lemma CannotStartInWorld(s: State, a: WorldStep)
    requires WorldEnabled(s, a) && CannotStart(s)
    ensures WorldApply(s, a).child.NotStarted?
  {
  }

  lemma {:induction false} ExitedWasStarted(run: seq<State>, i: nat, k: nat)
    requires IsRun(run) && i <= k < |run| && Safe(run[i]) && run[i].child.NotStarted?
    ensures run[k].child.NotStarted?
  {
    hide Inv, Apply, Enabled, CannotStart;
    if i < k {
      ExitedWasStarted(run, i, k - 1);
      RunKeepsInv(run, k - 1);
      SafeLasts(run, i, k - 1);
      assert Next(run[k - 1], run[k]);
      var a :| Enabled(run[k - 1], a) && run[k] == Apply(run[k - 1], a);
      CannotStartStep(run[k - 1], a);
    }
  }

  /** Across any number of crashes one start frame is sent at most and one child is created at most. */
  lemma StartedAtMostOnce(run: seq<State>, i: nat)
    requires IsRun(run) && i < |run|
    ensures run[i].startsSent <= 1 && run[i].spawns <= run[i].startsSent
  {
    RunKeepsInv(run, i);
  }

  /** While a start frame is in the pipe or a child has existed, every record on disk says so. */
  lemma StartIsRecorded(run: seq<State>, i: nat)
    requires IsRun(run) && i < |run|
    requires StartFrame in run[i].pipe.frames || !run[i].child.NotStarted?
    ensures run[i].disk.record.Some? ==> run[i].disk.record.value.startAttempted == Some(true)
  {
    RunKeepsInv(run, i);
    var frames := run[i].pipe.frames;
    if StartFrame in frames {
      var k :| 0 <= k < |frames| && frames[k].StartFrame?;
      assert k == 0;
    }
  }

  /** A receipt that the daemon would accept as proof that no child started is never beside a child,
      although anyone without the token may write receipts. */
  lemma AcceptedReceiptExcludesChild(run: seq<State>, i: nat)
    requires IsRun(run) && i < |run|
    ensures var s := run[i];
            (s.disk.prestartReceipt.Some?
             && (VerifiedPrestart(s.disk.prestartReceipt.value, ByReference(ReferenceTo(s.self)))
                 || VerifiedPrestart(s.disk.prestartReceipt.value, ByAuthority(AuthorityFor(s.self)))))
            || VerifiedNoChild(s.disk, ReferenceTo(s.self))
            ==> s.child.NotStarted? && s.worker.Gone?
  {
    RunKeepsInv(run, i);
  }

  // ----- Which crashes recovery can clean up after -----

  ghost predicate IsPath(path: seq<State>) {
    path != [] && forall i | 0 <= i < |path| - 1 :: Next(path[i], path[i + 1])
  }

  ghost predicate CanBeDeleted(s: State) {
    exists path: seq<State> :: IsPath(path) && path[0] == s && path[|path| - 1].deleted
  }

  predicate OwnReceipt(s: State) {
    s.disk.prestartReceipt == Some(GenuinePrestart(s.self))
  }

  /** The worker's receipt is on disk, or the worker can still be brought to write it. */
  predicate ReceiptPossible(s: State) {
    OwnReceipt(s) || s.worker.Refused? || s.worker.Waiting? || (s.worker.Booting? && s.pipe.bootstrap)
  }

  /** No receipt, and no worker that could write one: it was never spawned, never got its bootstrap,
      or is gone. */
  predicate ReceiptImpossible(s: State) {
    && (s.disk.prestartReceipt.Some? ==> s.disk.prestartReceipt.value.token != s.self.token)
    && (s.worker.Unspawned? || s.worker.Gone? || (s.worker.Booting? && !s.pipe.bootstrap))
  }

  /** What recovery needs to find after a crash before the start frame. */
  predicate Reapable(s: State)
    requires s.disk.record.Some?
  {
    var r := s.disk.record.value;
    DeletedAtBoot(r) || (r.startAttempted == Some(false) && ReceiptPossible(s))
  }

  /** No one is left to prove that the session never ran. */
  predicate Stuck(s: State) {
    && !s.deleted && s.child.NotStarted? && s.startsSent == 0
    && !s.worker.Accepted? && !s.worker.SpawnFailing? && !s.worker.Hosting?
    && (forall f | f in s.pipe.frames :: f.RollbackFrame?)
    && (s.disk.spawnReceipt.Some? ==> s.disk.spawnReceipt.value.token != s.self.token)
    && s.disk.record.Some? && StuckRecord(s, s.disk.record.value)
    && (s.daemon.Up? ==>
          && s.daemon.pc.Idle? && !s.daemon.deleting && s.daemon.replies == {}
          && s.daemon.record.Some? && StuckRecord(s, s.daemon.record.value))
  }

  /** A record that proves nothing by itself, and whose authority can no longer be answered. */
  predicate StuckRecord(s: State, r: Record) {
    && !r.directExited && !DeletedAtBoot(r)
    && (r.worker.Some? ==> r.worker == Some(ReferenceTo(s.self)))
    && (r.prestart.Some? ==> r.prestart == Some(AuthorityFor(s.self)))
    && (r.startAttempted == Some(false) ==> ReceiptImpossible(s))
  }

  lemma StuckStep(s: State, a: Action)
    requires Stuck(s) && Enabled(s, a)
    ensures Stuck(Apply(s, a))
  {
    match a
    case Spawn(step) =>
    case Manage(step) => StuckManaged(s, step);
    case World(step) => StuckInWorld(s, step);
  }

  lemma StuckManaged(s: State, a: DaemonStep)
    requires Stuck(s) && DaemonEnabled(s, a)
    ensures Stuck(DaemonApply(s, a))
  {
    match a
    case Reconnect =>
    case AskWorker(_) =>
    case ApplyReply(_, _) =>
    case Relabel(_, _, _) =>
    case PersistNow(_) =>
    case Decide(_) =>
    case Delete =>
    case DeleteFails(_) =>
    case Crash =>
    case Boot(_) =>
  }

  lemma StuckInWorld(s: State, a: WorldStep)
    requires Stuck(s) && WorldEnabled(s, a)
    ensures Stuck(WorldApply(s, a))
  {
    if a.ReadControl? && s.pipe.frames != [] {
      assert s.pipe.frames[0] in s.pipe.frames;
    }
  }

  lemma {:induction false} StuckForever(path: seq<State>, i: nat)
    requires IsPath(path) && Stuck(path[0]) && i < |path|
    ensures Stuck(path[i])
  {
    hide Stuck, Apply, Enabled;
    if i > 0 {
      StuckForever(path, i - 1);
      assert Next(path[i - 1], path[i]);
      var a :| Enabled(path[i - 1], a) && path[i] == Apply(path[i - 1], a);
      StuckStep(path[i - 1], a);
    }
  }

  // ----- What is reapable can be deleted -----

  lemma Deleted(s: State)
    requires s.deleted
    ensures CanBeDeleted(s)
  {
    var path := [s];
    assert IsPath(path) && path[0] == s && path[|path| - 1].deleted;
  }

  lemma StepBack(s: State, a: Action)
    requires Enabled(s, a) && CanBeDeleted(Apply(s, a))
    ensures CanBeDeleted(s)
  {
    var t := Apply(s, a);
    assert Next(s, t);
    hide Next, Apply, Enabled;
    var path: seq<State> :| IsPath(path) && path[0] == t && path[|path| - 1].deleted;
    var longer := [s] + path;
    assert IsPath(longer) && longer[0] == s && longer[|longer| - 1] == path[|path| - 1];
  }

  predicate CrashedBeforeStart(s: State) {
    s.daemon.Down? && s.startsSent == 0 && !s.deleted && s.disk.record.Some?
  }

  /** The restarted daemon deletes without asking any worker. */
  lemma BootDeletes(s: State)
    requires CrashedBeforeStart(s) && DeletedAtBoot(s.disk.record.value)
    ensures CanBeDeleted(s)
  {
    Deleted(Apply(s, Manage(Boot(true))));
    StepBack(s, Manage(Boot(true)));
  }

  /** The restarted daemon finds the receipt and deletes. */
  lemma ReceiptLeadsToDeletion(s: State)
    requires Inv(s) && CrashedBeforeStart(s) && s.disk.record.value.startAttempted == Some(false) && OwnReceipt(s)
    ensures CanBeDeleted(s)
  {
    var s1 := Apply(s, Manage(Boot(false)));
    var s2 := Apply(s1, Manage(Decide(ByPrestartReceipt)));
    assert Apply(s2, Manage(Delete)).deleted;
    hide Apply, Enabled, CanBeDeleted;
    Deleted(Apply(s2, Manage(Delete)));
    StepBack(s2, Manage(Delete));
    StepBack(s1, Manage(Decide(ByPrestartReceipt)));
    StepBack(s, Manage(Boot(false)));
  }

  /** A worker that is up answers the closed pipe with its receipt. */
  lemma WorkerLeadsToDeletion(s: State)
    requires Inv(s) && CrashedBeforeStart(s) && s.disk.record.value.startAttempted == Some(false)
    requires s.worker.Refused? || s.worker.Waiting?
    ensures CanBeDeleted(s)
    decreases if s.worker.Waiting? then 1 else 0
  {
    if s.worker.Waiting? {
      StepKeepsInv(s, World(ReadControl));
      WorkerLeadsToDeletion(Apply(s, World(ReadControl)));
      StepBack(s, World(ReadControl));
    } else {
      StepKeepsInv(s, World(WriteNoChild(true)));
      ReceiptLeadsToDeletion(Apply(s, World(WriteNoChild(true))));
      StepBack(s, World(WriteNoChild(true)));
    }
  }

  lemma ReapableIsDeleted(s: State)
    requires Inv(s) && CrashedBeforeStart(s) && Reapable(s)
    ensures CanBeDeleted(s)
  {
    if DeletedAtBoot(s.disk.record.value) {
      BootDeletes(s);
    } else if OwnReceipt(s) {
      ReceiptLeadsToDeletion(s);
    } else if s.worker.Booting? {
      StepKeepsInv(s, World(WorkerBoots(true)));
      WorkerLeadsToDeletion(Apply(s, World(WorkerBoots(true))));
      StepBack(s, World(WorkerBoots(true)));
    } else {
      WorkerLeadsToDeletion(s);
    }
  }

  lemma NotReapableIsStuck(s: State)
    requires Inv(s) && CrashedBeforeStart(s) && !Reapable(s)
    ensures Stuck(s)
  {
    assert RecordOk(s, s.disk.record.value);
    forall f | f in s.pipe.frames ensures f.RollbackFrame? {
      var k :| 0 <= k < |s.pipe.frames| && s.pipe.frames[k] == f;
    }
  }

  lemma CrashIsReapedExactly(s: State)
    requires Inv(s) && CrashedBeforeStart(s)
    ensures CanBeDeleted(s) <==> Reapable(s)
  {
    if Reapable(s) {
      ReapableIsDeleted(s);
    } else {
      NotReapableIsStuck(s);
      forall path: seq<State> | IsPath(path) && path[0] == s
        ensures !path[|path| - 1].deleted
      {
        StuckForever(path, |path| - 1);
      }
    }
  }

  /** Whenever the daemon is down before any start frame was sent, recovery can delete the session
      exactly when its record is one that the boot itself deletes, or the record says that no start
      was attempted and the worker's receipt is there or can still be written. Every other crash
      leaves a session that is never deleted. */
  lemma CrashBeforeStartIsReapedExactly(run: seq<State>)
    requires IsRun(run) && CrashedBeforeStart(run[|run| - 1])
    ensures CanBeDeleted(run[|run| - 1]) <==> Reapable(run[|run| - 1])
  {
    RunKeepsInv(run, |run| - 1);
    hide Inv, CrashedBeforeStart, Reapable, CanBeDeleted;
    CrashIsReapedExactly(run[|run| - 1]);
  }

  // ----- After the start frame -----

  predicate CrashedAfterStart(s: State) {
    s.daemon.Down? && s.startsSent == 1 && !s.deleted && s.disk.record.Some?
  }

  /** The record itself proves that the child has exited; an ended conversation needs its worker on
      top of that. */
  predicate Proven(s: State, r: Record) {
    TerminalDirectChild(r, s.darwin) && (s.conversation ==> !Ended(r.status))
  }

  predicate NoChildOnDisk(s: State) {
    VerifiedNoChild(s.disk, ReferenceTo(s.self))
  }

  /** The worker can be found by its descriptor, and is up. */
  predicate Answerable(s: State) {
    && s.disk.descriptor == Some(s.self)
    && (s.worker.Waiting? || s.worker.Accepted? || s.worker.SpawnFailing? || s.worker.Hosting?)
  }

  /** What recovery needs to find after a crash that comes after the start frame. */
  predicate Recoverable(s: State)
    requires s.disk.record.Some?
  {
    Proven(s, s.disk.record.value) || NoChildOnDisk(s) || Answerable(s)
  }

  /** The worker cannot be found, or is gone without proof that no child started. */
  predicate Mute(s: State) {
    s.disk.descriptor != Some(s.self) || (s.worker.Gone? && !NoChildOnDisk(s))
  }

  predicate SilentRecord(s: State, r: Record) {
    r.worker == Some(ReferenceTo(s.self)) && r.startAttempted == Some(true) && !Proven(s, r)
  }

  predicate Silent(s: State) {
    && !s.deleted && !s.worker.Unspawned? && !s.worker.Booting? && Mute(s)
    && s.disk.record.Some? && SilentRecord(s, s.disk.record.value)
    && (s.daemon.Up? ==>
          && s.daemon.pc.Idle? && !s.daemon.deleting && s.daemon.replies == {} && !s.daemon.client
          && s.daemon.record.Some? && SilentRecord(s, s.daemon.record.value))
  }

  lemma OnlySelfMatches(s: State, d: Descriptor)
    requires DescriptorMatches(d, ReferenceTo(s.self))
    ensures d == s.self
  {
  }

  lemma SilentManaged(s: State, a: DaemonStep)
    requires Silent(s) && DaemonEnabled(s, a)
    ensures Silent(DaemonApply(s, a))
  {
    if s.disk.descriptor.Some? && DescriptorMatches(s.disk.descriptor.value, ReferenceTo(s.self)) {
      OnlySelfMatches(s, s.disk.descriptor.value);
    }
    match a
    case Reconnect =>
    case AskWorker(_) =>
    case ApplyReply(_, _) =>
    case Relabel(_, _, _) =>
    case PersistNow(_) =>
    case Decide(_) =>
    case Delete =>
    case DeleteFails(_) =>
    case Crash =>
    case Boot(_) =>
  }

  lemma SilentInWorld(s: State, a: WorldStep)
    requires Silent(s) && WorldEnabled(s, a)
    ensures Silent(WorldApply(s, a))
  {
    var t := WorldApply(s, a);
    if t.disk.descriptor.Some? && DescriptorMatches(t.disk.descriptor.value, ReferenceTo(s.self)) {
      OnlySelfMatches(s, t.disk.descriptor.value);
    }
  }

  lemma SilentStep(s: State, a: Action)
    requires Silent(s) && Enabled(s, a)
    ensures Silent(Apply(s, a))
  {
    match a
    case Spawn(step) =>
    case Manage(step) => SilentManaged(s, step);
    case World(step) => SilentInWorld(s, step);
  }

  lemma {:induction false} SilentForever(path: seq<State>, i: nat)
    requires IsPath(path) && Silent(path[0]) && i < |path|
    ensures Silent(path[i])
  {
    hide Silent, Apply, Enabled;
    if i > 0 {
      SilentForever(path, i - 1);
      assert Next(path[i - 1], path[i]);
      var a :| Enabled(path[i - 1], a) && path[i] == Apply(path[i - 1], a);
      SilentStep(path[i - 1], a);
    }
  }

  // ----- What is recoverable can be deleted -----

  /** The restarted daemon takes a session that is not ended for lost. */
  lemma ProofLeadsToDeletion(s: State)
    requires Inv(s) && CrashedAfterStart(s) && Proven(s, s.disk.record.value)
    ensures CanBeDeleted(s)
  {
    var r := s.disk.record.value;
    var s1 := Apply(s, Manage(Boot(false)));
    if Ended(r.status) {
      DecisionDeletes(s1, ByTerminalRecord);
    } else {
      LostDeletes(s1, ByLostExit);
    }
    StepBack(s, Manage(Boot(false)));
  }

  lemma DecisionDeletes(s: State, reason: Reason)
    requires Owns(s) && s.daemon.listed && DecideEnabled(s, reason)
    ensures CanBeDeleted(s)
  {
    var t := Apply(s, Manage(Decide(reason)));
    assert Apply(t, Manage(Delete)).deleted;
    hide Apply, Enabled, CanBeDeleted;
    Deleted(Apply(t, Manage(Delete)));
    StepBack(t, Manage(Delete));
    StepBack(s, Manage(Decide(reason)));
  }

  /** The same after the daemon has taken the session for lost. */
  lemma LostDeletes(s: State, reason: Reason)
    requires Owns(s) && s.daemon.listed
    requires RelabelAllowed(s.daemon.record.value, Lost, s.daemon.record.value.confirmed, s.daemon.client)
    requires var t := Apply(s, Manage(Relabel(Lost, s.daemon.record.value.confirmed, true))); DecideEnabled(t, reason)
    ensures CanBeDeleted(s)
  {
    var a := Manage(Relabel(Lost, s.daemon.record.value.confirmed, true));
    DecisionDeletes(Apply(s, a), reason);
    StepBack(s, a);
  }

  /** The worker's receipt says that no child started. */
  lemma NoChildLeadsToDeletion(s: State)
    requires Inv(s) && CrashedAfterStart(s) && NoChildOnDisk(s)
    ensures CanBeDeleted(s)
  {
    var s1 := Apply(s, Manage(Boot(false)));
    assert !s.disk.record.value.status.Finished?;
    if s.disk.record.value.status.SpawnFailed? {
      DecisionDeletes(s1, BySpawnReceipt);
    } else {
      LostDeletes(s1, BySpawnReceipt);
    }
    StepBack(s, Manage(Boot(false)));
  }

  /** A worker that has not spawned its command yet can still fail to, and say so. */
  lemma StartLeadsToDeletion(s: State)
    requires Inv(s) && CrashedAfterStart(s) && s.disk.descriptor == Some(s.self)
    requires s.worker.Waiting? || s.worker.Accepted? || s.worker.SpawnFailing?
    ensures CanBeDeleted(s)
    decreases if s.worker.Waiting? then 2 else if s.worker.Accepted? then 1 else 0
  {
    var a := World(if s.worker.Waiting? then ReadControl
                   else if s.worker.Accepted? then SpawnChild(ChildRefused)
                   else WriteSpawnFailure(true));
    StepKeepsInv(s, a);
    var t := Apply(s, a);
    if s.worker.SpawnFailing? {
      NoChildLeadsToDeletion(t);
    } else {
      StartLeadsToDeletion(t);
    }
    StepBack(s, a);
  }

  /** A hosting worker is reached again, and asked once its child has exited. */
  lemma HostLeadsToDeletion(s: State)
    requires Inv(s) && CrashedAfterStart(s) && s.disk.descriptor == Some(s.self) && s.worker.Hosting?
    ensures CanBeDeleted(s)
    decreases if s.child.Alive? then 1 else 0
  {
    if s.child.Alive? {
      StepKeepsInv(s, World(ChildExits));
      HostLeadsToDeletion(Apply(s, World(ChildExits)));
      StepBack(s, World(ChildExits));
    } else {
      var s1 := Apply(s, World(SeeExit));
      var s2 := Apply(s1, Manage(Boot(false)));
      var s3 := Apply(s2, Manage(Reconnect));
      ClientDeletes(s3);
      hide Apply, Enabled, CanBeDeleted, Inv;
      StepBack(s2, Manage(Reconnect));
      StepBack(s1, Manage(Boot(false)));
      StepBack(s, World(SeeExit));
    }
  }

  lemma ClientDeletes(s: State)
    requires Owns(s) && s.daemon.listed && s.daemon.client && s.worker.Hosting? && s.rootExited
    requires s.daemon.record.value.status.Finished? ==> TerminalDirectChild(s.daemon.record.value, s.darwin)
    ensures CanBeDeleted(s)
  {
    if s.daemon.record.value.status.Finished? {
      DecisionDeletes(s, ByTerminalRecord);
    } else {
      var reply := Snapshot(false, true, true, true);
      var t := Apply(s, Manage(AskWorker(reply)));
      LostDeletes(t, ByShutdown(reply));
      StepBack(s, Manage(AskWorker(reply)));
    }
  }

  lemma RecoverableIsDeleted(s: State)
    requires Inv(s) && CrashedAfterStart(s) && Recoverable(s)
    ensures CanBeDeleted(s)
  {
    if Proven(s, s.disk.record.value) {
      ProofLeadsToDeletion(s);
    } else if NoChildOnDisk(s) {
      NoChildLeadsToDeletion(s);
    } else if s.worker.Hosting? {
      HostLeadsToDeletion(s);
    } else {
      StartLeadsToDeletion(s);
    }
  }

  lemma NotRecoverableIsSilent(s: State)
    requires Inv(s) && CrashedAfterStart(s) && !Recoverable(s)
    ensures Silent(s)
  {
    assert RecordOk(s, s.disk.record.value);
  }

  lemma CrashIsRecoveredExactly(s: State)
    requires Inv(s) && CrashedAfterStart(s)
    ensures CanBeDeleted(s) <==> Recoverable(s)
  {
    if Recoverable(s) {
      RecoverableIsDeleted(s);
    } else {
      NotRecoverableIsSilent(s);
      forall path: seq<State> | IsPath(path) && path[0] == s
        ensures !path[|path| - 1].deleted
      {
        SilentForever(path, |path| - 1);
      }
    }
  }

  /** Whenever the daemon is down, whatever has been sent: recovery can delete the session exactly when
      it finds what it needs before a start frame, or after one. */
  lemma DownIsReapedExactly(run: seq<State>)
    requires IsRun(run)
    requires var s := run[|run| - 1]; s.daemon.Down? && !s.deleted && s.disk.record.Some?
    ensures var s := run[|run| - 1];
            CanBeDeleted(s) <==> if s.startsSent == 0 then Reapable(s) else Recoverable(s)
  {
    var s := run[|run| - 1];
    RunKeepsInv(run, |run| - 1);
    assert s.startsSent <= 1;
    hide Inv, Reapable, Recoverable, CanBeDeleted;
    if s.startsSent == 0 { CrashIsReapedExactly(s); } else { CrashIsRecoveredExactly(s); }
  }

  // ----- Sessions do run -----

  ghost predicate Leads(s: State, t: State) {
    exists path: seq<State> :: IsPath(path) && path[0] == s && path[|path| - 1] == t
  }

  lemma LeadsNowhere(s: State)
    ensures Leads(s, s)
  {
    var path := [s];
    assert IsPath(path) && path[0] == s && path[|path| - 1] == s;
  }

  lemma LeadsOn(s: State, t: State, a: Action)
    requires Leads(s, t) && Enabled(t, a)
    ensures Leads(s, Apply(t, a))
  {
    var u := Apply(t, a);
    assert Next(t, u);
    hide Next, Apply, Enabled;
    var path: seq<State> :| IsPath(path) && path[0] == s && path[|path| - 1] == t;
    var longer := path + [u];
    forall i | 0 <= i < |longer| - 1 ensures Next(longer[i], longer[i + 1]) {
      if i < |path| - 1 { assert longer[i] == path[i] && longer[i + 1] == path[i + 1]; }
    }
    assert longer[0] == s && longer[|longer| - 1] == u;
  }

  /** From the start a session can come to run its command under a record that says so. */
  lemma SessionCanRun(s: State) returns (t: State)
    requires Init(s)
    ensures Leads(s, t) && t.child.Alive? && t.daemon.Up? && t.daemon.record.Some?
    ensures t.disk.record == t.daemon.record && t.daemon.record.value.status.Running? && t.worker.Hosting?
    ensures t.daemon.listed && t.daemon.client && !t.deleted && t.startsSent == 1
  {
    LeadsNowhere(s);
    t := ReachesWorker(s);
    t := ReachesStart(s, t);
  }

  lemma ReachesWorker(s: State) returns (t: State)
    requires Init(s)
    ensures t.daemon.Up? && t.daemon.client && !t.deleted && t.startsSent == 0 && t.disk.descriptor == Some(s.self)
    ensures Leads(s, t) && At(t, BeforeReference) && t.daemon.listed && t.worker.Waiting? &&
            t.pipe == Pipe(true, [], false) && t.child.NotStarted?
  {
    hide Leads;
    t := ReachesAuthority(s);
    LeadsOn(s, t, Spawn(SpawnWorker(Captured)));
    t := Apply(t, Spawn(SpawnWorker(Captured)));
    LeadsOn(s, t, Spawn(SendBootstrap(true, false)));
    t := Apply(t, Spawn(SendBootstrap(true, false)));
    LeadsOn(s, t, World(WorkerBoots(true)));
    t := Apply(t, World(WorkerBoots(true)));
    LeadsOn(s, t, Spawn(ReadReady(true, true, false)));
    t := Apply(t, Spawn(ReadReady(true, true, false)));
  }

  lemma ReachesStart(s: State, ready: State) returns (t: State)
    requires ready.daemon.Up? && ready.daemon.client && !ready.deleted && ready.startsSent == 0
    requires Leads(s, ready) && At(ready, BeforeReference) && ready.daemon.listed && ready.worker.Waiting?
    requires ready.pipe == Pipe(true, [], false) && ready.child.NotStarted?
    ensures Leads(s, t) && t.child.Alive? && t.daemon.Up? && t.daemon.record.Some?
    ensures t.disk.record == t.daemon.record && t.daemon.record.value.status.Running? && t.worker.Hosting?
    ensures t.daemon.listed && t.daemon.client && !t.deleted && t.startsSent == 1
  {
    hide Leads;
    t := ready;
    LeadsOn(s, t, Spawn(PersistReference(Ok)));
    t := Apply(t, Spawn(PersistReference(Ok)));
    LeadsOn(s, t, Spawn(PersistAttempt(Ok)));
    t := Apply(t, Spawn(PersistAttempt(Ok)));
    LeadsOn(s, t, Spawn(SendStart(true, false)));
    t := Apply(t, Spawn(SendStart(true, false)));
    LeadsOn(s, t, World(ReadControl));
    t := Apply(t, World(ReadControl));
    LeadsOn(s, t, World(SpawnChild(ChildCreated)));
    t := Apply(t, World(SpawnChild(ChildCreated)));
    LeadsOn(s, t, Spawn(StartResult(true, false, Ok)));
    t := Apply(t, Spawn(StartResult(true, false, Ok)));
  }

  // ----- The crashes that are never cleaned up after -----

  lemma LeadsKeepsInv(s: State, t: State)
    requires Init(s) && Leads(s, t)
    ensures Inv(t)
  {
    hide Inv, Next;
    var path: seq<State> :| IsPath(path) && path[0] == s && path[|path| - 1] == t;
    RunKeepsInv(path, |path| - 1);
  }

  lemma CrashStrands(s: State, t: State)
    requires Init(s) && Leads(s, t) && CrashedBeforeStart(t) && !Reapable(t)
    ensures !CanBeDeleted(t)
  {
    hide Leads, CrashedBeforeStart, Reapable, CanBeDeleted, Inv;
    LeadsKeepsInv(s, t);
    CrashIsReapedExactly(t);
  }

  lemma ReachesAuthority(s: State) returns (t: State)
    requires Init(s)
    ensures Leads(s, t) && At(t, BeforeSpawn) && t.worker.Unspawned? && !t.deleted && t.startsSent == 0
    ensures t.disk.record == t.daemon.record && t.disk.prestartReceipt.None? && t.pipe == Pipe(false, [], false)
    ensures t.daemon.listed && t.child.NotStarted? && SameSession(s, t)
    ensures t.disk.record.value.startAttempted == Some(false) && t.disk.record.value.prestart.Some?
  {
    hide Leads;
    LeadsNowhere(s);
    t := s;
    LeadsOn(s, t, Spawn(WriteFirst(Ok)));
    t := Apply(t, Spawn(WriteFirst(Ok)));
    LeadsOn(s, t, Spawn(PersistAuthority(Ok)));
    t := Apply(t, Spawn(PersistAuthority(Ok)));
  }

  /** The authority is on disk, and the daemon dies before it spawns the worker. */
  lemma CrashBeforeSpawnStrands(s: State) returns (t: State)
    requires Init(s)
    ensures Leads(s, t) && CrashedBeforeStart(t) && !CanBeDeleted(t)
    ensures t.worker.Unspawned? && t.disk.record.value.startAttempted == Some(false)
  {
    hide Leads, CanBeDeleted;
    t := ReachesAuthority(s);
    LeadsOn(s, t, Manage(Crash));
    t := Apply(t, Manage(Crash));
    CrashStrands(s, t);
  }

  /** The worker is spawned, and the daemon dies before it has sent the bootstrap. */
  lemma CrashBeforeBootstrapStrands(s: State) returns (t: State)
    requires Init(s)
    ensures Leads(s, t) && CrashedBeforeStart(t) && !CanBeDeleted(t)
    ensures t.worker.Booting? && t.disk.record.value.startAttempted == Some(false)
  {
    hide Leads, CanBeDeleted;
    t := ReachesAuthority(s);
    LeadsOn(s, t, Spawn(SpawnWorker(Captured)));
    t := Apply(t, Spawn(SpawnWorker(Captured)));
    LeadsOn(s, t, Manage(Crash));
    t := Apply(t, Manage(Crash));
    CrashStrands(s, t);
  }

  /** The worker dies before it has written its receipt, and then the daemon. */
  lemma DeadWorkerStrands(s: State) returns (t: State)
    requires Init(s)
    ensures Leads(s, t) && CrashedBeforeStart(t) && !CanBeDeleted(t)
    ensures t.worker.Gone? && t.disk.record.value.startAttempted == Some(false)
  {
    hide Leads, CanBeDeleted;
    t := ReachesAuthority(s);
    LeadsOn(s, t, Spawn(SpawnWorker(Captured)));
    t := Apply(t, Spawn(SpawnWorker(Captured)));
    LeadsOn(s, t, World(WorkerDies));
    t := Apply(t, World(WorkerDies));
    LeadsOn(s, t, Manage(Crash));
    t := Apply(t, Manage(Crash));
    CrashStrands(s, t);
  }

  /** The attempt is persisted, and the daemon dies before it sends the start frame. */
  lemma CrashBeforeFrameStrands(s: State) returns (t: State)
    requires Init(s)
    ensures Leads(s, t) && CrashedBeforeStart(t) && !CanBeDeleted(t)
    ensures t.worker.Waiting? && t.disk.record.value.startAttempted == Some(true)
  {
    hide Leads, CanBeDeleted;
    t := ReachesWorker(s);
    LeadsOn(s, t, Spawn(PersistReference(Ok)));
    t := Apply(t, Spawn(PersistReference(Ok)));
    LeadsOn(s, t, Spawn(PersistAttempt(Ok)));
    t := Apply(t, Spawn(PersistAttempt(Ok)));
    LeadsOn(s, t, Manage(Crash));
    t := Apply(t, Manage(Crash));
    CrashStrands(s, t);
  }

  /** The daemon dies before the authority is persisted, the next one fails to delete the session at
      boot, finds no worker and records the session as lost, and dies as well. */
  lemma FailedBootDeletionStrands(s: State) returns (t: State)
    requires Init(s)
    ensures Leads(s, t) && CrashedBeforeStart(t) && !CanBeDeleted(t)
    ensures t.worker.Unspawned? && t.disk.record.value.startAttempted.None? && t.disk.record.value.status.Lost?
  {
    hide Leads, CanBeDeleted;
    LeadsNowhere(s);
    t := s;
    LeadsOn(s, t, Spawn(WriteFirst(Ok)));
    t := Apply(t, Spawn(WriteFirst(Ok)));
    LeadsOn(s, t, Manage(Crash));
    t := Apply(t, Manage(Crash));
    LeadsOn(s, t, Manage(Boot(false)));
    t := Apply(t, Manage(Boot(false)));
    LeadsOn(s, t, Manage(Relabel(Lost, false, false)));
    t := Apply(t, Manage(Relabel(Lost, false, false)));
    LeadsOn(s, t, Manage(PersistNow(Ok)));
    t := Apply(t, Manage(PersistNow(Ok)));
    LeadsOn(s, t, Manage(Crash));
    t := Apply(t, Manage(Crash));
    CrashStrands(s, t);
  }

  lemma CrashSilences(s: State, t: State)
    requires Init(s) && Leads(s, t) && CrashedAfterStart(t) && !Recoverable(t)
    ensures !CanBeDeleted(t)
  {
    hide Leads, CrashedAfterStart, Recoverable, CanBeDeleted, Inv;
    LeadsKeepsInv(s, t);
    CrashIsRecoveredExactly(t);
  }

  /** A child that may be alive leaves only its worker to ask. */
  lemma AliveNeedsWorker(t: State)
    requires Inv(t) && CrashedAfterStart(t) && t.child.Alive?
    ensures Recoverable(t) ==> t.disk.descriptor == Some(t.self) && t.worker.Hosting?
  {
    assert RecordOk(t, t.disk.record.value);
  }

  /** The worker of a running command dies, and then the daemon. */
  lemma DeadHostStrands(s: State) returns (t: State)
    requires Init(s)
    ensures Leads(s, t) && CrashedAfterStart(t) && !CanBeDeleted(t)
    ensures t.worker.Gone? && t.disk.record.value.status.Running?
  {
    hide Leads, CanBeDeleted, Recoverable, Inv;
    t := SessionCanRun(s);
    LeadsOn(s, t, World(WorkerDies));
    t := Apply(t, World(WorkerDies));
    LeadsOn(s, t, Manage(Crash));
    t := Apply(t, Manage(Crash));
    LeadsKeepsInv(s, t);
    AliveNeedsWorker(t);
    CrashSilences(s, t);
  }

  /** The daemon dies, and the descriptor of the worker that still hosts the command is lost. */
  lemma LostDescriptorStrands(s: State) returns (t: State)
    requires Init(s)
    ensures Leads(s, t) && CrashedAfterStart(t) && !CanBeDeleted(t)
    ensures t.worker.Hosting? && t.disk.descriptor.None?
  {
    hide Leads, CanBeDeleted, Recoverable, Inv;
    t := SessionCanRun(s);
    LeadsOn(s, t, Manage(Crash));
    t := Apply(t, Manage(Crash));
    var left := t.disk.(descriptor := None);
    LeadsOn(s, t, World(FilesVanish(left)));
    t := Apply(t, World(FilesVanish(left)));
    LeadsKeepsInv(s, t);
    AliveNeedsWorker(t);
    CrashSilences(s, t);
  }

  /** A conversation's session ends with all its evidence on disk, its worker leaves, and the daemon
      dies before it has deleted the session. */
  lemma EndedConversationStrands(s: State) returns (t: State)
    requires Init(s) && s.conversation
    ensures Leads(s, t) && CrashedAfterStart(t) && !CanBeDeleted(t)
    ensures t.child.Exited? && TerminalDirectChild(t.disk.record.value, t.darwin)
  {
    hide Leads, CanBeDeleted, Inv;
    t := SessionCanRun(s);
    t := EndsOnDisk(s, t);
    LeadsOn(s, t, World(WorkerLeaves));
    t := Apply(t, World(WorkerLeaves));
    LeadsOn(s, t, Manage(Crash));
    t := Apply(t, Manage(Crash));
    SameThroughout(s, t);
    CrashSilences(s, t);
  }

  lemma EndsOnDisk(s: State, running: State) returns (t: State)
    requires Leads(s, running) && running.child.Alive? && running.worker.Hosting?
    requires Owns(running) && running.daemon.client && !running.deleted && running.startsSent == 1
    ensures Leads(s, t) && t.child.Exited? && t.worker.Hosting? && t.daemon.Up? && !t.deleted && t.startsSent == 1
    ensures t.disk.record.Some? && t.disk.record.value.status.Finished?
    ensures TerminalDirectChild(t.disk.record.value, t.darwin)
  {
    hide Leads;
    var reply := Snapshot(false, true, true, true);
    t := running;
    LeadsOn(s, t, World(ChildExits));
    t := Apply(t, World(ChildExits));
    LeadsOn(s, t, World(SeeExit));
    t := Apply(t, World(SeeExit));
    LeadsOn(s, t, Manage(AskWorker(reply)));
    t := Apply(t, Manage(AskWorker(reply)));
    LeadsOn(s, t, Manage(ApplyReply(reply, Finished)));
    t := Apply(t, Manage(ApplyReply(reply, Finished)));
    LeadsOn(s, t, Manage(PersistNow(Ok)));
    t := Apply(t, Manage(PersistNow(Ok)));
  }

  lemma SameThroughout(s: State, t: State)
    requires Leads(s, t)
    ensures SameSession(s, t)
  {
    hide Next;
    var path: seq<State> :| IsPath(path) && path[0] == s && path[|path| - 1] == t;
    SameAlong(path, |path| - 1);
  }

  lemma {:induction false} SameAlong(path: seq<State>, i: nat)
    requires IsPath(path) && i < |path|
    ensures SameSession(path[0], path[i])
  {
    hide Apply, Enabled;
    if i > 0 {
      SameAlong(path, i - 1);
      assert Next(path[i - 1], path[i]);
      var a :| Enabled(path[i - 1], a) && path[i] == Apply(path[i - 1], a);
      SameAfter(path[i - 1], a);
    }
  }

  lemma SameAfter(s: State, a: Action)
    requires Enabled(s, a)
    ensures SameSession(s, Apply(s, a))
  {
    hide SpawnApply, DaemonApply, WorldApply, SameSession;
    match a
    case Spawn(step) => SpawnLeavesChild(s, step);
    case Manage(step) => DaemonLeavesChild(s, step);
    case World(step) => WorldLeavesSession(s, step);
  }

  lemma WorldLeavesSession(s: State, a: WorldStep)
    requires WorldEnabled(s, a)
    ensures SameSession(s, WorldApply(s, a))
  {
  }

  /** And a session that runs can be deleted once its child has exited. */
  lemma RunningCanEnd(s: State) returns (t: State)
    requires s.child.Alive? && s.worker.Hosting? && Owns(s) && s.daemon.listed && s.daemon.client
    ensures Leads(s, t) && t.deleted && t.child.Exited?
  {
    hide Leads;
    LeadsNowhere(s);
    t := s;
    var reply := Snapshot(false, true, true, true);
    LeadsOn(s, t, World(ChildExits));
    t := Apply(t, World(ChildExits));
    LeadsOn(s, t, World(SeeExit));
    t := Apply(t, World(SeeExit));
    LeadsOn(s, t, Manage(AskWorker(reply)));
    t := Apply(t, Manage(AskWorker(reply)));
    LeadsOn(s, t, Manage(ApplyReply(reply, Finished)));
    t := Apply(t, Manage(ApplyReply(reply, Finished)));
    LeadsOn(s, t, Manage(Decide(ByTerminalRecord)));
    t := Apply(t, Manage(Decide(ByTerminalRecord)));
    LeadsOn(s, t, Manage(Delete));
    t := Apply(t, Manage(Delete));
  }
}
