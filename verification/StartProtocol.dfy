/** The crash-safe start, recovery and deletion protocol of one session.

The daemon, the session's worker, the disk, the control pipe and the child are one state; a
step is one action of one party, and the daemon may crash and restart between any two. Tokens
are opaque, fingerprints are injective, and an atomic file write is one step that may report a
failure whether or not it took effect. A foreign party may put any file next to the session's
own, as long as it does not know the session's token.
 */
module StartProtocol {
  import opened Options

  const PROTOCOL: nat := 5

  type Token = nat

  datatype Fingerprint = Fingerprint(token: Token)

  datatype Authority = Authority(workerId: nat, fingerprint: Fingerprint, protocol: nat)

  datatype Reference = Reference(
    pid: nat, startIdentity: nat, processIdentity: nat, endpoint: nat, fingerprint: Fingerprint, protocol: nat)

  datatype Descriptor = Descriptor(
    pid: nat, startIdentity: nat, processIdentity: nat, endpoint: nat, token: Token, protocol: nat)

  datatype PrestartReceipt = PrestartReceipt(
    version: nat, isNoChild: bool, workerId: nat, workerPid: nat, processIdentity: nat,
    endpoint: nat, protocol: nat, token: Token)

  datatype SpawnReceipt = SpawnReceipt(
    workerId: nat, workerPid: nat, processIdentity: nat, token: Token,
    childStarted: bool, childPid: Option<nat>, confirmed: bool)

  /** What a failed start found out about the child. */
  datatype Cleanup = Cleanup(confirmed: bool, childStarted: Option<bool>)

  datatype Status = Starting | Running | Stopping | Finished | SpawnFailed | Lost

  /** The fields of a session record that recovery and deletion look at. */
  datatype Record = Record(
    status: Status, worker: Option<Reference>, prestart: Option<Authority>, startAttempted: Option<bool>,
    spawnError: Option<Cleanup>, confirmed: bool, directExited: bool, drained: bool)

  datatype Snapshot = Snapshot(running: bool, confirmed: bool, directExited: bool, drained: bool)

  datatype Disk = Disk(
    record: Option<Record>, prestartReceipt: Option<PrestartReceipt>,
    spawnReceipt: Option<SpawnReceipt>, descriptor: Option<Descriptor>)

  datatype Frame = StartFrame | RollbackFrame

  datatype Pipe = Pipe(bootstrap: bool, frames: seq<Frame>, closed: bool)

  /** Where the worker process stands. */
  datatype WorkerPc = Unspawned | Booting | Waiting | Accepted | Refused | SpawnFailing | Hosting | Gone

  datatype Child = NotStarted | Alive | Exited

  /** Where the daemon's spawn operation stands; Idle when there is none. */
  datatype SpawnPc =
    | BeforeRecord
    | BeforeAuthority
    | BeforeSpawn
    | BeforeBootstrap
    | BeforeReady
    | BeforeReference
    | BeforeAttempt
    | BeforeStart
    | BeforeResult
    | StartFailed
    | RollingBack
    | AwaitRollback(ofStart: bool)
    | Failing(noWorker: bool, cleanup: Cleanup, reference: Option<Reference>)
    | DeletingUnspawned
    | Idle

  datatype Daemon =
    | Down
    | Up(record: Option<Record>, listed: bool, pc: SpawnPc, deleting: bool, replies: set<Snapshot>, client: bool)

  /** `self` is what the worker of this session is, or will be; `darwin` is the platform, and
      `conversation` whether the session belongs to a conversation. A daemon has a `client` once it
      has reached the worker. The last three fields are history. */
  datatype State = State(
    self: Descriptor, darwin: bool, conversation: bool,
    daemon: Daemon, disk: Disk, pipe: Pipe, worker: WorkerPc, rootExited: bool, child: Child,
    spawns: nat, startsSent: nat, deleted: bool)

  // ----- The checks the daemon makes -----

  function ReferenceTo(d: Descriptor): Reference {
    Reference(d.pid, d.startIdentity, d.processIdentity, d.endpoint, Fingerprint(d.token), d.protocol)
  }

  function AuthorityFor(d: Descriptor): Authority {
    Authority(d.startIdentity, Fingerprint(d.token), PROTOCOL)
  }

  datatype Proof = ByReference(reference: Reference) | ByAuthority(authority: Authority)

  predicate VerifiedPrestart(r: PrestartReceipt, proof: Proof) {
    && r.version == 1 && r.isNoChild && r.protocol == PROTOCOL
    && match proof
       case ByAuthority(a) =>
         r.workerId == a.workerId && a.protocol == PROTOCOL && Fingerprint(r.token) == a.fingerprint
       case ByReference(w) =>
         && r.workerId == w.startIdentity && w.protocol == PROTOCOL && Fingerprint(r.token) == w.fingerprint
         && r.workerPid == w.pid && r.processIdentity == w.processIdentity && r.endpoint == w.endpoint
  }

  predicate DescriptorMatches(d: Descriptor, w: Reference) {
    w.protocol == PROTOCOL && d.protocol == PROTOCOL && ReferenceTo(d) == w
  }

  predicate VerifiedNoChild(disk: Disk, w: Reference) {
    && disk.descriptor.Some? && DescriptorMatches(disk.descriptor.value, w)
    && disk.spawnReceipt.Some?
    && var r := disk.spawnReceipt.value;
       && r.workerId == w.startIdentity && r.workerPid == w.pid && r.processIdentity == w.processIdentity
       && Fingerprint(r.token) == w.fingerprint
       && !r.childStarted && r.childPid.None? && r.confirmed
  }

  predicate NoChild(c: Cleanup) {
    c.confirmed && c.childStarted == Some(false)
  }

  predicate NoChildSpawnFailure(r: Record) {
    r.worker.None? && r.prestart.None? && r.spawnError.Some? && NoChild(r.spawnError.value)
  }

  function PrestartProof(r: Record): Option<Proof> {
    if r.startAttempted == Some(false) && (r.status.Starting? || r.status.Lost? || r.status.SpawnFailed?) then
      if r.worker.Some? then Some(ByReference(r.worker.value))
      else if r.prestart.Some? then Some(ByAuthority(r.prestart.value))
      else None
    else None
  }

  predicate PostStartEligible(r: Record) {
    r.worker.Some? && r.startAttempted == Some(true) && (r.status.SpawnFailed? || r.status.Lost?)
  }

  predicate TerminalDirectChild(r: Record, darwin: bool) {
    r.confirmed && r.directExited && (r.drained || darwin)
  }

  predicate Active(status: Status) {
    status.Starting? || status.Running? || status.Stopping?
  }

  predicate TerminalProof(s: Snapshot, darwin: bool) {
    s.confirmed && !s.running && s.directExited && (s.drained || darwin)
  }

  /** The authenticated reading of `spawn-failure.json` by the daemon that owns the worker. */
  function ReceiptCleanup(disk: Disk, self: Descriptor): Option<Cleanup> {
    if disk.spawnReceipt.None? then None
    else
      var r := disk.spawnReceipt.value;
      if r.workerId == self.startIdentity && r.workerPid == self.pid && r.processIdentity == self.processIdentity
         && r.token == self.token && r.childStarted == r.childPid.Some?
      then Some(Cleanup(r.confirmed, Some(r.childStarted)))
      else None
  }

  // ----- Actions -----

  datatype Write = Ok | FailedClean | FailedApplied

  datatype Spawned = Captured | Uncaptured | NotSpawned

  datatype Reason =
    | ByNoChildFailure
    | ByPrestartReceipt
    | BySpawnReceipt
    | ByLostExit
    | ByShutdown(reply: Snapshot)
    | ByTerminalRecord

  datatype ChildSpawn = ChildCreated | ChildRefused | ChildUnverified(pid: nat, confirmed: bool)

  /** The spawn operation of the daemon. */
  datatype SpawnStep =
    | WriteFirst(w: Write)
    | PrepareFails
    | PersistAuthority(w: Write)
    | SpawnWorker(spawned: Spawned)
    | SendBootstrap(sent: bool, cleanupConfirmed: bool)
    | ReadReady(ready: bool, described: bool, cleanupConfirmed: bool)
    | PersistReference(w: Write)
    | PersistAttempt(w: Write)
    | SendStart(sent: bool, failed: bool)
    | StartResult(answered: bool, drained: bool, w: Write)
    | ReadFailureReceipt
    | SendRollback(sent: bool)
    | ReadRollback(acknowledged: bool)
    | RecordFailure(accepted: bool, w: Write)
    | DeleteUnspawned

  /** The daemon at any time. */
  datatype DaemonStep =
    | Reconnect
    | AskWorker(reply: Snapshot)
    | ApplyReply(reply: Snapshot, status: Status)
    | Relabel(status: Status, confirmed: bool, keepError: bool)
    | PersistNow(w: Write)
    | Decide(reason: Reason)
    | Delete
    | DeleteFails(kept: Disk)
    | Crash
    | Boot(deletes: bool)

  /** The worker, its child, and the rest of the world. */
  datatype WorldStep =
    | WorkerBoots(ok: bool)
    | ReadControl
    | WriteNoChild(ok: bool)
    | SpawnChild(result: ChildSpawn)
    | WriteSpawnFailure(ok: bool)
    | AbandonChild(pid: nat, confirmed: bool)
    | SeeExit
    | WorkerLeaves
    | WorkerDies
    | ChildExits
    | ForeignPrestart(prestart: PrestartReceipt)
    | ForeignSpawn(failure: SpawnReceipt)
    | ForeignDescriptor(descriptor: Descriptor)
    | FilesVanish(left: Disk)

  datatype Action = Spawn(spawn: SpawnStep) | Manage(manage: DaemonStep) | World(world: WorldStep)

  const NO_DISK := Disk(None, None, None, None)
  const NO_CHILD := Cleanup(true, Some(false))

  function Persist(disk: Disk, r: Record, w: Write): Disk {
    if w.FailedClean? then disk else disk.(record := Some(r))
  }

  predicate SubDisk(a: Disk, b: Disk) {
    && (a.record.None? || a.record == b.record)
    && (a.prestartReceipt.None? || a.prestartReceipt == b.prestartReceipt)
    && (a.spawnReceipt.None? || a.spawnReceipt == b.spawnReceipt)
    && (a.descriptor.None? || a.descriptor == b.descriptor)
  }

  predicate Owns(s: State) {
    s.daemon.Up? && s.daemon.record.Some?
  }

  predicate At(s: State, pc: SpawnPc) {
    Owns(s) && s.daemon.pc == pc
  }

  /** The daemon's record and position after one of its own steps. */
  function Moved(s: State, r: Record, pc: SpawnPc): State
    requires s.daemon.Up?
  {
    s.(daemon := s.daemon.(record := Some(r), pc := pc))
  }

  // ----- The spawn operation -----

  predicate SpawnEnabled(s: State, a: SpawnStep) {
    match a
    case WriteFirst(_) => At(s, BeforeRecord)
    case PrepareFails => At(s, BeforeAuthority)
    case PersistAuthority(_) => At(s, BeforeAuthority)
    case SpawnWorker(_) => At(s, BeforeSpawn)
    case SendBootstrap(_, _) => At(s, BeforeBootstrap)
    case ReadReady(ready, described, _) =>
      // A descriptor is used only when it carries the session's own identity and token.
      At(s, BeforeReady) && (ready || described ==> s.disk.descriptor == Some(s.self))
    case PersistReference(_) => At(s, BeforeReference)
    case PersistAttempt(_) => At(s, BeforeAttempt)
    case SendStart(sent, failed) => At(s, BeforeStart) && (sent || failed)
    case StartResult(_, _, _) => At(s, BeforeResult)
    case ReadFailureReceipt => At(s, StartFailed) && ReceiptCleanup(s.disk, s.self).Some?
    case SendRollback(_) => At(s, RollingBack) || (At(s, StartFailed) && ReceiptCleanup(s.disk, s.self).None?)
    case ReadRollback(_) => Owns(s) && s.daemon.pc.AwaitRollback?
    case RecordFailure(accepted, _) =>
      // A loss is accepted in every state; a failed spawn may come too late.
      Owns(s) && s.daemon.pc.Failing? && (accepted || NoChild(s.daemon.pc.cleanup))
    case DeleteUnspawned => At(s, DeletingUnspawned)
  }

  /** `prepare` gives up after its worker was spawned: the control pipe is closed. */
  function PrepareGivesUp(s: State, confirmed: bool, reference: Option<Reference>): State
    requires Owns(s)
  {
    var c := ReceiptCleanup(s.disk, s.self);
    Moved(s, s.daemon.record.value,
          Failing(false, if c.Some? then c.value else Cleanup(confirmed, None), reference))
    .(pipe := s.pipe.(closed := true))
  }

  function RollbackCleanup(s: State, acknowledged: bool): Cleanup {
    if acknowledged then Cleanup(true, None)
    else if s.disk.prestartReceipt.Some? &&
        VerifiedPrestart(s.disk.prestartReceipt.value, ByReference(ReferenceTo(s.self)))
    then NO_CHILD
    else Cleanup(false, None)
  }

  function SpawnApply(s: State, a: SpawnStep): State
    requires SpawnEnabled(s, a)
  {
    var r := s.daemon.record.value;
    match a
    case WriteFirst(w) =>
      if w.Ok? then Moved(s, r, BeforeAuthority).(disk := Persist(s.disk, r, w))
      else s.(daemon := s.daemon.(listed := false, pc := Idle), disk := Persist(s.disk, r, w))
    case PrepareFails => Moved(s, r, Failing(true, NO_CHILD, None))
    case PersistAuthority(w) =>
      var r' := r.(prestart := Some(AuthorityFor(s.self)), startAttempted := Some(false));
      Moved(s, r', if w.Ok? then BeforeSpawn else Failing(true, NO_CHILD, None)).(disk := Persist(s.disk, r', w))
    case SpawnWorker(spawned) =>
      (match spawned
       case Captured => Moved(s, r, BeforeBootstrap).(worker := Booting)
       case Uncaptured => Moved(s, r, Failing(true, NO_CHILD, None)).(worker := Booting)
       case NotSpawned => Moved(s, r, Failing(true, NO_CHILD, None)))
    case SendBootstrap(sent, confirmed) =>
      if sent then Moved(s, r, BeforeReady).(pipe := s.pipe.(bootstrap := true))
      else PrepareGivesUp(s, confirmed, None)
    case ReadReady(ready, described, confirmed) =>
      if ready then s.(daemon := s.daemon.(pc := BeforeReference, client := true))
      else PrepareGivesUp(s, confirmed, if described then Some(ReferenceTo(s.self)) else None)
    case PersistReference(w) =>
      var r' := r.(worker := Some(ReferenceTo(s.self)), startAttempted := Some(false));
      Moved(s, r', if w.Ok? then BeforeAttempt else RollingBack).(disk := Persist(s.disk, r', w))
    case PersistAttempt(w) =>
      var r' := r.(startAttempted := Some(true));
      var s' := s.(disk := Persist(s.disk, r', w));
      if w.Ok? then Moved(s', r', BeforeStart) else Moved(s', r.(startAttempted := Some(false)), RollingBack)
    case SendStart(sent, failed) =>
      var s' := Moved(s, r, if failed then StartFailed else BeforeResult);
      if sent then s'.(pipe := s.pipe.(frames := s.pipe.frames + [StartFrame]), startsSent := s.startsSent + 1) else s'
    case StartResult(answered, drained, w) =>
      if answered then
        var r' := r.(status := Running, drained := drained);
        Moved(s, r', if w.Ok? then Idle else RollingBack).(disk := Persist(s.disk, r', w))
      else Moved(s, r, StartFailed)
    case ReadFailureReceipt =>
      Moved(s, r, Failing(false, ReceiptCleanup(s.disk, s.self).value, None))
    case SendRollback(sent) =>
      var s' := Moved(s, r, AwaitRollback(s.daemon.pc.StartFailed?));
      if sent then s'.(pipe := s.pipe.(frames := s.pipe.frames + [RollbackFrame], closed := true)) else s'
    case ReadRollback(acknowledged) =>
      var c := ReceiptCleanup(s.disk, s.self);
      Moved(s, r, Failing(false, if s.daemon.pc.ofStart && c.Some? then c.value else RollbackCleanup(s, acknowledged),
                          None))
    case RecordFailure(accepted, w) =>
      var f := s.daemon.pc;
      var r0 := if f.reference.Some? then r.(worker := f.reference, startAttempted := Some(false)) else r;
      var r' := r0.(confirmed := f.cleanup.confirmed, spawnError := Some(f.cleanup),
                    status := if !accepted then r.status else if NoChild(f.cleanup) then SpawnFailed else Lost);
      Moved(s, r', if w.Ok? && f.noWorker then DeletingUnspawned else Idle).(disk := Persist(s.disk, r', w))
    case DeleteUnspawned =>
      s.(daemon := s.daemon.(pc := Idle, deleting := true))
  }

  // ----- The daemon at any time -----

  predicate DecideEnabled(s: State, reason: Reason)
    requires Owns(s)
  {
    var r := s.daemon.record.value;
    match reason
    case ByNoChildFailure => NoChildSpawnFailure(r)
    case ByPrestartReceipt =>
      PrestartProof(r).Some? && s.disk.prestartReceipt.Some? &&
          VerifiedPrestart(s.disk.prestartReceipt.value, PrestartProof(r).value)
    case BySpawnReceipt => PostStartEligible(r) && VerifiedNoChild(s.disk, r.worker.value)
    case ByLostExit => r.status.Lost? && TerminalDirectChild(r, s.darwin)
    case ByShutdown(reply) => r.status.Lost? && reply in s.daemon.replies && TerminalProof(reply, s.darwin)
    case ByTerminalRecord =>
      // A conversation's worker has to be asked again by this daemon.
      && !Active(r.status) && TerminalDirectChild(r, s.darwin)
      && (s.conversation && r.worker.Some? ==> s.daemon.client)
  }

  /** The transitions that need no answer from the worker: a loss, a stop request, or none. */
  predicate Relabels(from: Status, to: Status) {
    to.Lost? || to == from || (to.Stopping? && (from.Running? || from.Stopping?))
  }

  predicate Ended(status: Status) {
    status.Finished? || status.SpawnFailed?
  }

  /** What a relabelling may do: an ended session is left alone unless there is a client, and so is the
      confirmation of its end. */
  predicate RelabelAllowed(r: Record, status: Status, confirmed: bool, client: bool) {
    && Relabels(r.status, status)
    && (Ended(r.status) && status.Lost? ==> client)
    && (Ended(status) ==> confirmed == r.confirmed)
    && (confirmed && !r.confirmed ==> client)
  }

  /** A reply ends a session exactly with its proof; it never starts one or fails its start. */
  predicate ReplyAllows(reply: Snapshot, status: Status, darwin: bool) {
    && (status.Running? || status.Stopping? || status.Finished? || status.Lost?)
    && (status.Finished? ==> reply.confirmed && reply.directExited && (reply.drained || darwin))
  }

  predicate DaemonEnabled(s: State, a: DaemonStep) {
    match a
    case Reconnect =>
      && Owns(s) && s.worker.Hosting? && s.daemon.record.value.worker.Some? && s.disk.descriptor.Some?
      && DescriptorMatches(s.disk.descriptor.value, s.daemon.record.value.worker.value)
    case AskWorker(reply) => Owns(s) && s.daemon.client && s.worker.Hosting? && reply.directExited == s.rootExited
    case ApplyReply(reply, status) => Owns(s) && reply in s.daemon.replies && ReplyAllows(reply, status, s.darwin)
    case Relabel(status, confirmed, _) =>
      Owns(s) && RelabelAllowed(s.daemon.record.value, status, confirmed, s.daemon.client)
    case PersistNow(_) => Owns(s)
    case Decide(reason) => Owns(s) && s.daemon.listed && DecideEnabled(s, reason)
    case Delete => Owns(s) && s.daemon.listed && s.daemon.deleting
    case DeleteFails(kept) => Owns(s) && s.daemon.listed && s.daemon.deleting && SubDisk(kept, s.disk)
    case Crash => s.daemon.Up?
    case Boot(_) => s.daemon.Down?
  }

  /** What `initialize` deletes without asking any worker. */
  predicate DeletedAtBoot(r: Record) {
    NoChildSpawnFailure(r) || (r.status.Starting? && r.worker.None? && r.prestart.None?)
  }

  function DaemonApply(s: State, a: DaemonStep): State
    requires DaemonEnabled(s, a)
  {
    match a
    case Reconnect => s.(daemon := s.daemon.(client := true))
    case AskWorker(reply) => s.(daemon := s.daemon.(replies := s.daemon.replies + {reply}))
    case ApplyReply(reply, status) =>
      var r := s.daemon.record.value;
      s.(daemon := s.daemon.(record := Some(r.(status := status, confirmed := reply.confirmed,
                                               directExited := reply.directExited, drained := reply.drained,
                                                   spawnError := None))))
    case Relabel(status, confirmed, keepError) =>
      var r := s.daemon.record.value;
      s.(daemon := s.daemon.(record := Some(r.(status := status, confirmed := confirmed,
                                               spawnError := if keepError then r.spawnError else None))))
    case PersistNow(w) => s.(disk := Persist(s.disk, s.daemon.record.value, w))
    case Decide(_) => s.(daemon := s.daemon.(deleting := true))
    case Delete => s.(disk := NO_DISK, daemon := s.daemon.(listed := false, deleting := false), deleted := true)
    case DeleteFails(kept) => s.(disk := kept, daemon := s.daemon.(deleting := false))
    case Crash => s.(daemon := Down, pipe := s.pipe.(closed := true))
    case Boot(deletes) =>
      if s.disk.record.Some? && deletes && DeletedAtBoot(s.disk.record.value)
      then s.(disk := NO_DISK, daemon := Up(None, false, Idle, false, {}, false), deleted := true)
      else s.(daemon := Up(s.disk.record, s.disk.record.Some?, Idle, false, {}, false))
  }

  // ----- The worker and the rest of the world -----

  predicate WorldEnabled(s: State, a: WorldStep) {
    match a
    case WorkerBoots(ok) => s.worker.Booting? && (s.pipe.bootstrap || (s.pipe.closed && !ok))
    case ReadControl => s.worker.Waiting? && (s.pipe.frames != [] || s.pipe.closed)
    case WriteNoChild(_) => s.worker.Refused?
    case SpawnChild(_) => s.worker.Accepted?
    case WriteSpawnFailure(_) => s.worker.SpawnFailing?
    case AbandonChild(_, _) => s.worker.Hosting?
    case SeeExit => s.worker.Hosting? && s.child.Exited?
    case WorkerLeaves => s.worker.Hosting?
    case WorkerDies => !s.worker.Unspawned?
    case ChildExits => s.child.Alive?
    case ForeignPrestart(f) => f.token != s.self.token
    case ForeignSpawn(f) => f.token != s.self.token
    case ForeignDescriptor(f) => f.token != s.self.token
    case FilesVanish(left) => SubDisk(left, s.disk) && left.record == s.disk.record
  }

  function GenuinePrestart(d: Descriptor): PrestartReceipt {
    PrestartReceipt(1, true, d.startIdentity, d.pid, d.processIdentity, d.endpoint, d.protocol, d.token)
  }

  function GenuineSpawnFailure(d: Descriptor, childPid: Option<nat>, confirmed: bool): SpawnReceipt {
    SpawnReceipt(d.startIdentity, d.pid, d.processIdentity, d.token, childPid.Some?, childPid, confirmed)
  }

  function WorldApply(s: State, a: WorldStep): State
    requires WorldEnabled(s, a)
  {
    match a
    case WorkerBoots(ok) =>
      if ok then s.(worker := Waiting, disk := s.disk.(descriptor := Some(s.self))) else s.(worker := Gone)
    case ReadControl =>
      // Exactly one control frame is read; everything but a start refuses.
      if s.pipe.frames == [] then s.(worker := Refused)
      else s.(pipe := s.pipe.(frames := s.pipe.frames[1..]),
              worker := if s.pipe.frames[0].StartFrame? then Accepted else Refused)
    case WriteNoChild(ok) =>
      s.(worker := Gone, disk := if ok then s.disk.(prestartReceipt := Some(GenuinePrestart(s.self))) else s.disk)
    case SpawnChild(result) =>
      (match result
       case ChildCreated => s.(worker := Hosting, child := Alive, spawns := s.spawns + 1)
       case ChildRefused => s.(worker := SpawnFailing)
       case ChildUnverified(pid, confirmed) =>
         s.(worker := Gone, child := Alive, spawns := s.spawns + 1,
            disk := s.disk.(spawnReceipt := Some(GenuineSpawnFailure(s.self, Some(pid), confirmed)))))
    case WriteSpawnFailure(ok) =>
      s.(worker := Gone,
         disk := if ok then s.disk.(spawnReceipt := Some(GenuineSpawnFailure(s.self, None, true))) else s.disk)
    case AbandonChild(pid, confirmed) =>
      s.(worker := Gone,
         disk := s.disk.(spawnReceipt := Some(GenuineSpawnFailure(s.self, Some(pid), confirmed)), descriptor := None))
    case SeeExit => s.(rootExited := true)
    case WorkerLeaves => s.(worker := Gone, disk := s.disk.(descriptor := None))
    case WorkerDies => s.(worker := Gone)
    case ChildExits => s.(child := Exited)
    case ForeignPrestart(f) => s.(disk := s.disk.(prestartReceipt := Some(f)))
    case ForeignSpawn(f) => s.(disk := s.disk.(spawnReceipt := Some(f)))
    case ForeignDescriptor(f) => s.(disk := s.disk.(descriptor := Some(f)))
    case FilesVanish(left) => s.(disk := left)
  }

  // ----- Runs -----

  predicate Enabled(s: State, a: Action) {
    match a
    case Spawn(step) => SpawnEnabled(s, step)
    case Manage(step) => DaemonEnabled(s, step)
    case World(step) => WorldEnabled(s, step)
  }

  function Apply(s: State, a: Action): State
    requires Enabled(s, a)
  {
    match a
    case Spawn(step) => SpawnApply(s, step)
    case Manage(step) => DaemonApply(s, step)
    case World(step) => WorldApply(s, step)
  }

  const NEW_RECORD := Record(Starting, None, None, None, None, false, false, false)

  /** A daemon about to create the session: nothing is on disk and nothing runs. */
  predicate Init(s: State) {
    && s.self.protocol == PROTOCOL
    && s.daemon == Up(Some(NEW_RECORD), true, BeforeRecord, false, {}, false)
    && s.disk == NO_DISK && s.pipe == Pipe(false, [], false)
    && s.worker.Unspawned? && s.child.NotStarted? && !s.rootExited
    && s.spawns == 0 && s.startsSent == 0 && !s.deleted
  }

  ghost predicate IsRun(states: seq<State>) {
    && states != [] && Init(states[0])
    && forall i | 0 <= i < |states| - 1 :: Next(states[i], states[i + 1])
  }

  ghost predicate Next(s: State, t: State) {
    exists a :: Enabled(s, a) && t == Apply(s, a)
  }
}
