/** The session record as the daemon holds it, and its V2 form on disk (`transition`, `writeSession`,
`toV2Session`, `fromV2Session`).

A record is an object with metadata, the state, and the root fields that repeat the state for the
rest of the daemon. The V2 form drops the root fields and keeps the state; reading it spreads the
projection of the state over the rest. An absent field and an undefined one are the same. */
module SessionStore {
  import opened Options
  import opened Lifecycle

  const VERSION: nat := 2

  datatype Field =
    | Meta(name: string)
    | RecordVersion
    | StateField
    | Status | Pid | StartedAt | ExitedAt | DidTimeOut | TerminationRequested | TerminationConfirmed | PendingCleanup
    | DirectChildExited | ExitCode | ExitSignal | ExitReasonField | Worker | WorkerPrestart | WorkerStartAttempted
    | ContainmentField | Termination | ExecOutput | StorageFailure | Diagnostics | LastWaitResult
    | LegacyTombstone | LegacyOutputCleanupPending | StreamDrain | LastKnownField

  datatype Value =
    | VStatus(status: Lifecycle.Status)
    | VFlag(flag: bool)
    | VInt(n: int)
    | VText(text: string)
    | VBlob(blob: Blob)
    | VReason(reason: ExitReason)
    | VContainment(containment: Containment)
    | VDrain(drain: Drain)
    | VKind(kind: Kind)
    | VState(state: State)

  type Object = map<Field, Value>

  /** The root fields that only repeat the state: `V2_ROOT_LIFECYCLE_FIELDS`. */
  const ROOT: set<Field> := {
    Status, Pid, StartedAt, ExitedAt, DidTimeOut, TerminationRequested, TerminationConfirmed, PendingCleanup,
    DirectChildExited, ExitCode, ExitSignal, ExitReasonField, Worker, WorkerPrestart, WorkerStartAttempted,
    ContainmentField, Termination, ExecOutput, StorageFailure, Diagnostics, LastWaitResult,
    LegacyTombstone, LegacyOutputCleanupPending, StreamDrain, LastKnownField
  }

  function TextOf(o: Option<string>): Option<Value> {
    if o.Some? then Some(VText(o.value)) else None
  }

  function BlobOf(o: Option<Blob>): Option<Value> {
    if o.Some? then Some(VBlob(o.value)) else None
  }

  function FlagOf(o: Option<bool>): Option<Value> {
    if o.Some? then Some(VFlag(o.value)) else None
  }

  /** The root field `k` of a flat view. Sessions born as V2 have no legacy fields. */
  function FieldOf(f: Flat, k: Field): Option<Value> {
    var e := f.evidence;
    match k
    case Status => Some(VStatus(f.status))
    case Pid => Some(VInt(e.pid))
    case StartedAt => TextOf(e.startedAt)
    case ExitedAt => TextOf(e.exitedAt)
    case DidTimeOut => Some(VFlag(e.timedOut))
    case TerminationRequested => Some(VFlag(e.requested))
    case TerminationConfirmed => Some(VFlag(e.confirmed))
    case PendingCleanup => if f.pendingCleanup then Some(VFlag(true)) else None
    case DirectChildExited => FlagOf(e.directExited)
    case ExitCode => if e.exitCode.Some? then Some(VInt(e.exitCode.value)) else None
    case ExitSignal => TextOf(e.exitSignal)
    case ExitReasonField => if e.exitReason.Some? then Some(VReason(e.exitReason.value)) else None
    case Worker => BlobOf(e.worker)
    case WorkerPrestart => BlobOf(e.prestart)
    case WorkerStartAttempted => FlagOf(e.startAttempted)
    case ContainmentField => if e.containment.Some? then Some(VContainment(e.containment.value)) else None
    case Termination => BlobOf(e.termination)
    case ExecOutput => BlobOf(e.execOutput)
    case StorageFailure => TextOf(e.storageFailure)
    case Diagnostics => BlobOf(e.diagnostics)
    case LastWaitResult => BlobOf(e.lastWait)
    case StreamDrain => if f.drain.Some? then Some(VDrain(f.drain.value)) else None
    case LastKnownField => if f.lastKnown.Some? then Some(VKind(f.lastKnown.value)) else None
    case _ => None
  }

  function Spread(f: Flat): Object {
    map k | k in ROOT && FieldOf(f, k).Some? :: FieldOf(f, k).value
  }

  function RootPart(o: Object): Object {
    map k | k in o && k in ROOT :: o[k]
  }

  function Rest(o: Object): Object {
    map k | k in o && k !in ROOT :: o[k]
  }

  predicate HasState(o: Object) {
    StateField in o && o[StateField].VState?
  }

  /** `toV2Session`. */
  function ToV2(o: Object): Object
    requires HasState(o)
  {
    Rest(o)[RecordVersion := VInt(VERSION)][StateField := o[StateField]]
  }

  /** `fromV2Session`. */
  function FromV2(o: Object): Object
    requires HasState(o)
  {
    (o - {StateField})[RecordVersion := VInt(VERSION)][StateField := o[StateField]] +
        Spread(Project(o[StateField].state))
  }

  /** What `validV2Session` asks of the persisted object itself. */
  predicate ValidV2(o: Object, darwin: bool) {
    && RecordVersion in o && o[RecordVersion] == VInt(VERSION)
    && (forall k | k in ROOT :: k !in o)
    && HasState(o) && ValidState(o[StateField].state, darwin)
  }

  /** The object of a record: metadata, state and flat view. */
  function Whole(meta: Object, s: State, f: Flat): Object {
    meta[RecordVersion := VInt(VERSION)][StateField := VState(s)] + Spread(f)
  }

  predicate OnlyMeta(meta: Object) {
    forall k | k in meta :: k.Meta?
  }

  // ----- The codec -----

  /** A flat view is determined by its root fields. */
  lemma SpreadIsInjective(f: Flat, g: Flat)
    requires Spread(f) == Spread(g)
    ensures f == g
  {
    hide Spread;
    SameView(f, g);
    SameTimes(f, g);
    SameExit(f, g);
    SameWorker(f, g);
  }

  lemma SameField(f: Flat, g: Flat, k: Field)
    requires Spread(f) == Spread(g) && k in ROOT
    ensures FieldOf(f, k) == FieldOf(g, k)
  {
    hide FieldOf;
    assert k in Spread(f) <==> FieldOf(f, k).Some?;
    assert k in Spread(g) <==> FieldOf(g, k).Some?;
    if k in Spread(f) { assert Spread(f)[k] == Spread(g)[k]; }
  }

  lemma SameView(f: Flat, g: Flat)
    requires Spread(f) == Spread(g)
    ensures f.status == g.status && f.pendingCleanup == g.pendingCleanup && f.drain == g.drain &&
            f.lastKnown == g.lastKnown
  {
    hide Spread;
    SameField(f, g, Status);
    SameField(f, g, PendingCleanup);
    SameField(f, g, StreamDrain);
    SameField(f, g, LastKnownField);
  }

  lemma SameTimes(f: Flat, g: Flat)
    requires Spread(f) == Spread(g)
    ensures var d, e := f.evidence, g.evidence;
            && d.pid == e.pid && d.startedAt == e.startedAt && d.exitedAt == e.exitedAt
            && d.timedOut == e.timedOut && d.requested == e.requested && d.confirmed == e.confirmed
  {
    hide Spread;
    SameField(f, g, Pid);
    SameField(f, g, StartedAt);
    SameField(f, g, ExitedAt);
    SameField(f, g, DidTimeOut);
    SameField(f, g, TerminationRequested);
    SameField(f, g, TerminationConfirmed);
  }

  lemma SameExit(f: Flat, g: Flat)
    requires Spread(f) == Spread(g)
    ensures var d, e := f.evidence, g.evidence;
            && d.directExited == e.directExited && d.exitCode == e.exitCode && d.exitSignal == e.exitSignal
            && d.exitReason == e.exitReason && d.containment == e.containment && d.termination == e.termination
  {
    hide Spread;
    SameField(f, g, DirectChildExited);
    SameField(f, g, ExitCode);
    SameField(f, g, ExitSignal);
    SameField(f, g, ExitReasonField);
    SameField(f, g, ContainmentField);
    SameField(f, g, Termination);
  }

  lemma SameWorker(f: Flat, g: Flat)
    requires Spread(f) == Spread(g)
    ensures var d, e := f.evidence, g.evidence;
            && d.worker == e.worker && d.prestart == e.prestart && d.startAttempted == e.startAttempted
            && d.execOutput == e.execOutput && d.storageFailure == e.storageFailure
            && d.diagnostics == e.diagnostics && d.lastWait == e.lastWait
  {
    hide Spread;
    SameField(f, g, Worker);
    SameField(f, g, WorkerPrestart);
    SameField(f, g, WorkerStartAttempted);
    SameField(f, g, ExecOutput);
    SameField(f, g, StorageFailure);
    SameField(f, g, Diagnostics);
    SameField(f, g, LastWaitResult);
  }

  /** Reading back what was written gives the object itself exactly when its version is current and
      its root fields are the projection of its state: nothing else is lost or changed. */
  lemma ReadsBackExactly(o: Object)
    requires HasState(o)
    ensures FromV2(ToV2(o)) == o <==>
            RecordVersion in o && o[RecordVersion] == VInt(VERSION) &&
                RootPart(o) == Spread(Project(o[StateField].state))
  {
    var spread := Spread(Project(o[StateField].state));
    var back := FromV2(ToV2(o));
    hide Spread, Project;
    SpreadIsRoot(Project(o[StateField].state));
    assert RootPart(back) == spread;
    assert Rest(back) == Rest(o)[RecordVersion := VInt(VERSION)];
    PartsDetermine(back, o);
  }

  lemma SpreadIsRoot(f: Flat)
    ensures Spread(f).Keys <= ROOT && RecordVersion !in ROOT && StateField !in ROOT
  {
  }

  lemma PartsDetermine(a: Object, b: Object)
    ensures a == b <==> RootPart(a) == RootPart(b) && Rest(a) == Rest(b)
  {
    if RootPart(a) == RootPart(b) && Rest(a) == Rest(b) {
      assert a == RootPart(a) + Rest(a);
      assert b == RootPart(b) + Rest(b);
    }
  }

  /** A record reads back as itself exactly when its flat view is the projection of its state. */
  lemma RecordReadsBackExactly(meta: Object, s: State, f: Flat)
    requires OnlyMeta(meta)
    ensures FromV2(ToV2(Whole(meta, s, f))) == Whole(meta, s, f) <==> f == Project(s)
  {
    hide Spread, Project;
    SpreadIsRoot(f);
    var o := Whole(meta, s, f);
    assert RootPart(o) == Spread(f);
    ReadsBackExactly(o);
    if Spread(f) == Spread(Project(s)) { SpreadIsInjective(f, Project(s)); }
  }

  /** Writing what was read gives the persisted object itself. */
  lemma WritesBack(o: Object, darwin: bool)
    requires ValidV2(o, darwin)
    ensures ToV2(FromV2(o)) == o
  {
    hide Spread, Project, ValidState;
    SpreadIsRoot(Project(o[StateField].state));
  }

  /** What is written passes the validator exactly when its state does. */
  lemma WrittenIsValidExactly(o: Object, darwin: bool)
    requires HasState(o)
    ensures ValidV2(ToV2(o), darwin) <==> ValidState(o[StateField].state, darwin)
  {
    hide ValidState;
  }

  // ----- The record, as the daemon mutates it -----

  /** What no step takes away. */
  ghost predicate KeepsRecord(s: State, t: State, darwin: bool) {
    && WellFormed(t, darwin)
    && (Recorded(s).Some? ==> Recorded(t) == Recorded(s))
    && (s.terminal.Some? ==> t.terminal == s.terminal)
    && (s.kind.Cleaning? ==> t.kind.Cleaning?)
  }

  /** The evidence seen goes together with what is known. */
  predicate CoherentWith(s: State, f: Flat) {
    && Coherent(s.evidence) && Coherent(f.evidence)
    && (s.evidence.exitReason.Some? ==> f.evidence.exitReason.Some?)
  }

  lemma StepKeeps(s: State, step: Step, darwin: bool)
    requires WellFormed(s, darwin)
    ensures KeepsRecord(s, After(s, step, darwin), darwin)
    ensures CoherentWith(s, step.flat) ==> Coherent(After(s, step, darwin).evidence)
    ensures CoherentWith(s, step.flat) ==> ValidState(After(s, step, darwin), darwin)
  {
    AfterIsWellFormed(s, step, darwin);
    StepKeepsRecord(s, step, darwin);
    if CoherentWith(s, step.flat) {
      StepStaysCoherent(s, step, darwin);
      ValidExactly(After(s, step, darwin), darwin);
    }
  }

  /** One session record: the state is the authority, the flat view a projection of it. */
  class SessionRecord {
    const meta: Object
    const darwin: bool
    var state: State
    var flat: Flat

    constructor (meta: Object, state: State, flat: Flat, darwin: bool)
      ensures this.meta == meta && this.state == state && this.flat == flat && this.darwin == darwin
    {
      this.meta, this.state, this.flat, this.darwin := meta, state, flat, darwin;
    }

    /** `transition`: observe, reduce, and project; a rejected event changes nothing. Accepted or not,
        what was recorded stays, and coherent evidence keeps the state valid. */
    method Transition(event: Event, observed: Flat) returns (ok: bool)
      modifies this
      ensures state == After(old(state), Deliver(observed, event), darwin)
      ensures flat == if ok then Project(state) else old(flat)
      ensures !ok ==> state == old(state)
      ensures ok <==> Reduce(Refresh(old(state), observed, darwin), event, darwin).Some?
      ensures WellFormed(old(state), darwin) ==> KeepsRecord(old(state), state, darwin)
      ensures WellFormed(old(state), darwin) && CoherentWith(old(state), observed) ==>
                Coherent(state.evidence) && ValidState(state, darwin)
    {
      hide Reduce, Refresh, WellFormed, KeepsRecord, CoherentWith, ValidState, Project, Coherent;
      if WellFormed(state, darwin) { StepKeeps(state, Deliver(observed, event), darwin); }
      var current := Refresh(state, observed, darwin);
      var reduction := Reduce(current, event, darwin);
      if reduction.None? {
        return false;
      }
      state := reduction.value;
      flat := Project(state);
      return true;
    }

    /** `writeSession`: the record is brought up to date first, and an invalid state is refused. What
        is persisted reads back as this very record. */
    method WriteSession() returns (persisted: Option<Object>)
      requires OnlyMeta(meta)
      modifies this
      ensures state == After(old(state), Observe(old(flat)), darwin) && flat == Project(state)
      ensures persisted.Some? <==> ValidState(state, darwin)
      ensures persisted.Some? ==>
                ValidV2(persisted.value, darwin) && FromV2(persisted.value) == Whole(meta, state, flat)
      ensures WellFormed(old(state), darwin) ==> KeepsRecord(old(state), state, darwin)
      ensures WellFormed(old(state), darwin) && CoherentWith(old(state), old(flat)) ==>
                Coherent(state.evidence) && persisted.Some?
    {
      hide Refresh, WellFormed, KeepsRecord, CoherentWith, ValidState, Project, Coherent;
      hide ValidV2, Whole, ToV2, FromV2, OnlyMeta, Spread;
      if WellFormed(state, darwin) { StepKeeps(state, Observe(flat), darwin); }
      state := Refresh(state, flat, darwin);
      flat := Project(state);
      WholeHasState(meta, state, flat);
      RecordReadsBackExactly(meta, state, flat);
      WrittenIsValidExactly(Whole(meta, state, flat), darwin);
      var form := ToV2(Whole(meta, state, flat));
      return if ValidV2(form, darwin) then Some(form) else None;
    }
  }

  lemma WholeHasState(meta: Object, s: State, f: Flat)
    ensures HasState(Whole(meta, s, f)) && Whole(meta, s, f)[StateField] == VState(s)
    ensures HasState(ToV2(Whole(meta, s, f)))
  {
    hide Spread;
    SpreadIsRoot(f);
  }

  /** Writing a record again writes the same object, also after reading it back. */
  lemma WriteSessionIsIdempotent(meta: Object, s: State, flat: Flat, darwin: bool)
    requires WellFormed(s, darwin) && OnlyMeta(meta)
    ensures var written := Refresh(s, flat, darwin);
            var form := ToV2(Whole(meta, written, Project(written)));
            && Refresh(written, Project(written), darwin) == written
            && HasState(form) && FromV2(form) == Whole(meta, written, Project(written))
            && ToV2(FromV2(form)) == form
  {
    RefreshIsWellFormed(s, flat, darwin);
    RefreshOfProjection(Refresh(s, flat, darwin), darwin);
    hide WellFormed, Refresh, Project, Whole, ToV2, FromV2, OnlyMeta;
    var written := Refresh(s, flat, darwin);
    WholeHasState(meta, written, Project(written));
    RecordReadsBackExactly(meta, written, Project(written));
  }
}
