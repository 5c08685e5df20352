/** The V2 session lifecycle: a pure reducer over a flat state, the refresh of its evidence from
the record, the projection back, and the validator that guards what is persisted.

States are flat, as they are in the persisted JSON: every field may be present with any kind,
and it takes a proof that the fields which belong to other kinds are absent. Sessions born as
V2 have no legacy field.
 */
module Lifecycle {
  import opened Options

  datatype Outcome = Exited | TimedOut | SpawnFailed | OutputLimited

  datatype Kind = Creating | Running | Stopping | Terminal | Unreachable | Cleaning

  datatype ContainmentStatus =
    | PosixBestEffortEmpty | PosixProcessesRemaining | PosixEscapeObserved | PosixContainmentUnknown
    | WindowsJobEmpty | WindowsJobProcessesRemaining | WindowsJobUnknown | NotApplicable

  /** Values that only pass through. */
  type Blob = nat

  datatype Containment = Containment(status: ContainmentStatus, details: Blob)

  datatype Cleanup = Cleanup(terminationConfirmed: bool, directChildStarted: Option<bool>)

  datatype ExitReason =
    | ByCode(code: int)
    | BySignal(signal: string)
    | ByTimeout
    | ByStop
    | BySpawnError(message: string, cleanup: Option<Cleanup>)
    | ByOutputLimit
    | Unknown(note: Option<string>)

  datatype Drain = Drained | DrainUnknown

  datatype Evidence = Evidence(
    pid: nat, directExited: Option<bool>,
    timedOut: bool, requested: bool, confirmed: bool, termination: Option<Blob>,
    startedAt: Option<string>, exitedAt: Option<string>, containment: Option<Containment>,
    exitCode: Option<int>, exitSignal: Option<string>, exitReason: Option<ExitReason>,
    worker: Option<Blob>, prestart: Option<Blob>, startAttempted: Option<bool>,
    execOutput: Option<Blob>, storageFailure: Option<string>, diagnostics: Option<Blob>, lastWait: Option<Blob>)

  datatype Payload = Payload(outcome: Outcome, evidence: Evidence, drain: Drain)

  datatype State = State(
    kind: Kind, target: Option<Kind>, outcome: Option<Outcome>, lastKnown: Option<Kind>,
    terminal: Option<Payload>, evidence: Evidence, drain: Drain)

  datatype Status = SStarting | SRunning | SStopping | SEnded(outcome: Outcome) | SLost

  /** The flat compatibility view that the rest of the daemon reads and writes. */
  datatype Flat = Flat(
    status: Status, pendingCleanup: bool, lastKnown: Option<Kind>, drain: Option<Drain>, evidence: Evidence)

  datatype Event =
    | WorkerReady | StopRequested | ChildExited | EventTimedOut | EventOutputLimited
    | EventSpawnFailed | BecameUnreachable | Recovered

  // ----- lifecycle.ts -----

  function Plain(kind: Kind, s: State): State {
    State(kind, None, None, None, None, s.evidence, s.drain)
  }

  function TerminalPayload(s: State): Option<Payload> {
    if s.kind.Terminal? && s.outcome.Some? then Some(Payload(s.outcome.value, s.evidence, s.drain))
    else if s.kind.Cleaning? && s.target == Some(Terminal) && s.outcome.Some? then
      Some(Payload(s.outcome.value, s.evidence, s.drain))
    else if s.kind.Unreachable? || s.kind.Cleaning? then s.terminal
    else None
  }

  function LastKnown(s: State): Kind {
    if s.kind.Cleaning? && s.target.Some? then
      if s.target.value.Unreachable? then (if s.lastKnown.Some? then s.lastKnown.value else Unreachable)
      else s.target.value
    else s.kind
  }

  predicate NoChild(e: Evidence) {
    e.exitReason.Some? && e.exitReason.value.BySpawnError? && e.exitReason.value.cleanup.Some?
    && e.exitReason.value.cleanup.value == Cleanup(true, Some(false))
  }

  predicate ContainmentDrained(e: Evidence) {
    e.containment.Some?
    && (e.containment.value.status.PosixBestEffortEmpty? || e.containment.value.status.WindowsJobEmpty?
        || e.containment.value.status.NotApplicable?)
  }

  /** Whether a terminal state with this outcome and evidence is proven. */
  predicate TerminalProven(outcome: Outcome, e: Evidence, darwin: bool) {
    || (outcome.SpawnFailed? && NoChild(e))
    || (e.confirmed && e.directExited == Some(true) && (ContainmentDrained(e) || darwin))
  }

  function TerminalOrUnreachable(s: State, outcome: Outcome, cleaning: bool, darwin: bool): State {
    if TerminalProven(outcome, s.evidence, darwin) then
      if cleaning then State(Cleaning, Some(Terminal), Some(outcome), None, None, s.evidence, s.drain)
      else State(Terminal, None, Some(outcome), None, None, s.evidence, s.drain)
    else
      var payload := Some(Payload(outcome, s.evidence, s.drain));
      if cleaning then State(Cleaning, Some(Unreachable), None, Some(Terminal), payload, s.evidence, s.drain)
      else State(Unreachable, None, None, Some(Terminal), payload, s.evidence, s.drain)
  }

  function ToUnreachable(s: State, cleaning: bool): State {
    var payload := TerminalPayload(s);
    var known := if payload.Some? then Terminal else LastKnown(s);
    if cleaning then State(Cleaning, Some(Unreachable), None, Some(known), payload, s.evidence, s.drain)
    else State(Unreachable, None, None, Some(known), payload, s.evidence, s.drain)
  }

  function ToCleaning(s: State): State {
    if s.kind.Cleaning? then s
    else if s.kind.Terminal? then State(Cleaning, Some(Terminal), s.outcome, None, None, s.evidence, s.drain)
    else if s.kind.Unreachable? then
      State(Cleaning, Some(Unreachable), None, s.lastKnown, s.terminal, s.evidence, s.drain)
    else State(Cleaning, Some(s.kind), None, None, None, s.evidence, s.drain)
  }

  function TerminalEvent(event: Event): Option<Outcome> {
    match event
    case ChildExited => Some(Exited)
    case EventTimedOut => Some(TimedOut)
    case EventOutputLimited => Some(OutputLimited)
    case EventSpawnFailed => Some(SpawnFailed)
    case _ => None
  }

  function Reduce(s: State, event: Event, darwin: bool): Option<State> {
    var outcome := TerminalEvent(event);
    if event.BecameUnreachable? then Some(ToUnreachable(s, s.kind.Cleaning?))
    else match s.kind
      case Unreachable =>
        if event.Recovered? && s.lastKnown != Some(Terminal) && s.lastKnown != Some(Unreachable)
        then Some(Plain(Running, s)) else None
      case Cleaning =>
        if outcome.Some? && s.target != Some(Terminal) && s.target != Some(Unreachable)
        then Some(TerminalOrUnreachable(s, outcome.value, true, darwin))
        else if event.StopRequested? && (s.target == Some(Running) || s.target == Some(Stopping))
        then Some(State(Cleaning, Some(Stopping), None, None, None, s.evidence, s.drain))
        else None
      case Creating =>
        if event.WorkerReady? then Some(Plain(Running, s))
        else if event.EventSpawnFailed? then Some(TerminalOrUnreachable(s, SpawnFailed, false, darwin))
        else None
      case Running | Stopping =>
        if event.WorkerReady? && s.kind.Running? then Some(s)
        else if event.StopRequested? then Some(Plain(Stopping, s))
        else if outcome.Some? then Some(TerminalOrUnreachable(s, outcome.value, false, darwin))
        else None
      case Terminal =>
        if outcome.Some? && outcome == s.outcome then Some(s) else None
  }

  function StatusOfTarget(target: Kind, outcome: Option<Outcome>): Status {
    match target
    case Creating => SStarting
    case Running => SRunning
    case Stopping => SStopping
    case Terminal => if outcome.Some? then SEnded(outcome.value) else SLost
    case _ => SLost
  }

  function Project(s: State): Flat {
    var status :=
      if s.kind.Cleaning? then StatusOfTarget(if s.target.Some? then s.target.value else Unreachable, s.outcome)
      else StatusOfTarget(s.kind, s.outcome);
    var lastKnown :=
      if s.kind.Unreachable? || (s.kind.Cleaning? && s.target == Some(Unreachable)) then s.lastKnown else None;
    Flat(status, s.kind.Cleaning?, lastKnown, Some(s.drain), s.evidence)
  }

  /** An empty storage failure is dropped, as falsy strings are. */
  function Normalized(e: Evidence): Evidence {
    if e.storageFailure == Some("") then e.(storageFailure := None) else e
  }

  function Either<T>(new_: Option<T>, old_: Option<T>): Option<T> {
    if new_.Some? then new_ else old_
  }

  /** `{ ...old, ...new }`: optional fields missing from the new evidence stay. */
  function Merged(o: Evidence, n: Evidence): Evidence {
    n.(startedAt := Either(n.startedAt, o.startedAt), exitedAt := Either(n.exitedAt, o.exitedAt),
       containment := Either(n.containment, o.containment), exitCode := Either(n.exitCode, o.exitCode),
       exitSignal := Either(n.exitSignal, o.exitSignal), exitReason := Either(n.exitReason, o.exitReason),
       worker := Either(n.worker, o.worker), prestart := Either(n.prestart, o.prestart),
       startAttempted := Either(n.startAttempted, o.startAttempted), execOutput := Either(n.execOutput, o.execOutput),
       storageFailure := Either(n.storageFailure, o.storageFailure),
       diagnostics := Either(n.diagnostics, o.diagnostics), lastWait := Either(n.lastWait, o.lastWait))
  }

  function Refresh(s: State, flat: Flat, darwin: bool): State {
    var e := Normalized(flat.evidence);
    var drain := if flat.drain.Some? then flat.drain.value else DrainUnknown;
    if s.kind.Terminal? && s.outcome.Some? then
      var o := s.outcome.value;
      var next :=
        if TerminalProven(o, e, darwin) then State(Terminal, None, Some(o), None, None, e, drain)
        else State(Unreachable, None, None, Some(Terminal), Some(Payload(o, e, drain)), e, drain);
      if flat.pendingCleanup then ToCleaning(next) else next
    else if flat.pendingCleanup && !s.kind.Cleaning? then
      ToCleaning(s.(evidence := Merged(s.evidence, e), drain := drain))
    else if s.kind.Unreachable? then
      State(Unreachable, None, None, s.lastKnown, s.terminal, e, drain)
    else if s.kind.Cleaning? then
      var next := State(Cleaning, s.target, s.outcome, s.lastKnown, s.terminal, e, drain);
      if s.target == Some(Terminal) && s.outcome.Some? then TerminalOrUnreachable(next, s.outcome.value, true, darwin)
      else next
    else State(s.kind, None, None, None, None, e, drain)
  }

  // ----- storage.ts: the V2 validator -----

  predicate EndState(s: State) {
    s.kind.Terminal? || (s.kind.Cleaning? && s.target == Some(Terminal))
  }

  predicate ValidTerminalProof(e: Evidence, outcome: Outcome, darwin: bool) {
    || (outcome.SpawnFailed? && NoChild(e))
    || (e.directExited == Some(true) && (ContainmentDrained(e) || darwin))
  }

  predicate ValidState(s: State, darwin: bool) {
    && (EndState(s) ==>
          s.outcome.Some? && s.evidence.confirmed && ValidTerminalProof(s.evidence, s.outcome.value, darwin))
    && (s.lastKnown.Some? ==> !s.lastKnown.value.Cleaning?)
    && match s.kind
       case Terminal => s.target.None? && s.lastKnown.None? && s.terminal.None?
       case Unreachable =>
         && s.target.None? && s.outcome.None? && s.lastKnown.Some?
         && (s.lastKnown == Some(Terminal) <==> s.terminal.Some?)
       case Cleaning =>
         && s.target.Some? && !s.target.value.Cleaning?
         && (s.target == Some(Terminal) <==> s.outcome.Some?)
         && (s.target == Some(Unreachable) <==> s.lastKnown.Some?)
         && (s.terminal.Some? <==> s.target == Some(Unreachable) && s.lastKnown == Some(Terminal))
       case _ => s.target.None? && s.outcome.None? && s.lastKnown.None? && s.terminal.None?
  }

  // ----- Runs -----

  /** The evidence the supervisor keeps together: a start that proved that no child exists also
      confirms termination. */
  predicate Coherent(e: Evidence) {
    NoChild(e) ==> e.confirmed
  }

  /** Shape of every reachable state, whatever the evidence. */
  predicate WellFormed(s: State, darwin: bool) {
    && (EndState(s) ==> s.outcome.Some? && TerminalProven(s.outcome.value, s.evidence, darwin))
    && ValidState(if EndState(s) then s.(evidence := s.evidence.(confirmed := true)) else s, darwin)
    && s.evidence.storageFailure != Some("")
  }

  datatype Step = Observe(flat: Flat) | Deliver(flat: Flat, event: Event)

  /** A persistence refresh or an attempted transition; a rejected one leaves the state. */
  function After(s: State, step: Step, darwin: bool): State {
    match step
    case Observe(flat) => Refresh(s, flat, darwin)
    case Deliver(flat, event) =>
      var next := Reduce(Refresh(s, flat, darwin), event, darwin);
      if next.Some? then next.value else s
  }

  function Run(s: State, steps: seq<Step>, darwin: bool): State
    decreases |steps|
  {
    if steps == [] then s else Run(After(s, steps[0], darwin), steps[1..], darwin)
  }

  lemma RefreshIsWellFormed(s: State, flat: Flat, darwin: bool)
    requires WellFormed(s, darwin)
    ensures WellFormed(Refresh(s, flat, darwin), darwin)
  {
  }

  lemma ReduceIsWellFormed(s: State, event: Event, darwin: bool)
    requires WellFormed(s, darwin)
    ensures Reduce(s, event, darwin).Some? ==> WellFormed(Reduce(s, event, darwin).value, darwin)
  {
    match event
    case BecameUnreachable =>
    case WorkerReady =>
    case StopRequested =>
    case Recovered =>
    case _ =>
      EndsWellFormed(s, TerminalEvent(event).value, s.kind.Cleaning?, darwin);
  }

  lemma EndsWellFormed(s: State, outcome: Outcome, cleaning: bool, darwin: bool)
    requires s.evidence.storageFailure != Some("")
    ensures WellFormed(TerminalOrUnreachable(s, outcome, cleaning, darwin), darwin)
  {
  }

  lemma AfterIsWellFormed(s: State, step: Step, darwin: bool)
    requires WellFormed(s, darwin)
    ensures WellFormed(After(s, step, darwin), darwin)
  {
    RefreshIsWellFormed(s, step.flat, darwin);
    if step.Deliver? { ReduceIsWellFormed(Refresh(s, step.flat, darwin), step.event, darwin); }
  }

  lemma {:induction false} RunIsWellFormed(s: State, steps: seq<Step>, darwin: bool)
    requires WellFormed(s, darwin)
    ensures WellFormed(Run(s, steps, darwin), darwin)
    decreases |steps|
  {
    if steps != [] {
      AfterIsWellFormed(s, steps[0], darwin);
      RunIsWellFormed(After(s, steps[0], darwin), steps[1..], darwin);
    }
  }

  // ----- What never changes -----

  /** The terminal outcome a state has recorded, proven or not. */
  function Recorded(s: State): Option<Outcome> {
    var payload := TerminalPayload(s);
    if payload.Some? then Some(payload.value.outcome) else None
  }

  lemma StepKeepsRecord(s: State, step: Step, darwin: bool)
    requires WellFormed(s, darwin)
    ensures var t := After(s, step, darwin);
            && (Recorded(s).Some? ==> Recorded(t) == Recorded(s))
            && (s.terminal.Some? ==> t.terminal == s.terminal)
            && (s.kind.Cleaning? ==> t.kind.Cleaning?)
  {
    RefreshIsWellFormed(s, step.flat, darwin);
    RefreshKeepsRecord(s, step.flat, darwin);
    if step.Deliver? && Reduce(Refresh(s, step.flat, darwin), step.event, darwin).Some? {
      ReduceKeepsRecord(Refresh(s, step.flat, darwin), step.event, darwin);
    }
  }

  lemma RefreshKeepsRecord(s: State, flat: Flat, darwin: bool)
    requires WellFormed(s, darwin)
    ensures var t := Refresh(s, flat, darwin);
            && (Recorded(s).Some? ==> Recorded(t) == Recorded(s))
            && (s.terminal.Some? ==> t.terminal == s.terminal)
            && (s.kind.Cleaning? ==> t.kind.Cleaning?)
  {
  }

  lemma ReduceKeepsRecord(s: State, event: Event, darwin: bool)
    requires WellFormed(s, darwin) && Reduce(s, event, darwin).Some?
    ensures var t := Reduce(s, event, darwin).value;
            && (Recorded(s).Some? ==> Recorded(t) == Recorded(s))
            && (s.terminal.Some? ==> t.terminal == s.terminal)
            && (s.kind.Cleaning? ==> t.kind.Cleaning?)
  {
  }

  /** Along every run the first recorded outcome stays, a stored payload is kept to the letter, and
      a session that is being cleaned up stays that way, whatever is observed or delivered. */
  lemma {:induction false} RunKeepsRecord(s: State, steps: seq<Step>, darwin: bool)
    requires WellFormed(s, darwin)
    ensures var t := Run(s, steps, darwin);
            && (Recorded(s).Some? ==> Recorded(t) == Recorded(s))
            && (s.terminal.Some? ==> t.terminal == s.terminal)
            && (s.kind.Cleaning? ==> t.kind.Cleaning?)
    decreases |steps|
  {
    hide WellFormed, After, Recorded;
    if steps != [] {
      StepKeepsRecord(s, steps[0], darwin);
      AfterIsWellFormed(s, steps[0], darwin);
      RunKeepsRecord(After(s, steps[0], darwin), steps[1..], darwin);
    }
  }

  // ----- What is accepted -----

  /** A session that was lost can recover exactly if it was live when it was lost: a terminal payload,
      a cleanup, and a second loss all rule it out. It then runs again with its evidence. */
  lemma RecoveryExactly(s: State, darwin: bool)
    requires WellFormed(s, darwin)
    ensures var lost := Reduce(s, BecameUnreachable, darwin);
            && lost.Some?
            && (Reduce(lost.value, Recovered, darwin).Some? <==>
                s.kind.Creating? || s.kind.Running? || s.kind.Stopping?)
            && (Reduce(lost.value, Recovered, darwin).Some? ==>
                Reduce(lost.value, Recovered, darwin) == Some(Plain(Running, s)))
  {
    assert s.kind.Unreachable? ==> s.lastKnown.Some?;
    hide WellFormed;
  }

  /** The end of a running session is always recorded with its outcome; the session is terminal
      exactly when the evidence proves it, and otherwise unreachable with the payload kept. */
  lemma EndsExactly(s: State, event: Event, darwin: bool)
    requires (s.kind.Running? || s.kind.Stopping?) && TerminalEvent(event).Some?
    ensures var t := Reduce(s, event, darwin);
            && t.Some? && Recorded(t.value) == TerminalEvent(event)
            && (t.value.kind.Terminal? <==> TerminalProven(TerminalEvent(event).value, s.evidence, darwin))
            && (!t.value.kind.Terminal? ==> t.value.kind.Unreachable? && t.value.terminal.Some?)
  {
  }

  /** The first end event that a running session accepts decides its outcome for every later state,
      proven or not, whatever is observed or delivered afterwards. */
  lemma FirstEndDecides(s: State, observed: Flat, event: Event, later: seq<Step>, darwin: bool)
    requires WellFormed(s, darwin) && TerminalEvent(event).Some?
    requires var current := Refresh(s, observed, darwin); current.kind.Running? || current.kind.Stopping?
    ensures Recorded(Run(After(s, Deliver(observed, event), darwin), later, darwin)) == TerminalEvent(event)
  {
    var ended := After(s, Deliver(observed, event), darwin);
    EndsExactly(Refresh(s, observed, darwin), event, darwin);
    AfterIsWellFormed(s, Deliver(observed, event), darwin);
    assert Recorded(ended) == TerminalEvent(event);
    hide WellFormed, Recorded;
    RunKeepsRecord(ended, later, darwin);
  }

  // ----- What the validator accepts -----

  /** A reachable state is accepted exactly when an end state has its termination confirmed. */
  lemma ValidExactly(s: State, darwin: bool)
    requires WellFormed(s, darwin)
    ensures ValidState(s, darwin) <==> (EndState(s) ==> s.evidence.confirmed)
  {
  }

  /** The steps of a supervisor: coherent evidence, and an exit reason once known is never forgotten. */
  predicate Supervised(s: State, steps: seq<Step>, darwin: bool)
    decreases |steps|
  {
    steps != [] ==>
      && Coherent(steps[0].flat.evidence)
      && (s.evidence.exitReason.Some? ==> steps[0].flat.evidence.exitReason.Some?)
      && Supervised(After(s, steps[0], darwin), steps[1..], darwin)
  }

  lemma RefreshStaysCoherent(s: State, flat: Flat, darwin: bool)
    requires Coherent(s.evidence) && Coherent(flat.evidence)
    requires s.evidence.exitReason.Some? ==> flat.evidence.exitReason.Some?
    ensures Coherent(Refresh(s, flat, darwin).evidence)
  {
  }

  lemma ReduceKeepsEvidence(s: State, event: Event, darwin: bool)
    requires Reduce(s, event, darwin).Some?
    ensures Reduce(s, event, darwin).value.evidence == s.evidence
  {
  }

  lemma StepStaysCoherent(s: State, step: Step, darwin: bool)
    requires Coherent(s.evidence) && Coherent(step.flat.evidence)
    requires s.evidence.exitReason.Some? ==> step.flat.evidence.exitReason.Some?
    ensures Coherent(After(s, step, darwin).evidence)
  {
    hide Reduce, Refresh, Coherent;
    RefreshStaysCoherent(s, step.flat, darwin);
    if step.Deliver? && Reduce(Refresh(s, step.flat, darwin), step.event, darwin).Some? {
      ReduceKeepsEvidence(Refresh(s, step.flat, darwin), step.event, darwin);
    }
  }

  lemma {:induction false} RunStaysCoherent(s: State, steps: seq<Step>, darwin: bool)
    requires Coherent(s.evidence) && Supervised(s, steps, darwin)
    ensures Coherent(Run(s, steps, darwin).evidence)
    decreases |steps|
  {
    hide After, Coherent;
    if steps != [] {
      StepStaysCoherent(s, steps[0], darwin);
      RunStaysCoherent(After(s, steps[0], darwin), steps[1..], darwin);
    }
  }

  /** With supervised steps everything a run persists passes the validator, and a session is
      terminal only when its end is proven. */
  lemma ReachableIsValid(s: State, steps: seq<Step>, darwin: bool)
    requires WellFormed(s, darwin) && Coherent(s.evidence) && Supervised(s, steps, darwin)
    ensures var t := Run(s, steps, darwin);
            && ValidState(t, darwin)
            && (EndState(t) ==> t.outcome.Some? && TerminalProven(t.outcome.value, t.evidence, darwin))
  {
    RunIsWellFormed(s, steps, darwin);
    RunStaysCoherent(s, steps, darwin);
    ValidExactly(Run(s, steps, darwin), darwin);
  }

  /** From a fresh record: every state persisted on the way is valid, and once one of them has
      recorded an outcome every later one has the same. */
  lemma FreshRunIsValid(s: State, before: seq<Step>, after: seq<Step>, darwin: bool)
    requires s == Plain(Creating, s) && s.evidence.storageFailure != Some("") && s.evidence.exitReason.None?
    requires Supervised(s, before, darwin) && Supervised(Run(s, before, darwin), after, darwin)
    ensures var t, u := Run(s, before, darwin), Run(Run(s, before, darwin), after, darwin);
            && ValidState(t, darwin) && ValidState(u, darwin)
            && (Recorded(t).Some? ==> Recorded(u) == Recorded(t))
  {
    assert WellFormed(s, darwin) && Coherent(s.evidence);
    hide WellFormed, Coherent, Supervised, ValidState, Recorded;
    ReachableIsValid(s, before, darwin);
    RunIsWellFormed(s, before, darwin);
    RunStaysCoherent(s, before, darwin);
    ReachableIsValid(Run(s, before, darwin), after, darwin);
    RunKeepsRecord(Run(s, before, darwin), after, darwin);
  }

  /** Coherence is needed: a failed start with no child but unconfirmed termination reduces to a
      terminal state that the validator refuses to persist. */
  lemma IncoherentEvidenceIsRefused(s: State, darwin: bool)
    requires s.kind.Creating? && WellFormed(s, darwin)
    requires NoChild(s.evidence) && !s.evidence.confirmed
    ensures var t := Reduce(s, EventSpawnFailed, darwin);
            t.Some? && t.value.kind.Terminal? && !ValidState(t.value, darwin)
  {
  }

  // ----- Projection -----

  /** The projection loses nothing: refreshing a state from its own projection changes nothing. */
  lemma RefreshOfProjection(s: State, darwin: bool)
    requires WellFormed(s, darwin)
    ensures Refresh(s, Project(s), darwin) == s
  {
  }
}
