/** The per-session promise lanes (`mutate` and `persist`).

Each lane is a chain of promises: a new task runs after the task that was last in the lane, whether
that one succeeds or fails, and the lane is forgotten once its last task has settled. */
module Router {
  import opened Options

  datatype Phase = Waiting | Running | Settled

  /** A task waits for the task that was the last of its lane when it was added, if the lane was known. */
  datatype Task = Task(lane: string, after: Option<nat>, phase: Phase)

  datatype Lanes = Lanes(tasks: seq<Task>, tails: map<string, nat>)

  const Empty := Lanes([], map[])

  /** A task settles by succeeding or by failing: the lane does not tell them apart. */
  datatype Step = Add(lane: string) | Start(task: nat) | Settle(task: nat) | Forget(task: nat)

  ghost predicate Enabled(s: Lanes, step: Step) {
    match step
    case Add(_) => true
    case Start(n) =>
      && n < |s.tasks| && s.tasks[n].phase.Waiting?
      && (s.tasks[n].after.Some? ==>
          s.tasks[n].after.value < |s.tasks| && s.tasks[s.tasks[n].after.value].phase.Settled?)
    case Settle(n) => n < |s.tasks| && s.tasks[n].phase.Running?
    case Forget(n) => n < |s.tasks| && s.tasks[n].phase.Settled?
  }

  function Tail(s: Lanes, lane: string): Option<nat> {
    if lane in s.tails then Some(s.tails[lane]) else None
  }

  function Apply(s: Lanes, step: Step): Lanes {
    match step
    case Add(lane) =>
      Lanes(s.tasks + [Task(lane, Tail(s, lane), Waiting)], s.tails[lane := |s.tasks|])
    case Start(n) => if n < |s.tasks| then s.(tasks := s.tasks[n := s.tasks[n].(phase := Running)]) else s
    case Settle(n) => if n < |s.tasks| then s.(tasks := s.tasks[n := s.tasks[n].(phase := Settled)]) else s
    case Forget(n) =>
      if n < |s.tasks| && Tail(s, s.tasks[n].lane) == Some(n) then s.(tails := s.tails - {s.tasks[n].lane}) else s
  }

  ghost predicate IsRun(run: seq<Lanes>) {
    && run != [] && run[0] == Empty
    && forall i | 0 <= i < |run| - 1 :: Next(run[i], run[i + 1])
  }

  ghost predicate Next(s: Lanes, t: Lanes) {
    exists step :: Enabled(s, step) && t == Apply(s, step)
  }

  // ----- What every step keeps -----

  /** A task that has started has every earlier task of its lane behind it, settled. */
  ghost predicate InOrder(tasks: seq<Task>) {
    forall a, b | 0 <= a < b < |tasks| && tasks[a].lane == tasks[b].lane && !tasks[b].phase.Waiting? ::
        tasks[a].phase.Settled?
  }

  /** A task waits for the one just before it in its lane, or for none because all before it have settled. */
  ghost predicate Linked(tasks: seq<Task>) {
    forall b | 0 <= b < |tasks| :: LinkedAt(tasks, b)
  }

  ghost predicate LinkedAt(tasks: seq<Task>, b: nat)
    requires b < |tasks|
  {
    match tasks[b].after
    case Some(p) =>
      && p < b && tasks[p].lane == tasks[b].lane
      && forall a | p < a < b :: tasks[a].lane != tasks[b].lane
    case None =>
      forall a | 0 <= a < b && tasks[a].lane == tasks[b].lane :: tasks[a].phase.Settled?
  }

  /** The tail of a lane is its last task; a lane without a tail has settled. */
  ghost predicate TailsOk(s: Lanes) {
    && (forall lane | lane in s.tails ::
          && s.tails[lane] < |s.tasks| && s.tasks[s.tails[lane]].lane == lane
          && forall a | s.tails[lane] < a < |s.tasks| :: s.tasks[a].lane != lane)
    && (forall a | 0 <= a < |s.tasks| && s.tasks[a].lane !in s.tails :: s.tasks[a].phase.Settled?)
  }

  ghost predicate Inv(s: Lanes) {
    InOrder(s.tasks) && Linked(s.tasks) && TailsOk(s)
  }

  lemma AddKeeps(s: Lanes, lane: string)
    requires Inv(s)
    ensures Inv(Apply(s, Add(lane)))
  {
    var t := Apply(s, Add(lane));
    forall b | 0 <= b < |t.tasks| ensures LinkedAt(t.tasks, b) {
      if b < |s.tasks| { assert LinkedAt(s.tasks, b) && t.tasks[b] == s.tasks[b]; }
    }
  }

  lemma StartKeeps(s: Lanes, n: nat)
    requires Inv(s) && Enabled(s, Start(n))
    ensures Inv(Apply(s, Start(n)))
  {
    assert LinkedAt(s.tasks, n);
    PhaseKeeps(s, n, Running);
  }

  lemma SettleKeeps(s: Lanes, n: nat)
    requires Inv(s) && Enabled(s, Settle(n))
    ensures Inv(Apply(s, Settle(n)))
  {
    PhaseKeeps(s, n, Settled);
  }

  /** A task may move on once everything before it in its lane has settled. */
  lemma PhaseKeeps(s: Lanes, n: nat, phase: Phase)
    requires Inv(s) && n < |s.tasks| && !s.tasks[n].phase.Settled?
    requires forall a | 0 <= a < n && s.tasks[a].lane == s.tasks[n].lane :: s.tasks[a].phase.Settled?
    ensures Inv(s.(tasks := s.tasks[n := s.tasks[n].(phase := phase)]))
  {
    var tasks := s.tasks[n := s.tasks[n].(phase := phase)];
    forall b | 0 <= b < |tasks| ensures LinkedAt(tasks, b) {
      assert LinkedAt(s.tasks, b);
    }
  }

  lemma ForgetKeeps(s: Lanes, n: nat)
    requires Inv(s) && Enabled(s, Forget(n))
    ensures Inv(Apply(s, Forget(n)))
  {
    hide Linked;
    var lane := s.tasks[n].lane;
    if Tail(s, lane) == Some(n) {
      forall a | 0 <= a < |s.tasks| && s.tasks[a].lane == lane ensures s.tasks[a].phase.Settled? {
        if a < n { assert s.tasks[a].lane == s.tasks[n].lane; }
      }
    }
  }

  lemma StepKeepsInv(s: Lanes, step: Step)
    requires Inv(s) && Enabled(s, step)
    ensures Inv(Apply(s, step))
  {
    hide Inv, Apply, Enabled;
    match step
    case Add(lane) => AddKeeps(s, lane);
    case Start(n) => StartKeeps(s, n);
    case Settle(n) => SettleKeeps(s, n);
    case Forget(n) => ForgetKeeps(s, n);
  }

  lemma {:induction false} RunKeepsInv(run: seq<Lanes>, n: nat)
    requires IsRun(run) && n < |run|
    ensures Inv(run[n])
  {
    if n > 0 {
      RunKeepsInv(run, n - 1);
      assert Next(run[n - 1], run[n]);
      var step :| Enabled(run[n - 1], step) && run[n] == Apply(run[n - 1], step);
      hide Inv, Enabled, Apply;
      StepKeepsInv(run[n - 1], step);
    }
  }

  /** In every schedule a task starts only after every earlier task of its lane has settled: tasks run
      in the order they were added, and never two of a lane at once. */
  lemma LaneRunsInOrder(run: seq<Lanes>, n: nat, a: nat, b: nat)
    requires IsRun(run) && n < |run| && a < b < |run[n].tasks| && run[n].tasks[a].lane == run[n].tasks[b].lane
    ensures !run[n].tasks[b].phase.Waiting? ==> run[n].tasks[a].phase.Settled?
    ensures !(run[n].tasks[a].phase.Running? && run[n].tasks[b].phase.Running?)
  {
    RunKeepsInv(run, n);
  }

  /** No lane gets stuck: while a lane has a task that has not settled, some task of it can start or
      is running. */
  lemma LaneCanMove(run: seq<Lanes>, n: nat, b: nat) returns (a: nat)
    requires IsRun(run) && n < |run| && b < |run[n].tasks| && !run[n].tasks[b].phase.Settled?
    ensures a <= b && run[n].tasks[a].lane == run[n].tasks[b].lane
    ensures run[n].tasks[a].phase.Running? || Enabled(run[n], Start(a))
  {
    RunKeepsInv(run, n);
    var s := run[n];
    hide InOrder, TailsOk;
    a := FirstPending(s, b);
  }

  lemma {:induction false} FirstPending(s: Lanes, b: nat) returns (a: nat)
    requires Linked(s.tasks) && b < |s.tasks| && !s.tasks[b].phase.Settled?
    ensures a <= b && s.tasks[a].lane == s.tasks[b].lane
    ensures s.tasks[a].phase.Running? || Enabled(s, Start(a))
    decreases b
  {
    a := b;
    assert LinkedAt(s.tasks, b);
    if s.tasks[b].phase.Waiting? && s.tasks[b].after.Some? && !s.tasks[s.tasks[b].after.value].phase.Settled? {
      a := FirstPending(s, s.tasks[b].after.value);
    }
  }

  // ----- The router's own code -----

  class PromiseLanes {
    var tails: map<string, nat>
    var next: nat
    ghost var tasks: seq<Task>

    ghost function Snapshot(): Lanes
      reads this
    {
      Lanes(tasks, tails)
    }

    constructor ()
      ensures Snapshot() == Empty && next == 0
    {
      tails, next, tasks := map[], 0, [];
    }

    /** `mutate` and `persist`: the new task goes after the tail and becomes the tail. */
    method Enqueue(lane: string) returns (task: nat, previous: Option<nat>)
      requires next == |tasks|
      modifies this
      ensures next == |tasks| && task == old(next) && Snapshot() == Apply(old(Snapshot()), Add(lane))
      ensures previous == tasks[task].after
    {
      previous := if lane in tails then Some(tails[lane]) else None;
      task := next;
      tasks := tasks + [Task(lane, previous, Waiting)];
      tails := tails[lane := task];
      next := next + 1;
    }

    /** What runs once a task has settled: the lane is dropped if the task is still its tail. */
    method Cleanup(lane: string, task: nat)
      requires task < |tasks| && tasks[task].lane == lane
      modifies this`tails
      ensures Snapshot() == Apply(old(Snapshot()), Forget(task))
    {
      if lane in tails && tails[lane] == task {
        tails := tails - {lane};
      }
    }
  }
}
