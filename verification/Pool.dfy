/**
 The pool of 250 rotating tasks. A task goes through twelve stages; a reservation lets one
 request work on one task at one stage, and is resolved at most once.
 */
module ReservationPool {
  import opened Common

  const TASKS: nat := 250
  const STAGES: nat := 12

  /** What a write asks the server to do, one command per stage. */
  datatype Command = Init | Event(name: string) | Meter(level: nat) | Complete | Requeue | Run {

    function Name(): string {
      match this
      case Init => "init"
      case Event(_) => "event"
      case Meter(_) => "meter"
      case Complete => "complete"
      case Requeue => "requeue"
      case Run => "run"
    }
  }

  function CommandAt(stage: nat): Command {
    match stage
    case 0 => Init
    case 1 => Event("e1")
    case 2 => Meter(25)
    case 3 => Event("e2")
    case 4 => Meter(50)
    case 5 => Event("e3")
    case 6 => Meter(75)
    case 7 => Event("e4")
    case 8 => Meter(100)
    case 9 => Complete
    case 10 => Requeue
    case _ => Run
  }

  /** Attempt names: given by the service, or generated by the virtual-time simulation. */
  datatype Attempt = Given(text: string) | Initial(task: nat) | Rotated(number: nat) {

    predicate Empty() { this == Given("") }
  }

  datatype Reservation = Reservation(serial: nat, task: nat, stage: nat, attempt: Attempt, operation: string)

  datatype SlotTask = SlotTask(path: string, stage: nat, attempt: Attempt, busy: bool, unknown: bool,
                               reservation: Option<Reservation>)

  type TaskTable = s: seq<SlotTask> | |s| == TASKS
    witness seq(TASKS, _ => SlotTask("", 0, Initial(0), false, false, None))

  type Index = i: nat | i < TASKS

  type StageCursors = s: seq<Index> | |s| == STAGES
    witness seq(STAGES, _ => 0)

  datatype PoolState = PoolState(tasks: TaskTable, next: StageCursors, serial: nat) {

    predicate Eligible(i: nat, stage: nat)
      requires i < TASKS
    {
      tasks[i].stage == stage && !tasks[i].busy && !tasks[i].unknown
    }

    /** Whether the token still owns its task. */
    predicate Current(token: Reservation)
    {
      && token.task < TASKS
      && var task := tasks[token.task];
         !task.unknown && task.busy && task.reservation == Some(token)
         && task.stage == token.stage && task.attempt == token.attempt
    }

    /** The first eligible task at cyclic distance `offset` or more from the stage's cursor. */
    function Scan(stage: nat, offset: nat): (r: Option<nat>)
      requires stage < STAGES && offset <= TASKS
      ensures r.Some? ==> r.value < TASKS
      decreases TASKS - offset
    {
      if offset == TASKS then None
      else
        var i := (next[stage] + offset) % TASKS;
        if Eligible(i, stage) then Some(i) else Scan(stage, offset + 1)
    }

    function Token(i: nat, stage: nat): Reservation
      requires i < TASKS
    {
      Reservation(serial, i, stage, tasks[i].attempt, CommandAt(stage).Name())
    }

    /** The pool after task i has been reserved for `stage`. */
    function Taken(i: nat, stage: nat): PoolState
      requires i < TASKS && stage < STAGES
    {
      PoolState(tasks[i := tasks[i].(busy := true, reservation := Some(Token(i, stage)))],
                next[stage := (i + 1) % TASKS], serial + 1)
    }

    function Reserve(stage: nat): (r: (PoolState, Option<Reservation>))
      requires stage < STAGES
    {
      match Scan(stage, 0)
      case None => (this, None)
      case Some(i) => (Taken(i, stage), Some(Token(i, stage)))
    }

    function CancelUnsent(token: Reservation): (r: (PoolState, bool))
    {
      if !Current(token) then (this, false)
      else (this.(tasks := tasks[token.task := tasks[token.task].(busy := false, reservation := None)]), true)
    }

    /** Resolve a reservation; raises when a RUN does not bring a new attempt. */
    function Finish(token: Reservation, success: bool, attempt: Option<Attempt>): (r: Result<(PoolState, bool), string>)
    {
      if !Current(token) then Success((this, false))
      else
        var task := tasks[token.task];
        if !success then
          Success((this.(tasks := tasks[token.task := task.(unknown := true, reservation := None)]), true))
        else if token.stage == 11 then
          if attempt.None? || attempt.value.Empty() || attempt.value == task.attempt then
            Failure("rotation must establish a new attempt")
          else
            Success((this.(tasks := tasks[token.task :=
              task.(attempt := attempt.value, stage := 0, busy := false, reservation := None)]), true))
        else
          Success((this.(tasks := tasks[token.task :=
            task.(stage := task.stage + 1, busy := false, reservation := None)]), true))
    }

    /** A task's fields agree with each other and with its reservation. */
    ghost predicate TaskSound(i: nat)
      requires i < TASKS
    {
      var t := tasks[i];
      && t.stage < STAGES
      && (t.unknown ==> t.busy && t.reservation.None?)
      && (!t.busy ==> t.reservation.None?)
      && (t.busy && !t.unknown ==>
            t.reservation.Some? && var r := t.reservation.value;
            r.task == i && r.stage == t.stage && r.attempt == t.attempt && r.serial < serial)
    }

    ghost predicate Sound() {
      forall i: nat | i < TASKS :: TaskSound(i)
    }

    /** How far ahead of the stage's cursor task i lies. */
    function Distance(stage: nat, i: nat): (d: nat)
      requires stage < STAGES && i < TASKS
      ensures d < TASKS
    {
      if next[stage] <= i then i - next[stage] else i + TASKS - next[stage]
    }
  }

  predicate Distinct(paths: seq<string>) {
    forall i, j | 0 <= i < j < |paths| :: paths[i] != paths[j]
  }

  /** A fresh pool: 25 tasks at each of the ten child stages. */
  function Fresh(paths: seq<string>, attempts: seq<Attempt>): (r: Result<PoolState, string>)
    requires |attempts| == |paths|
    ensures r.Success? <==> |paths| == TASKS && Distinct(paths)
    ensures r.Success? ==> r.value.Sound() && forall i | 0 <= i < TASKS :: r.value.tasks[i].path == paths[i]
  {
    if |paths| != TASKS || !Distinct(paths) then Failure("exactly 250 distinct pool tasks required")
    else
      Success(PoolState(
        seq(TASKS, i requires 0 <= i < TASKS => SlotTask(paths[i], i / 25, attempts[i], false, false, None)),
        seq(STAGES, _ => 0), 1))
  }

  /** No two stages ask the server for the same thing. */
  lemma CommandsDiffer(a: nat, b: nat)
    requires a < STAGES && b < STAGES && CommandAt(a) == CommandAt(b)
    ensures a == b
  {
  }

  // ----- reserve -----

  lemma {:induction false} ScanMeaning(p: PoolState, stage: nat, offset: nat)
    requires stage < STAGES && offset <= TASKS
    ensures match p.Scan(stage, offset)
            case None => forall i: nat | i < TASKS && p.Eligible(i, stage) :: p.Distance(stage, i) < offset
            case Some(i) => i < TASKS && p.Eligible(i, stage) && offset <= p.Distance(stage, i)
                            && forall j: nat | j < TASKS && p.Eligible(j, stage) && offset <= p.Distance(stage, j) ::
                                 p.Distance(stage, i) <= p.Distance(stage, j)
    decreases TASKS - offset
  {
    if offset < TASKS {
      ScanMeaning(p, stage, offset + 1);
      var i := (p.next[stage] + offset) % TASKS;
      assert p.Distance(stage, i) == offset;
      forall j: nat | j < TASKS && p.Distance(stage, j) == offset ensures j == i {
      }
    }
  }

  /**
   `reserve` gives None exactly when no task is eligible; otherwise it takes the eligible task
   nearest ahead of the stage's cursor, with a serial never used before.
   */
  lemma ReserveMeaning(p: PoolState, stage: nat)
    requires stage < STAGES
    ensures var (q, token) := p.Reserve(stage);
            && (token.None? <==> forall i: nat | i < TASKS :: !p.Eligible(i, stage))
            && (token.None? ==> q == p)
            && (token.Some? ==>
                  && token.value.task < TASKS && p.Eligible(token.value.task, stage)
                  && (forall j: nat | j < TASKS && p.Eligible(j, stage) ::
                        p.Distance(stage, token.value.task) <= p.Distance(stage, j))
                  && token.value == p.Token(token.value.task, stage)
                  && q == p.Taken(token.value.task, stage) && q.Current(token.value))
  {
    ScanMeaning(p, stage, 0);
  }

  /** Aiming the cursor at an eligible task reserves that very task. */
  lemma ReserveAimed(p: PoolState, i: nat)
    requires i < TASKS && p.tasks[i].stage < STAGES && p.Eligible(i, p.tasks[i].stage)
    ensures var stage := p.tasks[i].stage;
            var aimed := p.(next := p.next[stage := i]);
            aimed.Reserve(stage) == (p.Taken(i, stage), Some(p.Token(i, stage)))
  {
    var stage := p.tasks[i].stage;
    var aimed := p.(next := p.next[stage := i]);
    assert aimed.Eligible(i, stage);
    assert (aimed.next[stage] + 0) % TASKS == i;
    assert aimed.next[stage := (i + 1) % TASKS] == p.next[stage := (i + 1) % TASKS];
  }

  // ----- operations preserve soundness; stages advance one by one -----

  lemma TakenSound(p: PoolState, i: nat, stage: nat)
    requires p.Sound() && i < TASKS && stage < STAGES && p.Eligible(i, stage)
    ensures p.Taken(i, stage).Sound()
  {
    var q := p.Taken(i, stage);
    forall j: nat | j < TASKS ensures q.TaskSound(j) {
      assert p.TaskSound(j);
    }
  }

  lemma CurrentStage(p: PoolState, token: Reservation)
    requires p.Sound() && p.Current(token)
    ensures token.stage < STAGES
  {
    assert p.TaskSound(token.task);
  }

  lemma CancelSound(p: PoolState, token: Reservation)
    requires p.Sound()
    ensures p.CancelUnsent(token).0.Sound()
  {
    var q := p.CancelUnsent(token).0;
    forall j: nat | j < TASKS ensures q.TaskSound(j) {
      assert p.TaskSound(j);
    }
  }

  /**
   `finish` returns True exactly for the task's current reservation. It touches that task only:
   failure makes it unknown for good, success moves it to the next stage modulo twelve and makes it idle.
   It raises only when a current RUN brings no new attempt.
   */
  lemma FinishMeaning(p: PoolState, token: Reservation, success: bool, attempt: Option<Attempt>)
    requires p.Sound()
    ensures var r := p.Finish(token, success, attempt);
            && (r.Failure? <==> p.Current(token) && success && token.stage == 11
                                && (attempt.None? || attempt.value.Empty() || attempt.value == token.attempt))
            && (r.Success? ==>
                  var (q, ok) := r.value;
                  && q.Sound() && ok == p.Current(token)
                  && q.next == p.next && q.serial == p.serial
                  && (!ok ==> q == p)
                  && (forall i | 0 <= i < TASKS && i != token.task :: q.tasks[i] == p.tasks[i])
                  && (ok ==>
                        var before := p.tasks[token.task]; var after := q.tasks[token.task];
                        && after.path == before.path && after.reservation.None?
                        && (!success ==> after == before.(unknown := true, reservation := None))
                        && (success ==> !after.busy && !after.unknown && after.stage == (before.stage + 1) % STAGES)
                        && (success && token.stage < 11 ==> after.attempt == before.attempt)
                        && (success && token.stage == 11 ==>
                              attempt == Some(after.attempt) && after.attempt != before.attempt)))
  {
    var r := p.Finish(token, success, attempt);
    if p.Current(token) { assert p.TaskSound(token.task); }
    if r.Success? {
      var q := r.value.0;
      forall j: nat | j < TASKS ensures q.TaskSound(j) {
        assert p.TaskSound(j);
      }
    }
  }

  // ----- whole runs -----

  /** Everything a caller can do to a pool; `Aim` is the assignment to a rotation stage's cursor. */
  datatype PoolOp =
    | DoReserve(stage: nat)
    | DoCancel(token: Reservation)
    | DoFinish(token: Reservation, success: bool, attempt: Option<Attempt>)
    | Aim(stage: nat, task: nat)

  ghost predicate Legal(op: PoolOp) {
    && (op.DoReserve? ==> op.stage < STAGES)
    && (op.Aim? ==> op.stage < STAGES && op.task < TASKS)
  }

  /** One operation; a raise leaves the pool as it was. */
  function Apply(p: PoolState, op: PoolOp): PoolState
    requires Legal(op)
  {
    match op
    case DoReserve(stage) => p.Reserve(stage).0
    case DoCancel(token) => p.CancelUnsent(token).0
    case DoFinish(token, success, attempt) =>
      (match p.Finish(token, success, attempt) case Success(v) => v.0 case Failure(_) => p)
    case Aim(stage, task) => p.(next := p.next[stage := task])
  }

  lemma ApplySound(p: PoolState, op: PoolOp)
    requires p.Sound() && Legal(op)
    ensures Apply(p, op).Sound()
  {
    match op
    case DoReserve(stage) =>
      ReserveMeaning(p, stage);
      var token := p.Reserve(stage).1;
      if token.Some? { TakenSound(p, token.value.task, stage); }
    case DoCancel(token) => CancelSound(p, token);
    case DoFinish(token, success, attempt) => FinishMeaning(p, token, success, attempt);
    case Aim(stage, task) =>
      var q := Apply(p, op);
      forall j: nat | j < TASKS ensures q.TaskSound(j) {
        assert p.TaskSound(j);
      }
  }

  /** The states of a run, first to last. */
  ghost predicate IsRun(states: seq<PoolState>, ops: seq<PoolOp>) {
    && |states| == |ops| + 1
    && (forall k | 0 <= k < |ops| :: Legal(ops[k]))
    && states[0].Sound()
    && (forall k | 0 <= k < |ops| :: states[k+1] == Apply(states[k], ops[k]))
  }

  lemma {:induction false} RunSound(states: seq<PoolState>, ops: seq<PoolOp>, k: nat)
    requires IsRun(states, ops) && k <= |ops|
    ensures states[k].Sound()
  {
    if k > 0 {
      RunSound(states, ops, k - 1);
      ApplySound(states[k-1], ops[k-1]);
    }
  }

  /** A token that some task once held and that holds none now. */
  ghost predicate Spent(p: PoolState, token: Reservation) {
    && token.serial < p.serial
    && (token.task < TASKS ==> p.tasks[token.task].reservation != Some(token))
  }

  lemma SpentStays(p: PoolState, token: Reservation, op: PoolOp)
    requires p.Sound() && Legal(op) && Spent(p, token)
    ensures Spent(Apply(p, op), token)
  {
  }

  /**
   A reservation is resolved at most once: after `finish` or `cancel_unsent` has returned True for
   a token, every later use of the token, in any run, returns False and changes nothing.
   */
  lemma {:induction false} ResolvedOnce(states: seq<PoolState>, ops: seq<PoolOp>, token: Reservation, k: nat,
                                        success: bool, attempt: Option<Attempt>)
    requires IsRun(states, ops) && 0 < k <= |ops|
    requires states[0].Current(token)
    requires ops[0] == DoCancel(token) || (ops[0].DoFinish? && ops[0].token == token
               && states[0].Finish(token, ops[0].success, ops[0].attempt).Success?)
    ensures !states[k].Current(token)
    ensures states[k].CancelUnsent(token) == (states[k], false)
    ensures states[k].Finish(token, success, attempt) == Success((states[k], false))
  {
    SpentAfter(states, ops, token, k);
  }

  lemma {:induction false} SpentAfter(states: seq<PoolState>, ops: seq<PoolOp>, token: Reservation, k: nat)
    requires IsRun(states, ops) && 0 < k <= |ops|
    requires states[0].Current(token)
    requires ops[0] == DoCancel(token) || (ops[0].DoFinish? && ops[0].token == token
               && states[0].Finish(token, ops[0].success, ops[0].attempt).Success?)
    ensures Spent(states[k], token)
  {
    RunSound(states, ops, k - 1);
    if k == 1 {
      assert states[0].TaskSound(token.task);
      assert states[1] == Apply(states[0], ops[0]);
      ApplySound(states[0], ops[0]);
    } else {
      SpentAfter(states, ops, token, k - 1);
      SpentStays(states[k-1], token, ops[k-1]);
    }
  }

  /** Unknown is absorbing: no run ever rewrites an unknown task. */
  lemma {:induction false} UnknownAbsorbs(states: seq<PoolState>, ops: seq<PoolOp>, i: nat, k: nat)
    requires IsRun(states, ops) && i < TASKS && k <= |ops| && states[0].tasks[i].unknown
    ensures states[k].tasks[i] == states[0].tasks[i]
  {
    if k > 0 {
      UnknownAbsorbs(states, ops, i, k - 1);
      var p, op := states[k-1], ops[k-1];
      RunSound(states, ops, k - 1);
      ApplySound(p, op);
      match op
      case DoReserve(stage) => ReserveMeaning(p, stage);
      case DoCancel(_) =>
      case DoFinish(t, success, attempt) => FinishMeaning(p, t, success, attempt);
      case Aim(_, _) =>
    }
  }

  /** How often the first k operations reserve for `stage`. */
  function Calls(ops: seq<PoolOp>, stage: nat, k: nat): nat
    requires k <= |ops|
  {
    if k == 0 then 0 else Calls(ops, stage, k - 1) + (if ops[k-1] == DoReserve(stage) then 1 else 0)
  }

  /** A reserve that leaves an eligible task behind brings the cursor strictly closer to it. */
  lemma Closer(p: PoolState, stage: nat, j: nat)
    requires p.Sound() && stage < STAGES && j < TASKS
    requires p.Eligible(j, stage) && p.Reserve(stage).0.Eligible(j, stage)
    ensures p.Reserve(stage).0.Distance(stage, j) < p.Distance(stage, j)
  {
    hide PoolState.Reserve, PoolState.Sound;
    ReserveMeaning(p, stage);
    PastTask(p, stage, p.Reserve(stage).1.value.task, j);
  }

  /** The cursor behind a task taken earlier is closer to j. */
  lemma PastTask(p: PoolState, stage: nat, i: nat, j: nat)
    requires stage < STAGES && i < TASKS && j < TASKS && p.Distance(stage, i) <= p.Distance(stage, j)
    requires p.Taken(i, stage).Eligible(j, stage)
    ensures p.Taken(i, stage).Distance(stage, j) < p.Distance(stage, j)
  {
    assert p.Taken(i, stage).next[stage] == if i == TASKS - 1 then 0 else i + 1;
  }

  lemma DistanceStep(p: PoolState, op: PoolOp, stage: nat, j: nat)
    requires p.Sound() && Legal(op) && stage < STAGES && j < TASKS
    requires !(op.Aim? && op.stage == stage)
    requires p.Eligible(j, stage) && Apply(p, op).Eligible(j, stage)
    ensures Apply(p, op).Distance(stage, j) + (if op == DoReserve(stage) then 1 else 0) <= p.Distance(stage, j)
  {
    match op
    case DoReserve(s) =>
      if s == stage { Closer(p, stage, j); } else { ReserveMeaning(p, s); }
    case DoCancel(_) =>
    case DoFinish(t, success, attempt) => FinishMeaning(p, t, success, attempt);
    case Aim(_, _) =>
  }

  /**
   Bounded waiting: while a task stays eligible for a stage whose cursor nobody re-aims, every
   `reserve` for that stage shortens its distance, so fewer than 250 of them can pass it by.
   */
  lemma {:induction false} BoundedWaiting(states: seq<PoolState>, ops: seq<PoolOp>, stage: nat, j: nat, k: nat)
    requires IsRun(states, ops) && stage < STAGES && j < TASKS && k <= |ops|
    requires forall n | 0 <= n < |ops| :: !(ops[n].Aim? && ops[n].stage == stage)
    requires forall n | 0 <= n <= k :: states[n].Eligible(j, stage)
    ensures states[k].Distance(stage, j) + Calls(ops, stage, k) <= states[0].Distance(stage, j) < TASKS
  {
    hide PoolState.Distance, PoolState.TaskSound, Apply, Legal;
    if k > 0 {
      BoundedWaiting(states, ops, stage, j, k - 1);
      assert states[k] == Apply(states[k-1], ops[k-1]);
      RunSound(states, ops, k - 1);
      DistanceStep(states[k-1], ops[k-1], stage, j);
    }
  }

  // ----- the pool object -----

  class Pool {
    var tasks: TaskTable
    var next: StageCursors
    var serial: nat

    function State(): PoolState reads this { PoolState(tasks, next, serial) }

    constructor (initial: PoolState)
      ensures State() == initial
    {
      tasks, next, serial := initial.tasks, initial.next, initial.serial;
    }

    method Reserve(stage: nat) returns (token: Option<Reservation>)
      requires stage < STAGES
      modifies this
      ensures (State(), token) == old(State()).Reserve(stage)
    {
      ghost var before := State();
      ghost var found := before.Scan(stage, 0);
      for offset := 0 to TASKS
        invariant State() == before
        invariant found == before.Scan(stage, offset)
      {
        var i := (next[stage] + offset) % TASKS;
        var task := tasks[i];
        if task.stage == stage && !task.busy && !task.unknown {
          assert found == Some(i);
          var taken := Reservation(serial, i, stage, task.attempt, CommandAt(stage).Name());
          serial := serial + 1;
          tasks := tasks[i := task.(busy := true, reservation := Some(taken))];
          next := next[stage := (i + 1) % TASKS];
          assert State() == before.Taken(i, stage);
          return Some(taken);
        }
      }
      return None;
    }

    method CancelUnsent(token: Reservation) returns (ok: bool)
      modifies this
      ensures (State(), ok) == old(State()).CancelUnsent(token)
    {
      if !State().Current(token) {
        return false;
      }
      var task := tasks[token.task];
      tasks := tasks[token.task := task.(busy := false, reservation := None)];
      return true;
    }

    method Finish(token: Reservation, success: bool, attempt: Option<Attempt>) returns (r: Result<bool, string>)
      modifies this
      ensures match old(State()).Finish(token, success, attempt)
              case Success(v) => r == Success(v.1) && State() == v.0
              case Failure(e) => r == Failure(e) && State() == old(State())
    {
      if !State().Current(token) {
        return Success(false);
      }
      var task := tasks[token.task];
      if !success {
        tasks := tasks[token.task := task.(unknown := true, reservation := None)];
        return Success(true);
      }
      if token.stage == 11 {
        if attempt.None? || attempt.value.Empty() || attempt.value == task.attempt {
          return Failure("rotation must establish a new attempt");
        }
        task := task.(attempt := attempt.value, stage := 0);
      } else {
        task := task.(stage := task.stage + 1);
      }
      tasks := tasks[token.task := task.(busy := false, reservation := None)];
      return Success(true);
    }
  }
}
