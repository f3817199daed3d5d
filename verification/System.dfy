/**
 The whole exchange: coordinator, workers, an unreliable wire, the server's verifier and the proof
 hand-off, interleaved in any order. Replies may be lost and writes may be applied late.
 */
module Exchange {
  import opened Common
  import opened Channels
  import opened ArrivalGrid
  import opened ReservationPool
  import opened ConcurrencyLimits
  import opened AccountingLedger
  import opened EngineModel
  import opened EngineInvariant
  import opened EngineTick
  import opened Workers
  import opened WriterProofs

  /** Where a job's write is: not sent, on its way, applied, its proof taken, or turned down. */
  datatype Wire = Idle | InFlight | Applied | Consumed(value: Handoff) | Rejected

  /** A submitted job: its worker's events so far, how many have been delivered, and its write. */
  datatype Job = Job(row: Row, token: Option<Reservation>, history: seq<Event>, delivered: nat, wire: Wire) {

    /** Where the verifier keeps this job's proof. */
    function ProofPath(): Option<string> {
      if row.channel.Pooled() || row.channel == Batch || row.channel == Structure then row.path else None
    }
  }

  datatype Sys = Sys(engine: EngineState, jobs: map<nat, Job>, ver: VerifierState)

  datatype Step =
    | Deadlines(now: int)
    | NewRequests(now: int, admit: nat -> bool)
    | Verification(now: int, deadline: int, ok: bool)
    | Work(rid: nat, ev: Event)
    | Deliver(rid: nat)
    | DeliverInfo(rid: nat, rpc: Option<bool>)
    | Serve(rid: nat, effect: Effect)
    | Drop(rid: nat)
    | TakeProof(rid: nat)

  /** Jobs for the requests that a step has added. */
  function WithNew(jobs: map<nat, Job>, before: map<nat, Request>, after: map<nat, Request>): map<nat, Job> {
    map r | r in jobs.Keys + after.Keys ::
      if r in after && r !in before then Job(after[r].0, after[r].1, [], 0, Idle)
      else if r in jobs then jobs[r] else Job(after[r].0, after[r].1, [], 0, Idle)
  }

  /** A completion reports the proof that this job has taken, or none. */
  ghost predicate Honest(job: Job, ev: Event) {
    ev.CompletedEvent? ==>
      || (ev.proof.None? && ev.identity.None?)
      || (job.wire.Consumed? && ev.proof == Some(job.wire.value.proof) && ev.identity == job.wire.value.identity)
  }

  ghost predicate Enabled(s: Sys, step: Step) {
    match step
    case Deadlines(_) => true
    case NewRequests(_, _) => s.engine.stopped.None?
    case Verification(now, _, _) => !(s.engine.grid.start <= now < s.engine.grid.end)
    case Work(rid, ev) =>
      && rid in s.jobs && TracePrefix(s.jobs[rid].row, s.jobs[rid].history + [ev]) && Honest(s.jobs[rid], ev)
    case Deliver(rid) => rid in s.jobs && s.jobs[rid].delivered < |s.jobs[rid].history|
    case DeliverInfo(_, _) => true
    case Serve(rid, _) => rid in s.jobs && s.jobs[rid].wire == InFlight && s.jobs[rid].ProofPath().Some?
    case Drop(rid) => rid in s.jobs && s.jobs[rid].wire == InFlight
    case TakeProof(rid) =>
      && rid in s.jobs && s.jobs[rid].wire == Applied && s.jobs[rid].ProofPath().Some?
  }

  /** A request that ended well leaves nothing behind; a failed one may still be applied late. */
  predicate Clean(e: EngineState, job: Job, ev: Event) {
    ev.NotSentEvent? || (ev.CompletedEvent? && e.Judge(job.row, job.token, ev).0 == Succeeded)
  }

  /** What the server's verifier answers to a job's write. */
  function Served(ver: VerifierState, job: Job, effect: Effect): Result<VerifierState, string> {
    if job.ProofPath().None? then Failure("path")
    else if job.token.Some? then ver.Verify(job.ProofPath().value, CommandAt(job.token.value.stage),
                                            job.token.value.attempt, effect)
    else ver.StoreControl(job.ProofPath().value, effect)
  }

  function Next(s: Sys, step: Step): Sys
    requires Enabled(s, step)
  {
    match step
    case Deadlines(now) => s.(engine := Expiries(s.engine, now, s.engine.serial))
    case NewRequests(now, admit) =>
      var e := Produce(s.engine, now, admit);
      s.(engine := e, jobs := WithNew(s.jobs, s.engine.requests, e.requests))
    case Verification(now, deadline, ok) =>
      var e := SubmitVerification(s.engine, now, deadline, ok);
      s.(engine := e, jobs := WithNew(s.jobs, s.engine.requests, e.requests))
    case Work(rid, ev) =>
      var job := s.jobs[rid];
      s.(jobs := s.jobs[rid := job.(history := job.history + [ev],
                                    wire := if ev.SentEvent? then InFlight else job.wire)])
    case Deliver(rid) =>
      var job := s.jobs[rid];
      var ev := job.history[job.delivered];
      var e := s.engine.Accept(ev);
      if rid in s.engine.requests && rid !in s.engine.terminal && rid !in e.requests && Clean(s.engine, job, ev) then
        s.(engine := e, jobs := s.jobs - {rid})
      else
        s.(engine := e, jobs := s.jobs[rid := job.(delivered := job.delivered + 1)])
    case DeliverInfo(rid, rpc) => s.(engine := s.engine.Accept(Info(rid, rpc)))
    case Serve(rid, effect) =>
      (match Served(s.ver, s.jobs[rid], effect)
       case Success(v) => s.(ver := v, jobs := s.jobs[rid := s.jobs[rid].(wire := Applied)])
       case Failure(_) => s.(jobs := s.jobs[rid := s.jobs[rid].(wire := Rejected)]))
    case Drop(rid) => s.(jobs := s.jobs[rid := s.jobs[rid].(wire := Rejected)])
    case TakeProof(rid) =>
      (match s.ver.HandOff(s.jobs[rid].ProofPath().value, s.jobs[rid].token)
       case Success((v, value)) => s.(ver := v, jobs := s.jobs[rid := s.jobs[rid].(wire := Consumed(value))])
       case Failure(_) => s)
  }

  // ----- the invariant of the exchange -----

  const TARGETS: set<string> := {"/flow008", "/flow009", "/flow010", "/flow011"}

  ghost predicate JobOk(r: nat, job: Job) {
    && job.row.id == r && TracePrefix(job.row, job.history) && job.delivered <= |job.history|
    && (job.token.Some? <==> job.row.channel.Pooled())
    && (job.wire == Idle <==> |job.history| == 0 || !job.history[0].SentEvent?)
    && (job.wire.Applied? || job.wire.Consumed? ==> job.ProofPath().Some?)
    && (|job.history| == 2 ==> Honest(job, job.history[1]))
    && (job.row.channel == Batch ==> job.row.path == Some("/flow008"))
    && (job.row.channel == Structure ==> job.row.path.Some? && job.row.path.value in TARGETS - {"/flow008"})
  }

  /** A pool job's task is busy, at the stage and attempt of its reservation. */
  ghost predicate TokenOk(pool: PoolState, job: Job) {
    job.token.Some? ==>
      var t := job.token.value;
      && t.task < TASKS && t.stage < STAGES
      && var task := pool.tasks[t.task];
         task.busy && job.row.path == Some(task.path) && task.stage == t.stage && task.attempt == t.attempt
  }

  /** How far the coordinator has followed an open request that it has not given up. */
  ghost predicate Progress(e: EngineState, r: nat, job: Job) {
    && r in e.requests && r in e.books.active && e.requests[r] == (job.row, job.token)
    && (r !in e.terminal ==>
          && job.delivered <= 1
          && (job.delivered == 0 ==> e.books.active[r].status == Dispatched && Holds(e, job.token))
          && (job.delivered == 1 ==> |job.history| >= 1 && Followed(e.books.active[r].status, job.history[0])))
  }

  ghost predicate Followed(status: Status, first: Event) {
    (first.SentEvent? && status == OnWire(first.at)) || first.TransportFailure?
  }

  /** The verifier's view of a task that a job works on. */
  ghost predicate JobAgrees(ver: VerifierState, job: Job) {
    job.token.Some? && job.row.path.Some? ==>
      var t, p := job.token.value, job.row.path.value;
      && p in ver.stages && p in ver.attempts
      && match job.wire
         case Idle => Same(ver, p, t)
         case InFlight => Same(ver, p, t)
         case Rejected => Same(ver, p, t)
         case Applied => p in ver.proofs && Ahead(ver, p, t, ver.proofs[p])
         case Consumed(value) => p !in ver.proofs && Ahead(ver, p, t, value)
  }

  ghost predicate Same(ver: VerifierState, p: string, t: Reservation)
    requires p in ver.stages && p in ver.attempts
  {
    ver.stages[p] == t.stage && ver.attempts[p] == t.attempt && p !in ver.proofs
  }

  /** The verifier is one stage ahead, and `value` proves this very step. */
  ghost predicate Ahead(ver: VerifierState, p: string, t: Reservation, value: Handoff)
    requires p in ver.stages && p in ver.attempts
  {
    && ver.stages[p] == (t.stage + 1) % STAGES
    && value.proof == Proof(true, Some(p), Some(t.stage), Some(t.attempt))
    && (if t.stage == 11 then value.identity.Some? && ver.attempts[p] == value.identity.value.attempt
        else value.identity.None? && ver.attempts[p] == t.attempt)
  }

  ghost predicate Unworked(jobs: map<nat, Job>, i: nat) {
    forall r | r in jobs && jobs[r].token.Some? :: jobs[r].token.value.task != i
  }

  /** A task nobody works on: client and verifier agree, and no proof is left over. */
  ghost predicate TaskAgrees(ver: VerifierState, task: SlotTask) {
    && task.path in ver.stages && task.path in ver.attempts && task.path !in ver.proofs
    && ver.stages[task.path] == task.stage && ver.attempts[task.path] == task.attempt
  }

  /** Two jobs never share a pool task or a control channel. */
  ghost predicate SlotsApart(jobs: map<nat, Job>) {
    && (forall q, r | q in jobs && r in jobs && q != r && jobs[q].token.Some? && jobs[r].token.Some? ::
          jobs[q].token.value.task != jobs[r].token.value.task)
    && (forall q, r | q in jobs && r in jobs && q != r && Control(jobs[q]) ::
          jobs[q].row.channel != jobs[r].row.channel)
  }

  predicate Control(job: Job) { job.row.channel == Batch || job.row.channel == Structure }

  /** The job whose proof is stored under p. */
  ghost predicate Owner(jobs: map<nat, Job>, r: nat, p: string) {
    r in jobs && jobs[r].wire == Applied && jobs[r].ProofPath() == Some(p)
  }

  /** An applied job's proof is in the store. */
  ghost predicate ProofsKept(jobs: map<nat, Job>, ver: VerifierState) {
    forall r | r in jobs && jobs[r].wire == Applied && jobs[r].ProofPath().Some? ::
      jobs[r].ProofPath().value in ver.proofs
  }

  ghost predicate JobsOk(s: Sys) {
    && (forall r | r in s.engine.requests :: r in s.jobs && Progress(s.engine, r, s.jobs[r]))
    && (forall r | r in s.jobs :: JobOk(r, s.jobs[r]) && TokenOk(s.engine.pool, s.jobs[r]))
    && (forall r | r in s.jobs :: r < s.engine.serial && (r in s.engine.requests || s.engine.stopped.Some?))
    && SlotsApart(s.jobs)
  }

  ghost predicate Agreement(s: Sys) {
    && (forall r | r in s.jobs :: JobAgrees(s.ver, s.jobs[r]))
    && (forall i: nat | i < TASKS && Unworked(s.jobs, i) :: TaskAgrees(s.ver, s.engine.pool.tasks[i]))
    && (forall p | p in s.ver.proofs :: exists r :: Owner(s.jobs, r, p))
    && ProofsKept(s.jobs, s.ver)
    && (forall i: nat | i < TASKS :: s.engine.pool.tasks[i].path !in TARGETS)
  }

  ghost predicate SysInv(s: Sys) {
    Inv(s.engine) && JobsOk(s) && Agreement(s) && s.ver.Accounted()
  }

  // ----- deadlines -----

  /** Giving up requests changes no table and no task but to make it unknown. */
  ghost predicate Aged(e: EngineState, f: EngineState) {
    && f.requests == e.requests && f.books.active == e.books.active && f.serial == e.serial
    && e.terminal <= f.terminal && (e.stopped.Some? ==> f.stopped.Some?)
    && f.grid == e.grid
    && (forall i: nat | i < TASKS :: SameFace(e.pool.tasks[i], f.pool.tasks[i]))
    && (forall r | r in e.requests && e.requests[r].1.Some? && e.requests[r].1.value.task < TASKS && r !in f.terminal ::
          f.pool.tasks[e.requests[r].1.value.task] == e.pool.tasks[e.requests[r].1.value.task])
  }

  ghost predicate SameFace(a: SlotTask, b: SlotTask) {
    b.path == a.path && b.stage == a.stage && b.attempt == a.attempt && b.busy == a.busy
  }

  lemma AgedRefl(e: EngineState)
    ensures Aged(e, e)
  {
  }

  lemma AgedTrans(e: EngineState, f: EngineState, g: EngineState)
    requires Aged(e, f) && Aged(f, g)
    ensures Aged(e, g)
  {
  }

  lemma ExpiryAged(e: EngineState, rid: nat, now: int)
    requires Inv(e)
    ensures Aged(e, e.Expiry(rid, now))
  {
    hide Linked, Owned, PoolOk, Valid, RotatingOk, LimitsState.Tight, Books.Balanced, FirstTimers;
    hide PoolState.Finish, Books.Bump, Books.Count;
    LinkedKeys(e);
    if e.Overdue(rid, now) {
      var (row, token) := e.requests[rid];
      TimeoutBooks(e.books, row.Own());
      if token.Some? {
        FailPoolOk(e.pool, e.identities, token.value);
        OwnedDistinct(e, rid);
      }
    }
  }

  lemma {:induction false} ExpiriesAged(e: EngineState, now: int, bound: nat)
    requires Inv(e)
    ensures Aged(e, Expiries(e, now, bound))
  {
    hide EngineState.Expiry, Inv, Aged;
    if bound > 0 {
      var before := Expiries(e, now, bound - 1);
      ExpiriesAged(e, now, bound - 1);
      ExpiriesKeep(e, now, bound - 1);
      ExpiryAged(before, bound - 1, now);
      AgedTrans(e, before, before.Expiry(bound - 1, now));
    } else {
      AgedRefl(e);
    }
  }

  lemma AgedJobs(s: Sys, f: EngineState)
    requires JobsOk(s) && Aged(s.engine, f)
    ensures JobsOk(s.(engine := f))
  {
    var e := s.engine;
    forall r | r in f.requests ensures r in s.jobs && Progress(f, r, s.jobs[r]) {
      assert Progress(e, r, s.jobs[r]);
      assert TokenOk(e.pool, s.jobs[r]);
    }
    forall r | r in s.jobs ensures TokenOk(f.pool, s.jobs[r]) {
      assert TokenOk(e.pool, s.jobs[r]);
      if s.jobs[r].token.Some? {
        var i := s.jobs[r].token.value.task;
        assert SameFace(e.pool.tasks[i], f.pool.tasks[i]);
      }
    }
  }

  lemma FaceAgreement(s: Sys, f: EngineState)
    requires Agreement(s)
    requires forall i: nat | i < TASKS :: SameFace(s.engine.pool.tasks[i], f.pool.tasks[i])
    ensures Agreement(s.(engine := f))
  {
  }

  lemma DeadlinesKeep(s: Sys, now: int)
    requires Enabled(s, Deadlines(now)) && SysInv(s)
    ensures SysInv(Next(s, Deadlines(now)))
  {
    hide Inv, JobsOk, Agreement, Expiries, VerifierState.Accounted;
    var f := Expiries(s.engine, now, s.engine.serial);
    ExpiriesKeep(s.engine, now, s.engine.serial);
    ExpiriesAged(s.engine, now, s.engine.serial);
    AgedJobs(s, f);
    FaceAgreement(s, f);
  }

  lemma InfoAged(e: EngineState, rid: nat, rpc: Option<bool>)
    ensures Aged(e, e.Accept(Info(rid, rpc)))
  {
  }

  lemma DeliverInfoKeeps(s: Sys, rid: nat, rpc: Option<bool>)
    requires Enabled(s, DeliverInfo(rid, rpc)) && SysInv(s)
    ensures SysInv(Next(s, DeliverInfo(rid, rpc)))
  {
    hide Inv, JobsOk, Agreement, EngineState.Accept, VerifierState.Accounted;
    var f := s.engine.Accept(Info(rid, rpc));
    InfoKeeps(s.engine, Info(rid, rpc));
    InfoAged(s.engine, rid, rpc);
    AgedJobs(s, f);
    FaceAgreement(s, f);
  }

  // ----- new requests -----

  /** A single-slot channel has at most one open request. */
  lemma OneOpen(e: EngineState, q: nat, r: nat)
    requires Inv(e) && q in e.requests && r in e.requests
    requires e.requests[q].0.channel == e.requests[r].0.channel && e.requests[q].0.channel.Cap() == 1
    ensures q == r
  {
    hide Owned, Live, PoolOk, Valid, RotatingOk, Books.Balanced, FirstTimers, Calm, LimitsState.PathsOwned;
    var c := e.requests[q].0.channel;
    assert LinkedAt(e.requests[q], e.limits.active[q], e.books.active[q], q, e.serial);
    assert LinkedAt(e.requests[r], e.limits.active[r], e.books.active[r], r, e.serial);
    assert {q, r} <= On(e.limits.active, c);
    SubsetSize({q, r}, On(e.limits.active, c));
    assert |On(e.limits.active, c)| == e.limits.counts[c] <= e.limits.PeakOf(c) <= c.Cap();
  }

  /** Jobs after new requests: the old ones unchanged, the new ones untouched so far. */
  lemma WithNewForm(s: Sys, f: EngineState)
    requires JobsOk(s) && Grew(s.engine, f)
    ensures var jobs := WithNew(s.jobs, s.engine.requests, f.requests);
            && jobs.Keys == s.jobs.Keys + f.requests.Keys
            && (forall r | r in s.jobs :: jobs[r] == s.jobs[r])
            && (forall r | r in f.requests && r !in s.jobs ::
                  r !in s.engine.requests && NewRequest(s.engine, f, r)
                  && jobs[r] == Job(f.requests[r].0, f.requests[r].1, [], 0, Idle))
  {
  }

  ghost predicate GrewOk(s: Sys, f: EngineState) {
    s.engine.stopped.None? || forall r | r in f.requests && r !in s.engine.requests :: f.requests[r].0.channel == Verify
  }

  lemma IdleUnworked(s: Sys, i: nat)
    requires JobsOk(s) && i < TASKS && !s.engine.pool.tasks[i].busy
    ensures Unworked(s.jobs, i)
  {
  }

  lemma GrewProgress(s: Sys, f: EngineState, r: nat)
    requires JobsOk(s) && Grew(s.engine, f) && Inv(f) && r in f.requests
    ensures var jobs := WithNew(s.jobs, s.engine.requests, f.requests);
            r in jobs && Progress(f, r, jobs[r])
  {
    hide Inv, Grew;
    WithNewForm(s, f);
    if r in s.jobs {
      assert r in s.engine.requests by { NotNew(s, f, r); }
      assert Progress(s.engine, r, s.jobs[r]) && TokenOk(s.engine.pool, s.jobs[r]);
      GrewOld(s.engine, f, r);
      if s.jobs[r].token.Some? { GrewTask(s.engine, f, s.jobs[r].token.value.task); }
    }
  }

  lemma NotNew(s: Sys, f: EngineState, r: nat)
    requires JobsOk(s) && Grew(s.engine, f) && r in s.jobs && r in f.requests
    ensures r in s.engine.requests
  {
  }

  lemma GrewOld(e: EngineState, f: EngineState, r: nat)
    requires Grew(e, f) && r in e.requests
    ensures OldRequest(e, f, r) && f.terminal == e.terminal
  {
  }

  lemma GrewTask(e: EngineState, f: EngineState, i: nat)
    requires Grew(e, f) && i < TASKS
    ensures SameTask(e.pool.tasks[i], f.pool.tasks[i])
  {
  }

  /** A new pool job's token is good: the coordinator's own invariant says so. */
  lemma NewTokenOk(e: EngineState, f: EngineState, r: nat)
    requires Grew(e, f) && Inv(f) && r in f.requests && r !in e.requests
    ensures TokenOk(f.pool, Job(f.requests[r].0, f.requests[r].1, [], 0, Idle))
    ensures JobOk(r, Job(f.requests[r].0, f.requests[r].1, [], 0, Idle))
    ensures r < f.serial
  {
    hide Live, PoolOk, Valid, RotatingOk, Books.Balanced, FirstTimers, Calm, LimitsState.Tight;
    assert NewRequest(e, f, r);
    assert LinkedAt(f.requests[r], f.limits.active[r], f.books.active[r], r, f.serial);
    if f.requests[r].1.Some? {
      assert OwnedAt(f.requests[r].0, f.requests[r].1.value, f.pool, f.limits.rotating);
      assert f.requests[r].1.value.stage < STAGES by { SoundPool(f); CurrentStage(f.pool, f.requests[r].1.value); }
    }
  }

  lemma GrewSlots(s: Sys, f: EngineState, q: nat, r: nat)
    requires JobsOk(s) && Grew(s.engine, f) && Inv(f) && GrewOk(s, f)
    requires var jobs := WithNew(s.jobs, s.engine.requests, f.requests);
             q in jobs && r in jobs && q != r && r !in s.jobs
    ensures var jobs := WithNew(s.jobs, s.engine.requests, f.requests);
            && (jobs[q].token.Some? && jobs[r].token.Some? ==> jobs[q].token.value.task != jobs[r].token.value.task)
            && (Control(jobs[q]) || Control(jobs[r]) ==> jobs[q].row.channel != jobs[r].row.channel)
  {
    hide Inv, Grew;
    var jobs := WithNew(s.jobs, s.engine.requests, f.requests);
    WithNewForm(s, f);
    if q in s.jobs {
      assert TokenOk(s.engine.pool, s.jobs[q]);
      if s.engine.stopped.None? {
        assert Progress(s.engine, q, s.jobs[q]);
        GrewOld(s.engine, f, q);
        if Control(jobs[q]) && jobs[q].row.channel == jobs[r].row.channel { OneOpen(f, q, r); }
        if Control(jobs[r]) && jobs[q].row.channel == jobs[r].row.channel { OneOpen(f, q, r); }
      }
    } else {
      InvOwned(f);
      if Control(jobs[q]) && jobs[q].row.channel == jobs[r].row.channel { OneOpen(f, q, r); }
      if Control(jobs[r]) && jobs[q].row.channel == jobs[r].row.channel { OneOpen(f, q, r); }
    }
  }

  lemma InvOwned(e: EngineState)
    requires Inv(e)
    ensures Owned(e)
  {
  }

  lemma GrewJobs(s: Sys, f: EngineState)
    requires JobsOk(s) && Grew(s.engine, f) && Inv(f) && GrewOk(s, f)
    ensures JobsOk(s.(engine := f, jobs := WithNew(s.jobs, s.engine.requests, f.requests)))
  {
    hide Inv, Grew, GrewOk, WithNew, NewRequest, TokenOk;
    var jobs := WithNew(s.jobs, s.engine.requests, f.requests);
    WithNewForm(s, f);
    assert f.stopped == s.engine.stopped && s.engine.serial <= f.serial by { GrewHead(s.engine, f); }
    forall r | r in f.requests ensures r in jobs && Progress(f, r, jobs[r]) {
      GrewProgress(s, f, r);
    }
    forall r | r in jobs ensures JobOk(r, jobs[r]) && TokenOk(f.pool, jobs[r]) && r < f.serial {
      if r in s.jobs {
        assert JobOk(r, s.jobs[r]) && TokenOk(s.engine.pool, s.jobs[r]);
        KeptToken(s.engine, f, s.jobs[r]);
      } else {
        NewTokenOk(s.engine, f, r);
      }
    }
    forall r | r in jobs ensures r in f.requests || f.stopped.Some? {
      if r in s.jobs && r in s.engine.requests { GrewOld(s.engine, f, r); }
    }
    GrewApart(s, f);
    hide JobOk, Progress, SlotsApart;
  }

  lemma GrewApart(s: Sys, f: EngineState)
    requires JobsOk(s) && Grew(s.engine, f) && Inv(f) && GrewOk(s, f)
    ensures SlotsApart(WithNew(s.jobs, s.engine.requests, f.requests))
  {
    hide Inv, Grew, GrewOk, WithNew, NewRequest, TokenOk, JobOk, Progress;
    var jobs := WithNew(s.jobs, s.engine.requests, f.requests);
    WithNewForm(s, f);
    forall q, r | q in jobs && r in jobs && q != r
      ensures jobs[q].token.Some? && jobs[r].token.Some? ==> jobs[q].token.value.task != jobs[r].token.value.task
      ensures Control(jobs[q]) ==> jobs[q].row.channel != jobs[r].row.channel
    {
      if r !in s.jobs { GrewSlots(s, f, q, r); } else if q !in s.jobs { GrewSlots(s, f, r, q); }
    }
  }

  lemma GrewHead(e: EngineState, f: EngineState)
    requires Grew(e, f)
    ensures f.stopped == e.stopped && e.serial <= f.serial
  {
  }

  lemma KeptToken(e: EngineState, f: EngineState, job: Job)
    requires Grew(e, f) && TokenOk(e.pool, job)
    ensures TokenOk(f.pool, job)
  {
  }

  lemma GrewAgreement(s: Sys, f: EngineState)
    requires JobsOk(s) && Agreement(s) && Grew(s.engine, f) && Inv(f)
    ensures Agreement(s.(engine := f, jobs := WithNew(s.jobs, s.engine.requests, f.requests)))
  {
    hide Inv, Grew, WithNew, TaskAgrees;
    var jobs := WithNew(s.jobs, s.engine.requests, f.requests);
    WithNewForm(s, f);
    forall r | r in jobs ensures JobAgrees(s.ver, jobs[r]) {
      if r in s.jobs {
        assert JobAgrees(s.ver, s.jobs[r]);
      } else if f.requests[r].1.Some? {
        var i := f.requests[r].1.value.task;
        assert NewRequest(s.engine, f, r);
        IdleUnworked(s, i);
        NewTokenOk(s.engine, f, r);
        GrewTask(s.engine, f, i);
        assert TaskAgrees(s.ver, s.engine.pool.tasks[i]);
        AgreesSame(s.ver, s.engine.pool.tasks[i], jobs[r]);
      }
    }
    forall i: nat | i < TASKS && Unworked(jobs, i) ensures TaskAgrees(s.ver, f.pool.tasks[i]) {
      assert Unworked(s.jobs, i) by { FewerWorked(s.jobs, jobs, i); }
      GrewTask(s.engine, f, i);
      SameAgrees(s.ver, s.engine.pool.tasks[i], f.pool.tasks[i]);
    }
    forall p | p in s.ver.proofs ensures exists r :: Owner(jobs, r, p) {
      var r :| Owner(s.jobs, r, p);
      assert Owner(jobs, r, p);
    }
    forall i: nat | i < TASKS ensures f.pool.tasks[i].path !in TARGETS {
      GrewTask(s.engine, f, i);
      assert s.engine.pool.tasks[i].path !in TARGETS;
    }
  }

  lemma FewerWorked(jobs: map<nat, Job>, more: map<nat, Job>, i: nat)
    requires Unworked(more, i) && forall r | r in jobs :: r in more && more[r] == jobs[r]
    ensures Unworked(jobs, i)
  {
  }

  lemma SameAgrees(ver: VerifierState, a: SlotTask, b: SlotTask)
    requires TaskAgrees(ver, a) && SameTask(a, b)
    ensures TaskAgrees(ver, b)
  {
  }

  lemma AgreesSame(ver: VerifierState, task: SlotTask, job: Job)
    requires TaskAgrees(ver, task) && job.wire == Idle && job.token.Some?
    requires job.row.path == Some(task.path) && job.token.value.stage == task.stage
             && job.token.value.attempt == task.attempt
    ensures JobAgrees(ver, job)
  {
  }

  lemma NewRequestsKeep(s: Sys, now: int, admit: nat -> bool)
    requires Enabled(s, NewRequests(now, admit)) && SysInv(s)
    ensures SysInv(Next(s, NewRequests(now, admit)))
  {
    hide Inv, JobsOk, Agreement, Produce, VerifierState.Accounted, Grew, WithNew;
    ProduceGrows(s.engine, now, admit);
    GrewJobs(s, Produce(s.engine, now, admit));
    GrewAgreement(s, Produce(s.engine, now, admit));
  }

  lemma VerificationKeeps(s: Sys, now: int, deadline: int, ok: bool)
    requires Enabled(s, Verification(now, deadline, ok)) && SysInv(s)
    ensures SysInv(Next(s, Verification(now, deadline, ok)))
  {
    hide Inv, JobsOk, Agreement, SubmitVerification, VerifierState.Accounted, Grew, WithNew;
    VerificationGrows(s.engine, now, deadline, ok);
    GrewJobs(s, SubmitVerification(s.engine, now, deadline, ok));
    GrewAgreement(s, SubmitVerification(s.engine, now, deadline, ok));
  }

  // ----- workers, the wire and the proofs -----

  /** One job moves on; its request, its row and its reservation stay. */
  lemma JobsReplace(s: Sys, rid: nat, job: Job)
    requires JobsOk(s) && rid in s.jobs && job.row == s.jobs[rid].row && job.token == s.jobs[rid].token
    requires JobOk(rid, job) && (rid in s.engine.requests ==> Progress(s.engine, rid, job))
    ensures JobsOk(s.(jobs := s.jobs[rid := job]))
  {
    var jobs := s.jobs[rid := job];
    forall r | r in s.engine.requests ensures r in jobs && Progress(s.engine, r, jobs[r]) {
      assert r in s.jobs && Progress(s.engine, r, s.jobs[r]);
    }
    forall r | r in jobs ensures JobOk(r, jobs[r]) && TokenOk(s.engine.pool, jobs[r]) {
      assert JobOk(r, s.jobs[r]) && TokenOk(s.engine.pool, s.jobs[r]);
    }
    assert SlotsApart(jobs) by { assert SlotsApart(s.jobs); ReplaceApart(s.jobs, rid, job); }
  }

  lemma ReplaceApart(jobs: map<nat, Job>, rid: nat, job: Job)
    requires SlotsApart(jobs) && rid in jobs && job.row == jobs[rid].row && job.token == jobs[rid].token
    ensures SlotsApart(jobs[rid := job])
  {
  }

  lemma ReplaceUnworked(jobs: map<nat, Job>, rid: nat, job: Job, i: nat)
    requires rid in jobs && job.token == jobs[rid].token && Unworked(jobs[rid := job], i)
    ensures Unworked(jobs, i)
  {
    forall r | r in jobs && jobs[r].token.Some? ensures jobs[r].token.value.task != i {
      assert r in jobs[rid := job] && jobs[rid := job][r].token == jobs[r].token;
    }
  }

  /** The two verifier states differ at most in what they say about path p. */
  ghost predicate VerOnly(v: VerifierState, w: VerifierState, p: string) {
    forall q: string | q != p ::
      && (q in v.stages <==> q in w.stages) && (q in v.stages ==> w.stages[q] == v.stages[q])
      && (q in v.attempts <==> q in w.attempts) && (q in v.attempts ==> w.attempts[q] == v.attempts[q])
      && (q in v.proofs <==> q in w.proofs) && (q in v.proofs ==> w.proofs[q] == v.proofs[q])
  }

  lemma VerOnlyJob(v: VerifierState, w: VerifierState, p: string, job: Job)
    requires VerOnly(v, w, p) && JobAgrees(v, job) && job.row.path != Some(p)
    ensures JobAgrees(w, job)
  {
  }

  lemma VerOnlyTask(v: VerifierState, w: VerifierState, p: string, task: SlotTask)
    requires VerOnly(v, w, p) && TaskAgrees(v, task) && task.path != p
    ensures TaskAgrees(w, task)
  {
  }

  /** Pool jobs work on different paths, and no idle task has a worked-on path. */
  lemma PathsApart(s: Sys, rid: nat)
    requires PoolOk(s.engine.pool, s.engine.identities) && JobsOk(s) && Agreement(s) && rid in s.jobs
             && s.jobs[rid].ProofPath().Some?
    ensures var p := s.jobs[rid].ProofPath().value;
            && (forall r | r in s.jobs && r != rid && s.jobs[r].token.Some? :: s.jobs[r].row.path != Some(p))
            && (forall i: nat | i < TASKS && Unworked(s.jobs, i) :: s.engine.pool.tasks[i].path != p)
  {
    hide PoolState.Sound, JobAgrees, TaskAgrees, Progress;
    var p := s.jobs[rid].ProofPath().value;
    assert JobOk(rid, s.jobs[rid]) && TokenOk(s.engine.pool, s.jobs[rid]);
    forall r | r in s.jobs && r != rid && s.jobs[r].token.Some? ensures s.jobs[r].row.path != Some(p) {
      assert TokenOk(s.engine.pool, s.jobs[r]);
      assert s.engine.pool.tasks[s.jobs[r].token.value.task].path !in TARGETS;
    }
    forall i: nat | i < TASKS && Unworked(s.jobs, i) ensures s.engine.pool.tasks[i].path != p {
      assert s.engine.pool.tasks[i].path !in TARGETS;
    }
  }

  /** Agreement after one job and its path's entry in the verifier have moved together. */
  lemma AgreementReplace(s: Sys, rid: nat, job: Job, w: VerifierState)
    requires PoolOk(s.engine.pool, s.engine.identities) && JobsOk(s) && Agreement(s) && rid in s.jobs
             && s.jobs[rid].ProofPath().Some?
    requires job.row == s.jobs[rid].row && job.token == s.jobs[rid].token
    requires VerOnly(s.ver, w, s.jobs[rid].ProofPath().value) && JobAgrees(w, job)
    requires s.jobs[rid].ProofPath().value in w.proofs <==> job.wire == Applied
    ensures Agreement(s.(jobs := s.jobs[rid := job], ver := w))
  {
    hide PoolOk, JobAgrees, TaskAgrees, JobsOk;
    var p := s.jobs[rid].ProofPath().value;
    var jobs := s.jobs[rid := job];
    PathsApart(s, rid);
    forall r | r in jobs ensures JobAgrees(w, jobs[r]) {
      if r != rid {
        assert JobAgrees(s.ver, s.jobs[r]);
        if s.jobs[r].token.Some? { VerOnlyJob(s.ver, w, p, s.jobs[r]); } else { PlainAgrees(w, s.jobs[r]); }
      }
    }
    forall i: nat | i < TASKS && Unworked(jobs, i) ensures TaskAgrees(w, s.engine.pool.tasks[i]) {
      ReplaceUnworked(s.jobs, rid, job, i);
      VerOnlyTask(s.ver, w, p, s.engine.pool.tasks[i]);
    }
    forall q | q in w.proofs ensures exists r :: Owner(jobs, r, q) {
      if q == p {
        assert Owner(jobs, rid, q);
      } else {
        var r :| Owner(s.jobs, r, q);
        assert Owner(jobs, r, q);
      }
    }
    ControlProofs(s, rid, job, w);
  }

  lemma PlainAgrees(ver: VerifierState, job: Job)
    requires job.token.None?
    ensures JobAgrees(ver, job)
  {
  }

  /** The proofs of other applied jobs stay where they are. */
  lemma ControlProofs(s: Sys, rid: nat, job: Job, w: VerifierState)
    requires PoolOk(s.engine.pool, s.engine.identities) && JobsOk(s) && Agreement(s) && rid in s.jobs
             && s.jobs[rid].ProofPath().Some?
    requires job.row == s.jobs[rid].row && job.token == s.jobs[rid].token
    requires VerOnly(s.ver, w, s.jobs[rid].ProofPath().value)
    requires job.wire == Applied ==> s.jobs[rid].ProofPath().value in w.proofs
    ensures ProofsKept(s.jobs[rid := job], w)
  {
    hide PoolOk, JobAgrees, TaskAgrees, Progress, TokenOk, TracePrefix;
    var p := s.jobs[rid].ProofPath().value;
    forall r | r in s.jobs && r != rid && s.jobs[r].wire == Applied && s.jobs[r].ProofPath().Some?
      ensures s.jobs[r].ProofPath().value != p && s.jobs[r].ProofPath().value in w.proofs
    {
      ProofPathsDiffer(s, rid, r);
      assert s.jobs[r].ProofPath().value in s.ver.proofs;
    }
  }

  lemma ProofPathsDiffer(s: Sys, q: nat, r: nat)
    requires PoolOk(s.engine.pool, s.engine.identities) && JobsOk(s) && Agreement(s)
    requires q in s.jobs && r in s.jobs && q != r && s.jobs[q].ProofPath().Some? && s.jobs[r].ProofPath().Some?
    ensures s.jobs[q].ProofPath() != s.jobs[r].ProofPath()
  {
    hide PoolOk, JobAgrees, TaskAgrees, Progress, TracePrefix;
    assert JobOk(q, s.jobs[q]) && JobOk(r, s.jobs[r]);
    if s.jobs[r].token.Some? {
      PathsApart(s, q);
    } else if s.jobs[q].token.Some? {
      PathsApart(s, r);
    } else {
      assert Control(s.jobs[q]) && Control(s.jobs[r]);
    }
  }

  lemma WorkKeeps(s: Sys, rid: nat, ev: Event)
    requires Enabled(s, Work(rid, ev)) && SysInv(s)
    ensures SysInv(Next(s, Work(rid, ev)))
  {
    hide Inv, Agreement, VerifierState.Accounted, JobsOk, JobOk, Progress, TracePrefix;
    var job := s.jobs[rid];
    var after := job.(history := job.history + [ev], wire := if ev.SentEvent? then InFlight else job.wire);
    Worked(s, rid, ev);
    JobsReplace(s, rid, after);
    WorkAgreement(s, rid, after);
  }

  lemma Worked(s: Sys, rid: nat, ev: Event)
    requires JobsOk(s) && rid in s.jobs && TracePrefix(s.jobs[rid].row, s.jobs[rid].history + [ev])
             && Honest(s.jobs[rid], ev)
    ensures var job := s.jobs[rid];
            var after := job.(history := job.history + [ev], wire := if ev.SentEvent? then InFlight else job.wire);
            && JobOk(rid, after) && (rid in s.engine.requests ==> Progress(s.engine, rid, after))
            && (ev.SentEvent? ==> job.wire == Idle)
  {
  }

  lemma WorkAgreement(s: Sys, rid: nat, job: Job)
    requires Agreement(s) && rid in s.jobs && job.row == s.jobs[rid].row && job.token == s.jobs[rid].token
    requires job.wire == s.jobs[rid].wire || (s.jobs[rid].wire in {Idle, InFlight} && job.wire in {InFlight, Rejected})
    ensures Agreement(s.(jobs := s.jobs[rid := job]))
  {
    hide TaskAgrees;
    var jobs := s.jobs[rid := job];
    forall r | r in jobs ensures JobAgrees(s.ver, jobs[r]) {
      assert JobAgrees(s.ver, s.jobs[r]);
    }
    hide JobAgrees;
    forall i: nat | i < TASKS && Unworked(jobs, i) ensures TaskAgrees(s.ver, s.engine.pool.tasks[i]) {
      ReplaceUnworked(s.jobs, rid, job, i);
    }
    forall p | p in s.ver.proofs ensures exists r :: Owner(jobs, r, p) {
      var r :| Owner(s.jobs, r, p);
      assert Owner(jobs, r, p);
    }
  }

  lemma DropKeeps(s: Sys, rid: nat)
    requires Enabled(s, Drop(rid)) && SysInv(s)
    ensures SysInv(Next(s, Drop(rid)))
  {
    hide Inv, Agreement, VerifierState.Accounted, TracePrefix, JobsOk, JobOk, Progress;
    var after := s.jobs[rid].(wire := Rejected);
    WireMoved(s, rid, after);
    JobsReplace(s, rid, after);
    WorkAgreement(s, rid, after);
  }

  /** A write that is on its way may change its fate without touching anything else. */
  lemma WireMoved(s: Sys, rid: nat, job: Job)
    requires JobsOk(s) && rid in s.jobs && job == s.jobs[rid].(wire := job.wire) && job.wire != Idle
    requires s.jobs[rid].wire == InFlight || s.jobs[rid].wire == Applied
    requires job.wire.Applied? || job.wire.Consumed? ==> job.ProofPath().Some?
    ensures JobOk(rid, job) && (rid in s.engine.requests ==> Progress(s.engine, rid, job))
  {
  }

  // ----- the server applies a write -----

  /** Where a job's proof would be counted: its task, or one of the two control channels. */
  function Slot(job: Job): nat {
    if job.token.Some? then job.token.value.task else if job.row.channel == Batch then TASKS else TASKS + 1
  }

  lemma SlotInRange(s: Sys, r: nat)
    requires JobsOk(s) && r in s.jobs && s.jobs[r].ProofPath().Some?
    ensures Slot(s.jobs[r]) < PROOF_SLOTS
  {
  }

  lemma SlotsDiffer(s: Sys, q: nat, r: nat)
    requires JobsOk(s) && q in s.jobs && r in s.jobs && q != r && s.jobs[q].ProofPath().Some?
             && s.jobs[r].ProofPath().Some?
    ensures Slot(s.jobs[q]) != Slot(s.jobs[r])
  {
  }

  ghost function OwnerOf(s: Sys, p: string): nat
    requires Agreement(s) && p in s.ver.proofs
    ensures Owner(s.jobs, OwnerOf(s, p), p)
  {
    var r :| Owner(s.jobs, r, p);
    r
  }

  /** 250 pool tasks and two control channels are exactly the store's 252 places: there is always room. */
  lemma ProofRoom(s: Sys, rid: nat)
    requires JobsOk(s) && Agreement(s) && rid in s.jobs && s.jobs[rid].wire != Applied && s.jobs[rid].ProofPath().Some?
    ensures |s.ver.proofs| < PROOF_SLOTS
  {
    hide Slot, JobsOk, Agreement, Job.ProofPath, Below;
    var f := map p | p in s.ver.proofs :: Slot(s.jobs[OwnerOf(s, p)]);
    var range := Below(PROOF_SLOTS) - {Slot(s.jobs[rid])};
    BelowSize(PROOF_SLOTS);
    SlotInRange(s, rid);
    forall p | p in s.ver.proofs.Keys ensures p in f && f[p] in range {
      SlotInRange(s, OwnerOf(s, p));
      SlotsDiffer(s, OwnerOf(s, p), rid);
    }
    forall p, q | p in s.ver.proofs.Keys && q in s.ver.proofs.Keys && p != q ensures f[p] != f[q] {
      SlotsDiffer(s, OwnerOf(s, p), OwnerOf(s, q));
    }
    InjectionSize(f, s.ver.proofs.Keys, range);
    Minus(Below(PROOF_SLOTS), {Slot(s.jobs[rid])});
  }

  /** No proof is stored yet under the path of a write that has not been applied. */
  lemma ProofAbsent(s: Sys, rid: nat)
    requires PoolOk(s.engine.pool, s.engine.identities) && JobsOk(s) && Agreement(s)
    requires rid in s.jobs && s.jobs[rid].wire != Applied && s.jobs[rid].ProofPath().Some?
    ensures s.jobs[rid].ProofPath().value !in s.ver.proofs
  {
    hide PoolOk, JobsOk, JobAgrees, TaskAgrees;
    var p := s.jobs[rid].ProofPath().value;
    forall q | q in s.ver.proofs ensures q != p {
      var r := OwnerOf(s, q);
      ProofPathsDiffer(s, rid, r);
    }
  }

  lemma InvPool(s: Sys)
    requires SysInv(s)
    ensures PoolOk(s.engine.pool, s.engine.identities)
  {
  }

  lemma JobFacts(s: Sys, rid: nat)
    requires JobsOk(s) && Agreement(s) && rid in s.jobs
    ensures JobOk(rid, s.jobs[rid]) && JobAgrees(s.ver, s.jobs[rid])
    ensures s.jobs[rid].wire == Applied && s.jobs[rid].ProofPath().Some? ==>
              s.jobs[rid].ProofPath().value in s.ver.proofs
  {
  }

  /** Whether the verifier takes a write, given that it stands at the write's stage and has room. */
  lemma ServedWhen(ver: VerifierState, job: Job, effect: Effect)
    requires job.ProofPath().Some? && job.wire == InFlight && JobAgrees(ver, job)
    requires job.ProofPath().value !in ver.proofs && |ver.proofs| < PROOF_SLOTS
    ensures Served(ver, job, effect).Success? <==> Sufficient(ver, job, effect)
  {
  }

  /** The write itself checks out, a RUN names a new attempt, and its proof fits the byte limits. */
  ghost predicate Sufficient(ver: VerifierState, job: Job, effect: Effect) {
    && effect.checksPass
    && (job.token.Some? && job.token.value.stage == 11 ==> !effect.identity.attempt.Empty())
    && effect.size <= 65_536 && ver.bytes + effect.size <= 1_048_576
  }

  /**
   A write on its way always finds the verifier at its own stage, its place in the store free and
   room for its proof: only a failed check of the write itself or a byte limit can turn it down.
   */
  lemma ServeFits(s: Sys, rid: nat, effect: Effect)
    requires rid in s.jobs && Enabled(s, Serve(rid, effect)) && SysInv(s)
    ensures Served(s.ver, s.jobs[rid], effect).Success? <==> Sufficient(s.ver, s.jobs[rid], effect)
  {
    hide Inv, Agreement, VerifierState.Accounted, PoolOk, JobsOk, Served, JobAgrees, JobOk, Sufficient;
    InvPool(s);
    ProofRoom(s, rid);
    ProofAbsent(s, rid);
    JobFacts(s, rid);
    ServedWhen(s.ver, s.jobs[rid], effect);
  }

  /** Applying a write moves only its own path, by one stage, and leaves a proof of exactly this step. */
  lemma ServedForm(ver: VerifierState, job: Job, effect: Effect)
    requires job.ProofPath().Some? && job.wire == InFlight && JobAgrees(ver, job) && ver.Accounted()
    requires Served(ver, job, effect).Success? && (job.token.Some? ==> job.token.value.stage < STAGES)
    ensures var w := Served(ver, job, effect).value;
            && VerOnly(ver, w, job.ProofPath().value) && w.Accounted()
            && job.ProofPath().value in w.proofs && JobAgrees(w, job.(wire := Applied))
  {
    hide VerifierState.Accounted;
    var p := job.ProofPath().value;
    if job.token.Some? {
      VerifyAccounted(ver, p, CommandAt(job.token.value.stage), job.token.value.attempt, effect);
    } else {
      StoreAccounted(ver, p, Handoff(Proof(true, None, None, None), None, effect.size));
    }
  }

  lemma ServeKeeps(s: Sys, rid: nat, effect: Effect)
    requires Enabled(s, Serve(rid, effect)) && SysInv(s)
    ensures SysInv(Next(s, Serve(rid, effect)))
  {
    hide Inv, Agreement, VerifierState.Accounted, PoolOk, JobsOk, Served, JobAgrees, JobOk, Progress, VerOnly;
    InvPool(s);
    JobFacts(s, rid);
    var r := Served(s.ver, s.jobs[rid], effect);
    var after := s.jobs[rid].(wire := if r.Success? then Applied else Rejected);
    WireMoved(s, rid, after);
    JobsReplace(s, rid, after);
    if r.Success? {
      if s.jobs[rid].token.Some? { TokenStage(s, rid); }
      ServedForm(s.ver, s.jobs[rid], effect);
      AgreementReplace(s, rid, after, r.value);
      JobsVer(s.(jobs := s.jobs[rid := after]), r.value);
    } else {
      WorkAgreement(s, rid, after);
    }
  }

  ghost predicate AppliedOrNot(s: Sys, t: Sys, rid: nat, effect: Effect)
    requires rid in s.jobs && s.jobs[rid].ProofPath().Some?
  {
    var job := s.jobs[rid].(wire := if Sufficient(s.ver, s.jobs[rid], effect) then Applied else Rejected);
    && t.engine == s.engine && t.jobs == s.jobs[rid := job] && JobAgrees(t.ver, job)
    && (if job.wire == Applied then s.jobs[rid].ProofPath().value in t.ver.proofs else t.ver == s.ver)
  }

  /**
   What serving a write amounts to: it is applied exactly if it suffices, and then the verifier stands one stage
   further and keeps its proof; otherwise it is turned down and the verifier is as before.
   */
  lemma ServeMeans(s: Sys, rid: nat, effect: Effect)
    requires rid in s.jobs && s.jobs[rid].ProofPath().Some? && Enabled(s, Serve(rid, effect)) && SysInv(s)
    ensures AppliedOrNot(s, Next(s, Serve(rid, effect)), rid, effect)
  {
    hide Inv, Agreement, VerifierState.Accounted, PoolOk, JobsOk, Served, JobOk, Progress, VerOnly, Sufficient;
    JobFacts(s, rid);
    ServeFits(s, rid, effect);
    if Served(s.ver, s.jobs[rid], effect).Success? {
      if s.jobs[rid].token.Some? { TokenStage(s, rid); }
      ServedForm(s.ver, s.jobs[rid], effect);
    }
  }

  lemma TokenStage(s: Sys, rid: nat)
    requires JobsOk(s) && rid in s.jobs && s.jobs[rid].token.Some?
    ensures s.jobs[rid].token.value.stage < STAGES
  {
  }

  lemma JobsVer(s: Sys, w: VerifierState)
    requires JobsOk(s)
    ensures JobsOk(s.(ver := w))
  {
  }

  // ----- the hand-off -----

  /** A hand-off to a job whose write was applied always succeeds, and brings its own proof. */
  lemma TakeProofFits(ver: VerifierState, job: Job)
    requires job.ProofPath().Some? && job.wire == Applied && JobAgrees(ver, job) && ver.Accounted()
    requires job.ProofPath().value in ver.proofs
    ensures var r := ver.HandOff(job.ProofPath().value, job.token);
            && r.Success? && r.value.0.Accounted()
            && VerOnly(ver, r.value.0, job.ProofPath().value)
            && job.ProofPath().value !in r.value.0.proofs
            && JobAgrees(r.value.0, job.(wire := Consumed(r.value.1)))
  {
    hide VerifierState.Accounted;
    HandOffAccounted(ver, job.ProofPath().value, job.token);
  }

  lemma TakeProofKeeps(s: Sys, rid: nat)
    requires Enabled(s, TakeProof(rid)) && SysInv(s)
    ensures SysInv(Next(s, TakeProof(rid)))
  {
    hide Inv, Agreement, VerifierState.Accounted, PoolOk, JobsOk, JobAgrees, JobOk, Progress, VerifierState.HandOff;
    hide VerOnly;
    InvPool(s);
    JobFacts(s, rid);
    TakeProofFits(s.ver, s.jobs[rid]);
    var r := s.ver.HandOff(s.jobs[rid].ProofPath().value, s.jobs[rid].token);
    var after := s.jobs[rid].(wire := Consumed(r.value.1));
    WireMoved(s, rid, after);
    JobsReplace(s, rid, after);
    AgreementReplace(s, rid, after, r.value.0);
    JobsVer(s.(jobs := s.jobs[rid := after]), r.value.0);
  }

  ghost predicate HandedOver(s: Sys, t: Sys, rid: nat)
    requires rid in s.jobs && s.jobs[rid].ProofPath().Some?
  {
    var p := s.jobs[rid].ProofPath().value;
    && t.engine == s.engine && p in s.ver.proofs && t.ver.proofs == s.ver.proofs - {p}
    && t.ver.stages == s.ver.stages && t.ver.attempts == s.ver.attempts
    && t.jobs == s.jobs[rid := s.jobs[rid].(wire := Consumed(s.ver.proofs[p]))]
  }

  /** A hand-off takes exactly the proof of its job out of the store and gives it to the job. */
  lemma TakeProofMeans(s: Sys, rid: nat)
    requires rid in s.jobs && s.jobs[rid].ProofPath().Some? && Enabled(s, TakeProof(rid)) && SysInv(s)
    ensures HandedOver(s, Next(s, TakeProof(rid)), rid)
  {
    hide Inv, Agreement, VerifierState.Accounted, PoolOk, JobsOk, JobOk, Progress;
    JobFacts(s, rid);
  }

  // ----- deliveries -----

  /** Every event of a worker fits the coordinator's state when its turn comes. */
  lemma DeliverFits(s: Sys, rid: nat)
    requires JobsOk(s) && rid in s.jobs && s.jobs[rid].delivered < |s.jobs[rid].history|
    ensures var ev := s.jobs[rid].history[s.jobs[rid].delivered];
            ev.id == rid && Fits(s.engine, ev)
  {
    var job := s.jobs[rid];
    assert JobOk(rid, job);
    if rid in s.engine.requests { assert Progress(s.engine, rid, job); }
  }

  /** What settling request `rid` leaves alone: the other requests and their tasks. */
  ghost predicate Settled(e: EngineState, f: EngineState, rid: nat) {
    && rid in e.requests && f.terminal == e.terminal && f.serial == e.serial && f.grid == e.grid
    && (e.stopped.Some? ==> f.stopped.Some?)
    && (forall r | r in f.requests && r != rid :: r in e.requests && f.requests[r] == e.requests[r])
    && (forall r | r in f.requests && r != rid && r in e.books.active ::
          r in f.books.active && f.books.active[r] == e.books.active[r])
    && (forall r | r in e.requests && r != rid :: r in f.requests)
    && OnlyTask(e.pool, f.pool, e.requests[rid].1)
  }

  /** The jobs other than `rid` still fit after it has been settled. */
  lemma SettledOthers(s: Sys, f: EngineState, rid: nat, r: nat)
    requires JobsOk(s) && rid in s.jobs && Settled(s.engine, f, rid) && r in s.jobs && r != rid
    ensures TokenOk(f.pool, s.jobs[r]) && (r in f.requests ==> Progress(f, r, s.jobs[r]))
    ensures r in f.requests || f.stopped.Some?
  {
    hide JobOk;
    assert TokenOk(s.engine.pool, s.jobs[r]) && Progress(s.engine, rid, s.jobs[rid]);
    if s.jobs[r].token.Some? && s.jobs[rid].token.Some? {
      assert s.jobs[r].token.value.task != s.jobs[rid].token.value.task;
    }
    if r in f.requests {
      assert Progress(s.engine, r, s.jobs[r]);
    }
  }

  /** Removing a job that ended well. */
  lemma SettledGone(s: Sys, f: EngineState, rid: nat)
    requires JobsOk(s) && rid in s.jobs && Settled(s.engine, f, rid) && rid !in f.requests
    ensures JobsOk(s.(engine := f, jobs := s.jobs - {rid}))
  {
    hide Settled, Progress, TokenOk, JobOk;
    var jobs := s.jobs - {rid};
    assert f.serial == s.engine.serial && forall r | r in f.requests :: r in s.engine.requests
      by { SettledKeys(s.engine, f, rid); }
    forall r | r in f.requests ensures r in jobs && Progress(f, r, jobs[r]) {
      SettledOthers(s, f, rid, r);
    }
    forall r | r in jobs
      ensures JobOk(r, jobs[r]) && TokenOk(f.pool, jobs[r]) && r < f.serial && (r in f.requests || f.stopped.Some?)
    {
      SettledOthers(s, f, rid, r);
      assert JobOk(r, s.jobs[r]);
    }
    GoneApart(s.jobs, rid);
  }

  lemma GoneApart(jobs: map<nat, Job>, rid: nat)
    requires SlotsApart(jobs)
    ensures SlotsApart(jobs - {rid})
  {
  }

  lemma SettledKeys(e: EngineState, f: EngineState, rid: nat)
    requires Settled(e, f, rid)
    ensures f.serial == e.serial && forall r | r in f.requests :: r in e.requests || r == rid
    ensures rid in e.requests
  {
  }

  /** Keeping a job, one event further. */
  lemma SettledKept(s: Sys, f: EngineState, rid: nat, job: Job)
    requires JobsOk(s) && rid in s.jobs && Settled(s.engine, f, rid)
    requires job.row == s.jobs[rid].row && job.token == s.jobs[rid].token && JobOk(rid, job) && TokenOk(f.pool, job)
    requires rid in f.requests ==> Progress(f, rid, job)
    requires rid in f.requests || f.stopped.Some?
    ensures JobsOk(s.(engine := f, jobs := s.jobs[rid := job]))
  {
    hide Settled, Progress, TokenOk, JobOk;
    var jobs := s.jobs[rid := job];
    SettledKeys(s.engine, f, rid);
    forall r | r in f.requests ensures r in jobs && Progress(f, r, jobs[r]) {
      if r != rid { SettledOthers(s, f, rid, r); }
    }
    forall r | r in jobs
      ensures JobOk(r, jobs[r]) && TokenOk(f.pool, jobs[r]) && r < f.serial && (r in f.requests || f.stopped.Some?)
    {
      if r != rid { SettledOthers(s, f, rid, r); assert JobOk(r, s.jobs[r]); }
    }
    ReplaceApart(s.jobs, rid, job);
  }

  /** Agreement after a job that ended well is gone: its own task is idle and agrees. */
  lemma AgreementGone(s: Sys, f: EngineState, rid: nat)
    requires Agreement(s) && rid in s.jobs && s.jobs[rid].wire != Applied
             && OnlyTask(s.engine.pool, f.pool, s.jobs[rid].token)
    requires s.jobs[rid].token.Some? ==>
               var i := s.jobs[rid].token.value.task;
               i < TASKS && TaskAgrees(s.ver, f.pool.tasks[i]) && f.pool.tasks[i].path == s.engine.pool.tasks[i].path
    ensures Agreement(s.(engine := f, jobs := s.jobs - {rid}))
  {
    hide TaskAgrees, JobAgrees;
    var jobs := s.jobs - {rid};
    forall i: nat | i < TASKS && Unworked(jobs, i) ensures TaskAgrees(s.ver, f.pool.tasks[i]) {
      if s.jobs[rid].token.None? || s.jobs[rid].token.value.task != i {
        assert Unworked(s.jobs, i) by { GoneUnworked(s.jobs, rid, i); }
      }
    }
    forall p | p in s.ver.proofs ensures exists r :: Owner(jobs, r, p) {
      var r :| Owner(s.jobs, r, p);
      assert Owner(jobs, r, p);
    }
  }

  lemma GoneUnworked(jobs: map<nat, Job>, rid: nat, i: nat)
    requires Unworked(jobs - {rid}, i) && rid in jobs && (jobs[rid].token.None? || jobs[rid].token.value.task != i)
    ensures Unworked(jobs, i)
  {
    forall r | r in jobs && jobs[r].token.Some? ensures jobs[r].token.value.task != i {
      if r != rid { assert r in jobs - {rid}; }
    }
  }

  /** Agreement when a job is kept and its task shows the same face. */
  lemma AgreementKept(s: Sys, f: EngineState, rid: nat, job: Job)
    requires Agreement(s) && rid in s.jobs && OnlyTask(s.engine.pool, f.pool, s.jobs[rid].token)
    requires s.jobs[rid].token.Some? ==>
               var i := s.jobs[rid].token.value.task;
               i < TASKS && SameFace(s.engine.pool.tasks[i], f.pool.tasks[i])
    requires job.row == s.jobs[rid].row && job.token == s.jobs[rid].token && job.wire == s.jobs[rid].wire
    ensures Agreement(s.(engine := f, jobs := s.jobs[rid := job]))
  {
    hide Agreement, TaskAgrees, JobAgrees;
    forall i: nat | i < TASKS ensures SameFace(s.engine.pool.tasks[i], f.pool.tasks[i]) {
    }
    FaceAgreement(s, f);
    WorkAgreement(s.(engine := f), rid, job);
  }
}
