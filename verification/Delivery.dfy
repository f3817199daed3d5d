/** Deliveries of worker events, and the theorems over whole runs of the exchange. */
module ExchangeRuns {
  import opened Common
  import opened Channels
  import opened ArrivalGrid
  import opened ReservationPool
  import opened ConcurrencyLimits
  import opened AccountingLedger
  import opened EngineModel
  import opened EngineInvariant
  import opened EngineTick
  import opened EventEffects
  import opened RequestEffects
  import opened RefusalReasons
  import opened Workers
  import opened WriterProofs
  import opened Exchange

  // ----- what each event does to the coordinator -----

  lemma SettleSent(e: EngineState, ev: Event)
    requires Inv(e) && ev.SentEvent? && Fits(e, ev) && ev.id in e.requests && ev.id !in e.terminal
    ensures var f := e.Accept(ev);
            && Settled(e, f, ev.id) && f.requests == e.requests && f.pool == e.pool
            && ev.id in f.books.active && f.books.active[ev.id].status == OnWire(ev.at)
  {
    hide Inv, Fits, EngineState.Accept, Counts;
    SentMeans(e, ev);
    SamePool(e.pool, e.requests[ev.id].1);
  }

  lemma SettleNotSent(e: EngineState, ev: Event)
    requires Inv(e) && ev.NotSentEvent? && Fits(e, ev) && ev.id in e.requests && ev.id !in e.terminal
    ensures var f, token := e.Accept(ev), e.requests[ev.id].1;
            && Settled(e, f, ev.id) && ev.id !in f.requests
            && (token.Some? ==>
                  && token.value.task < TASKS
                  && f.pool.tasks[token.value.task] ==
                    e.pool.tasks[token.value.task].(busy := false, reservation := None))
  {
    hide Inv, Fits, EngineState.Accept, Counts, OnlyTask;
    NotSentMeans(e, ev);
  }

  lemma SettleFailure(e: EngineState, ev: Event)
    requires Inv(e) && ev.TransportFailure? && Fits(e, ev) && ev.id in e.requests && ev.id !in e.terminal
    ensures var f, token := e.Accept(ev), e.requests[ev.id].1;
            && Settled(e, f, ev.id) && f.requests == e.requests && f.books == e.books && f.stopped.Some?
            && (token.Some? ==>
                  token.value.task < TASKS && SameFace(e.pool.tasks[token.value.task], f.pool.tasks[token.value.task]))
  {
    hide Linked, Owned, Live, PoolOk, Valid, RotatingOk, LimitsState.Tight, Books.Balanced, FirstTimers;
    hide PoolState.Finish;
    hide EngineState.Completion, EngineState.Close, Books.Withhold, Books.Send;
    LinkedKeys(e);
    var token := e.requests[ev.id].1;
    if token.Some? { FailPoolOk(e.pool, e.identities, token.value); }
  }

  /** The pool task of a completed request: advanced on success, unknown otherwise. */
  ghost predicate TaskAnswered(before: SlotTask, after: SlotTask, token: Reservation, ev: Event, outcome: Outcome)
    requires ev.CompletedEvent?
  {
    if outcome != Succeeded then SameFace(before, after)
    else
      && after.path == before.path && !after.busy && after.stage == (before.stage + 1) % STAGES
      && (if token.stage == 11 then ev.identity.Some? && after.attempt == ev.identity.value.attempt
          else after.attempt == before.attempt)
  }

  lemma SettleCompleted(e: EngineState, ev: Event)
    requires Inv(e) && ev.CompletedEvent? && Fits(e, ev) && ev.id in e.requests && ev.id !in e.terminal
    ensures var f, row, token := e.Accept(ev), e.requests[ev.id].0, e.requests[ev.id].1;
            var outcome := e.Judge(row, token, ev).0;
            && Settled(e, f, ev.id) && ev.id !in f.requests
            && (outcome != Succeeded ==> f.stopped.Some?)
            && (token.Some? ==>
                  && token.value.task < TASKS
                  && TaskAnswered(e.pool.tasks[token.value.task], f.pool.tasks[token.value.task], token.value, ev,
                                  outcome))
  {
    hide Inv, Fits, EngineState.Accept, Counts, OnlyTask, Proven, EngineState.Judge, EngineState.Matches;
    CompletedMeans(e, ev);
    JudgeIsProven(e, ev);
    if e.requests[ev.id].1.Some? { CompletedTask(e, ev); }
    ProvenSucceeds(e, ev);
  }

  // ----- deliveries keep the invariant -----

  lemma NextDeliver(s: Sys, rid: nat)
    requires rid in s.jobs && s.jobs[rid].delivered < |s.jobs[rid].history|
    ensures var job := s.jobs[rid];
            var ev := job.history[job.delivered];
            var f := s.engine.Accept(ev);
            Next(s, Deliver(rid)) ==
              if rid in s.engine.requests && rid !in s.engine.terminal && rid !in f.requests && Clean(s.engine, job, ev)
              then s.(engine := f, jobs := s.jobs - {rid})
              else s.(engine := f, jobs := s.jobs[rid := job.(delivered := job.delivered + 1)])
  {
  }

  /** Events of closed or given-up requests change nothing but the reading position. */
  lemma DeliverIgnored(s: Sys, rid: nat)
    requires JobsOk(s) && Agreement(s) && rid in s.jobs && s.jobs[rid].delivered < |s.jobs[rid].history|
    requires rid !in s.engine.requests || rid in s.engine.terminal
    ensures var after := s.(jobs := s.jobs[rid := s.jobs[rid].(delivered := s.jobs[rid].delivered + 1)]);
            JobsOk(after) && Agreement(after)
  {
    hide JobsOk, Agreement, TracePrefix;
    JobFacts(s, rid);
    var job := s.jobs[rid].(delivered := s.jobs[rid].delivered + 1);
    if rid in s.engine.requests { OpenProgress(s, rid); }
    JobsReplace(s, rid, job);
    WorkAgreement(s, rid, job);
  }

  lemma OpenProgress(s: Sys, rid: nat)
    requires JobsOk(s) && rid in s.engine.requests
    ensures rid in s.jobs && Progress(s.engine, rid, s.jobs[rid]) && TokenOk(s.engine.pool, s.jobs[rid])
    ensures s.engine.requests[rid] == (s.jobs[rid].row, s.jobs[rid].token)
  {
  }

  /** The facts about a job whose next event meets an open request. */
  ghost predicate Due(s: Sys, rid: nat, ev: Event) {
    && Inv(s.engine) && JobsOk(s) && Agreement(s)
    && rid in s.engine.requests && rid !in s.engine.terminal && rid in s.jobs
    && s.jobs[rid].delivered < |s.jobs[rid].history| && ev == s.jobs[rid].history[s.jobs[rid].delivered]
    && ev.id == rid && Fits(s.engine, ev)
  }

  lemma DeliverSent(s: Sys, rid: nat, ev: Event)
    requires Due(s, rid, ev) && ev.SentEvent?
    ensures var after :=
              s.(engine := s.engine.Accept(ev),
                 jobs := s.jobs[rid := s.jobs[rid].(delivered := s.jobs[rid].delivered + 1)]);
            JobsOk(after) && Agreement(after)
  {
    hide Inv, JobsOk, Agreement, EngineState.Accept, Fits, Settled;
    var f := s.engine.Accept(ev);
    var job := s.jobs[rid].(delivered := s.jobs[rid].delivered + 1);
    JobFacts(s, rid);
    OpenProgress(s, rid);
    SettleSent(s.engine, ev);
    assert f.terminal == s.engine.terminal by { SettledTerminal(s.engine, f, rid); }
    SettledKept(s, f, rid, job);
    SamePool(s.engine.pool, job.token);
    AgreementKept(s, f, rid, job);
  }

  lemma SettledTerminal(e: EngineState, f: EngineState, rid: nat)
    requires Settled(e, f, rid)
    ensures f.terminal == e.terminal && OnlyTask(e.pool, f.pool, e.requests[rid].1)
  {
  }

  lemma DeliverFailure(s: Sys, rid: nat, ev: Event)
    requires Due(s, rid, ev) && ev.TransportFailure?
    ensures var after :=
              s.(engine := s.engine.Accept(ev),
                 jobs := s.jobs[rid := s.jobs[rid].(delivered := s.jobs[rid].delivered + 1)]);
            JobsOk(after) && Agreement(after)
  {
    hide Inv, JobsOk, Agreement, EngineState.Accept, Fits, Settled, OnlyTask;
    var f := s.engine.Accept(ev);
    var job := s.jobs[rid].(delivered := s.jobs[rid].delivered + 1);
    JobFacts(s, rid);
    OpenProgress(s, rid);
    SettleFailure(s.engine, ev);
    SettledTerminal(s.engine, f, rid);
    SettledKept(s, f, rid, job);
    AgreementKept(s, f, rid, job);
  }

  lemma DeliverNotSent(s: Sys, rid: nat, ev: Event)
    requires Due(s, rid, ev) && ev.NotSentEvent?
    ensures var after := s.(engine := s.engine.Accept(ev), jobs := s.jobs - {rid});
            JobsOk(after) && Agreement(after) && rid !in after.engine.requests
  {
    hide Inv, JobsOk, Agreement, EngineState.Accept, Fits, Settled, OnlyTask;
    var f := s.engine.Accept(ev);
    JobFacts(s, rid);
    OpenProgress(s, rid);
    SettleNotSent(s.engine, ev);
    SettledTerminal(s.engine, f, rid);
    SettledGone(s, f, rid);
    AgreementGone(s, f, rid);
  }

  lemma DeliverCompleted(s: Sys, rid: nat, ev: Event)
    requires Due(s, rid, ev) && ev.CompletedEvent?
    ensures var job := s.jobs[rid];
            var jobs := if Clean(s.engine, job, ev) then s.jobs - {rid}
                        else s.jobs[rid := job.(delivered := job.delivered + 1)];
            var after := s.(engine := s.engine.Accept(ev), jobs := jobs);
            JobsOk(after) && Agreement(after) && rid !in after.engine.requests
  {
    hide Inv, JobsOk, Agreement, EngineState.Accept, Fits, Settled, OnlyTask;
    var f := s.engine.Accept(ev);
    var job := s.jobs[rid];
    JobFacts(s, rid);
    OpenProgress(s, rid);
    SettleCompleted(s.engine, ev);
    SettledTerminal(s.engine, f, rid);
    if Clean(s.engine, job, ev) {
      SettledGone(s, f, rid);
      ProvenGone(s, rid, ev);
      AgreementGone(s, f, rid);
    } else {
      var kept := job.(delivered := job.delivered + 1);
      SettledKept(s, f, rid, kept);
      AgreementKept(s, f, rid, kept);
    }
  }

  /** A completion judged a success took the proof of this very step from the verifier. */
  lemma ProvenGone(s: Sys, rid: nat, ev: Event)
    requires JobsOk(s) && Agreement(s) && rid in s.jobs && ev.CompletedEvent? && Honest(s.jobs[rid], ev)
    requires JobOk(rid, s.jobs[rid]) && JobAgrees(s.ver, s.jobs[rid])
    requires s.engine.Judge(s.jobs[rid].row, s.jobs[rid].token, ev).0 == Succeeded
    ensures s.jobs[rid].wire != Applied
    ensures s.jobs[rid].token.Some? ==> s.jobs[rid].wire.Consumed? && ev.identity == s.jobs[rid].wire.value.identity
  {
  }

  lemma DeliverKeeps(s: Sys, rid: nat)
    requires Enabled(s, Deliver(rid)) && SysInv(s)
    ensures SysInv(Next(s, Deliver(rid)))
  {
    hide Inv, JobsOk, Agreement, EngineState.Accept, Fits, VerifierState.Accounted, Next;
    var ev := s.jobs[rid].history[s.jobs[rid].delivered];
    DeliverFits(s, rid);
    AcceptKeeps(s.engine, ev);
    NextDeliver(s, rid);
    if rid !in s.engine.requests || rid in s.engine.terminal {
      AcceptIgnored(s.engine, ev);
      DeliverIgnored(s, rid);
    } else {
      match ev
      case Info(_, _) => JobFacts(s, rid);
      case SentEvent(_, _) => DeliverSent(s, rid, ev);
      case NotSentEvent(_, _) => DeliverNotSent(s, rid, ev);
      case CompletedEvent(_, _, _, _, _) => DeliverCompleted(s, rid, ev);
      case TransportFailure(_) => DeliverFailure(s, rid, ev);
    }
  }

  /** What a worker must report for its task to move on: a success, with the proof it was handed. */
  ghost predicate Reported(e: EngineState, task: SlotTask, ev: Event)
    requires ev.CompletedEvent?
  {
    ev.outcome == Succeeded && ev.proof.Some? && (task.stage == 11 ==> Usable(ev.identity, task, e.identities))
  }

  /** A proof that reaches the coordinator was handed to this very job and is about its very step. */
  lemma HandedProof(s: Sys, rid: nat, ev: Event)
    requires Due(s, rid, ev) && ev.CompletedEvent? && s.jobs[rid].token.Some?
    ensures s.engine.requests[rid] == (s.jobs[rid].row, s.jobs[rid].token) && s.jobs[rid].token.value.task < TASKS
    ensures var task := s.engine.pool.tasks[s.jobs[rid].token.value.task];
            && (Proven(s.engine, ev) <==> Reported(s.engine, task, ev))
            && (ev.proof.Some? ==>
                  && s.jobs[rid].wire.Consumed? && task.path in s.ver.stages && task.path in s.ver.attempts
                  && task.path !in s.ver.proofs && s.ver.stages[task.path] == (task.stage + 1) % STAGES
                  && s.ver.attempts[task.path] ==
                     if task.stage == 11 && ev.identity.Some? then ev.identity.value.attempt else task.attempt)
  {
    hide Inv, JobsOk, Agreement, Fits;
    JobFacts(s, rid);
    OpenProgress(s, rid);
  }

  /** How the delivery of a completion leaves the job's task. */
  ghost predicate TaskMoved(s: Sys, t: Sys, rid: nat, ev: Event, i: nat)
    requires rid in s.jobs && ev.CompletedEvent? && i < TASKS
  {
    var before, after := s.engine.pool.tasks[i], t.engine.pool.tasks[i];
    && rid !in t.engine.requests
    && if Reported(s.engine, before, ev) then
         && s.jobs[rid].wire.Consumed? && rid !in t.jobs && Advanced(before, after, ev.identity)
         && TaskAgrees(t.ver, after) && t.engine.stopped == s.engine.stopped
       else GivenUp(before, after) && t.engine.stopped.Some?
  }

  /**
   A delivered completion moves its task on exactly if the worker reports a success with the proof it was
   handed, and then client and verifier stand at the same stage and attempt again. All else ends in doubt.
   */
  lemma DeliveredSuccess(s: Sys, rid: nat)
    requires Enabled(s, Deliver(rid)) && rid in s.engine.requests && rid !in s.engine.terminal
    requires s.jobs[rid].token.Some? && s.jobs[rid].history[s.jobs[rid].delivered].CompletedEvent? && SysInv(s)
    ensures var ev, i := s.jobs[rid].history[s.jobs[rid].delivered], s.jobs[rid].token.value.task;
            i < TASKS && TaskMoved(s, Next(s, Deliver(rid)), rid, ev, i)
  {
    hide Inv, JobsOk, Agreement, EngineState.Accept, Fits, VerifierState.Accounted, Next, Proven, Counts, OnlyTask;
    hide Usable, EngineState.Judge, EngineState.Matches;
    var ev := s.jobs[rid].history[s.jobs[rid].delivered];
    DeliverFits(s, rid);
    HandedProof(s, rid, ev);
    NextDeliver(s, rid);
    CompletedMeans(s.engine, ev);
    JudgeIsProven(s.engine, ev);
    ProvenSucceeds(s.engine, ev);
  }

  lemma AcceptIgnored(e: EngineState, ev: Event)
    requires ev.id !in e.requests || ev.id in e.terminal
    ensures e.Accept(ev) == e
  {
  }

  // ----- whole runs -----

  /** Every step of the exchange keeps its invariant. */
  lemma NextKeeps(s: Sys, step: Step)
    requires Enabled(s, step) && SysInv(s)
    ensures SysInv(Next(s, step))
  {
    hide SysInv, Next;
    match step
    case Deadlines(now) => DeadlinesKeep(s, now);
    case NewRequests(now, admit) => NewRequestsKeep(s, now, admit);
    case Verification(now, deadline, ok) => VerificationKeeps(s, now, deadline, ok);
    case Work(rid, ev) => WorkKeeps(s, rid, ev);
    case Deliver(rid) => DeliverKeeps(s, rid);
    case DeliverInfo(rid, rpc) => DeliverInfoKeeps(s, rid, rpc);
    case Serve(rid, effect) => ServeKeeps(s, rid, effect);
    case Drop(rid) => DropKeeps(s, rid);
    case TakeProof(rid) => TakeProofKeeps(s, rid);
  }

  /** Offers of child slots and the grid cursor move together in every step. */
  lemma NextOffers(s: Sys, step: Step)
    requires Enabled(s, step) && Inv(s.engine)
    ensures var e := Next(s, step).engine;
            Offers(e) - Offers(s.engine) == e.cursor - s.engine.cursor
  {
    hide Inv, Offers, Expiries, Produce, SubmitVerification, EngineState.Accept, WithNew, Served;
    match step
    case Deadlines(now) => ExpiriesKeep(s.engine, now, s.engine.serial); ExpiriesCursor(s.engine, now, s.engine.serial);
    case NewRequests(now, admit) => ProduceGrows(s.engine, now, admit);
    case Verification(now, deadline, ok) => VerificationGrows(s.engine, now, deadline, ok);
    case Deliver(rid) => AcceptOffers(s.engine, s.jobs[rid].history[s.jobs[rid].delivered]);
    case DeliverInfo(rid, rpc) => AcceptOffers(s.engine, Info(rid, rpc));
    case _ =>
  }

  /** Every step keeps the reasons of refusals in order: a worker withholds a request for age only. */
  lemma NextReasoned(s: Sys, step: Step)
    requires Enabled(s, step) && Inv(s.engine) && JobsOk(s) && Reasoned(s.engine.books)
    ensures Reasoned(Next(s, step).engine.books)
  {
    hide Inv, JobsOk, Reasoned, Expiries, Produce, SubmitVerification, EngineState.Accept, WithNew, Served;
    match step
    case Deadlines(now) => ExpiriesReasoned(s.engine, now, s.engine.serial);
    case NewRequests(now, admit) => ProduceReasoned(s.engine, now, admit);
    case Verification(now, deadline, ok) => VerificationReasoned(s.engine, now, deadline, ok);
    case Deliver(rid) =>
      var ev := s.jobs[rid].history[s.jobs[rid].delivered];
      assert ev.NotSentEvent? ==> ev.why == Expired by { WithheldForAge(s, rid); }
      AcceptReasoned(s.engine, ev);
    case DeliverInfo(rid, rpc) => AcceptReasoned(s.engine, Info(rid, rpc));
    case _ =>
  }

  lemma WithheldForAge(s: Sys, rid: nat)
    requires JobsOk(s) && rid in s.jobs
    ensures forall k | 0 <= k < |s.jobs[rid].history| && s.jobs[rid].history[k].NotSentEvent? ::
              s.jobs[rid].history[k].why == Expired
  {
    assert JobOk(rid, s.jobs[rid]);
  }

  /** A start: a fresh coordinator, no jobs, and a verifier set up from the same pool. */
  ghost predicate Initial(s: Sys, variant: Variant, grid: Timetable, paths: seq<string>, given: seq<Attempt>,
                          identities: map<string, Identity>) {
    && Valid(grid) && |given| == |paths| == TASKS && Distinct(paths)
    && (forall i | 0 <= i < TASKS ::
          paths[i] in identities && identities[paths[i]].attempt == given[i] && paths[i] !in TARGETS)
    && s.engine == Start(variant, grid, Fresh(paths, given).value, identities) && s.jobs == map[]
    && s.ver.proofs == map[] && s.ver.bytes == 0
    && (forall i | 0 <= i < TASKS ::
          && paths[i] in s.ver.stages && s.ver.stages[paths[i]] == i / 25
          && paths[i] in s.ver.attempts && s.ver.attempts[paths[i]] == given[i])
  }

  lemma InitialInv(s: Sys, variant: Variant, grid: Timetable, paths: seq<string>, given: seq<Attempt>,
                   identities: map<string, Identity>)
    requires Initial(s, variant, grid, paths, given, identities)
    ensures Steady(s)
  {
    hide Inv, Offers, Valid, Reasoned, OnBeat;
    FirstOnBeat();
    StartInv(variant, grid, paths, given, identities);
    NewReasoned(grid.start);
  }

  /** The invariant of runs: the exchange's own, offers in step with the cursor, reasons in order, timers on beat. */
  ghost predicate Steady(s: Sys) {
    SysInv(s) && Offers(s.engine) == s.engine.cursor && Reasoned(s.engine.books) && OnBeat(s.engine.timers)
  }

  /** Every step keeps the timers on their beat. */
  lemma NextOnBeat(s: Sys, step: Step)
    requires Enabled(s, step) && Inv(s.engine) && OnBeat(s.engine.timers)
    ensures OnBeat(Next(s, step).engine.timers)
  {
    hide Inv, OnBeat, Expiries, Produce, EngineState.Submit, EngineState.Accept, WithNew, Served, Offers, Produced;
    var e := s.engine;
    match step
    case Deadlines(now) => ExpiriesCursor(e, now, e.serial);
    case NewRequests(now, admit) =>
      ProduceMeans(e, now, admit);
      var a := GridStep(e, now, admit);
      var c := if now >= e.grid.end then a else Rotations(a, now, admit, TASKS);
      ProducedOnBeat(e, a, c, Produce(e, now, admit), now, admit);
    case Verification(now, deadline, ok) =>
      SubmitTimers(e, e.MakeRow("full_verify", Verify, now, Min(deadline, now + 60 * NS), now, None, None), None, ok);
    case Deliver(rid) => AcceptOffers(e, s.jobs[rid].history[s.jobs[rid].delivered]);
    case DeliverInfo(rid, rpc) => AcceptOffers(e, Info(rid, rpc));
    case _ =>
  }

  ghost predicate IsRun(run: seq<Sys>, steps: seq<Step>) {
    && |run| == |steps| + 1
    && forall k | 0 <= k < |steps| :: Enabled(run[k], steps[k]) && run[k + 1] == Next(run[k], steps[k])
  }

  lemma {:induction false} RunKeeps(run: seq<Sys>, steps: seq<Step>, k: nat)
    requires IsRun(run, steps) && k < |run| && Steady(run[0])
    ensures Steady(run[k])
  {
    hide SysInv, Offers, Next, Enabled, Reasoned, OnBeat;
    if k > 0 {
      RunKeeps(run, steps, k - 1);
      assert Enabled(run[k - 1], steps[k - 1]) && run[k] == Next(run[k - 1], steps[k - 1]);
      NextKeeps(run[k - 1], steps[k - 1]);
      SysEngine(run[k - 1]);
      NextOffers(run[k - 1], steps[k - 1]);
      NextReasoned(run[k - 1], steps[k - 1]);
      NextOnBeat(run[k - 1], steps[k - 1]);
    }
  }

  lemma SysEngine(s: Sys)
    requires SysInv(s)
    ensures Inv(s.engine) && JobsOk(s)
  {
  }

  /** In every run, a delivered completion moves its task on exactly as reported, and agreement is restored. */
  lemma DeliveriesAdvance(run: seq<Sys>, steps: seq<Step>, variant: Variant, grid: Timetable, paths: seq<string>,
                          given: seq<Attempt>, identities: map<string, Identity>, k: nat, rid: nat)
    requires IsRun(run, steps) && Initial(run[0], variant, grid, paths, given, identities)
    requires k < |steps| && steps[k] == Deliver(rid) && Enabled(run[k], steps[k])
    requires rid in run[k].engine.requests && rid !in run[k].engine.terminal && run[k].jobs[rid].token.Some?
    requires run[k].jobs[rid].history[run[k].jobs[rid].delivered].CompletedEvent?
    ensures var ev, i := run[k].jobs[rid].history[run[k].jobs[rid].delivered], run[k].jobs[rid].token.value.task;
            i < TASKS && TaskMoved(run[k], run[k + 1], rid, ev, i)
  {
    hide Steady, Initial, SysInv, TaskMoved, Next;
    InitialInv(run[0], variant, grid, paths, given, identities);
    RunKeeps(run, steps, k);
    assert SysInv(run[k]) by { SteadySys(run[k]); }
    DeliveredSuccess(run[k], rid);
  }

  lemma SteadySys(s: Sys)
    requires Steady(s)
    ensures SysInv(s) && OnBeat(s.engine.timers)
  {
    hide SysInv, OnBeat;
  }

  /**
   In every run, a step that makes requests offers the live slot, the due rotations and the due timer seconds,
   and a deadline step gives up exactly the requests that have been on the wire for ten seconds.
   */
  lemma TicksMean(run: seq<Sys>, steps: seq<Step>, variant: Variant, grid: Timetable, paths: seq<string>,
                  given: seq<Attempt>, identities: map<string, Identity>, k: nat)
    requires IsRun(run, steps) && Initial(run[0], variant, grid, paths, given, identities) && k < |steps|
    ensures var e, f := run[k].engine, run[k + 1].engine;
            match steps[k]
            case NewRequests(now, admit) => exists a, c :: Produced(e, a, c, f, now, admit)
            case Deadlines(now) => Forsaken(e, f, set r | r in e.requests && r !in e.terminal && Overtime(e, r, now))
            case _ => true
  {
    hide Steady, Initial, SysInv, Produced, Forsaken, Overtime, Inv, OnBeat, WithNew, Expiries, Produce;
    InitialInv(run[0], variant, grid, paths, given, identities);
    RunKeeps(run, steps, k);
    assert SysInv(run[k]) && OnBeat(run[k].engine.timers) by { SteadySys(run[k]); }
    SysEngine(run[k]);
    var e := run[k].engine;
    assert run[k + 1] == Next(run[k], steps[k]);
    match steps[k]
    case NewRequests(now, admit) =>
      ProduceMeans(e, now, admit);
      var a := GridStep(e, now, admit);
      var c := if now >= e.grid.end then a else Rotations(a, now, admit, TASKS);
      assert Produced(e, a, c, run[k + 1].engine, now, admit);
    case Deadlines(now) => DeadlinesMean(e, now);
    case _ =>
  }

  /** Client and verifier, task by task. */
  ghost predicate TwoParties(task: SlotTask, ver: VerifierState) {
    && task.path in ver.stages && task.path in ver.attempts
    && (!task.busy ==>
          ver.stages[task.path] == task.stage && ver.attempts[task.path] == task.attempt && task.path !in ver.proofs)
    && (ver.stages[task.path] == task.stage || ver.stages[task.path] == (task.stage + 1) % STAGES)
    && (ver.stages[task.path] == task.stage ==> ver.attempts[task.path] == task.attempt && task.path !in ver.proofs)
    && (task.path in ver.proofs ==>
          ver.proofs[task.path].proof == Proof(true, Some(task.path), Some(task.stage), Some(task.attempt)))
  }

  lemma TaskParties(s: Sys, i: nat)
    requires SysInv(s) && i < TASKS
    ensures TwoParties(s.engine.pool.tasks[i], s.ver)
  {
    hide Inv, VerifierState.Accounted, Progress, JobOk, ProofsKept, Owner, SlotsApart, Job.ProofPath;
    var task := s.engine.pool.tasks[i];
    assert task.stage < STAGES by { PoolStage(s.engine, i); }
    if Unworked(s.jobs, i) {
      assert TaskAgrees(s.ver, task);
    } else {
      var r :| r in s.jobs && s.jobs[r].token.Some? && s.jobs[r].token.value.task == i;
      assert TokenOk(s.engine.pool, s.jobs[r]) && JobAgrees(s.ver, s.jobs[r]);
    }
  }

  lemma PoolStage(e: EngineState, i: nat)
    requires Inv(e) && i < TASKS
    ensures e.pool.tasks[i].stage < STAGES
  {
    assert e.pool.TaskSound(i);
  }

  /** What holds in every reachable state of the exchange. */
  ghost predicate Safe(s: Sys) {
    var e := s.engine;
    && e.fault.None?
    && e.limits.active.Keys == e.requests.Keys == e.books.active.Keys
    && e.limits.WithinCaps() && |e.requests| <= GLOBAL_CAP
    && (forall r | r in e.requests && e.requests[r].1.Some? ::
          OwnedAt(e.requests[r].0, e.requests[r].1.value, e.pool, e.limits.rotating))
    && (forall q, r | q in e.requests && r in e.requests && q != r && e.requests[q].1.Some? && e.requests[r].1.Some? ::
          e.requests[q].1.value.task != e.requests[r].1.value.task)
    && e.books.Of(Offered).total == e.books.Of(Sent).total + e.books.Of(NotSent).total + |Open(e.books.active, false)|
    && e.books.Of(Sent).total == e.books.Of(Completed).total + |Open(e.books.active, true)|
    && Offers(e) == e.cursor
    && (forall role: Role :: e.books.Count(NotSent, role) == Refusals(e.books, role))
    && (forall role: Role, why: Refusal | !Allowed(role, why) :: e.books.Count(Refused(why), role) == 0)
    && (forall i: nat | i < TASKS :: TwoParties(e.pool.tasks[i], s.ver))
    && s.ver.bytes == Total(s.ver.proofs) && |s.ver.proofs| <= PROOF_SLOTS
  }

  /**
   The main theorem: for every interleaving of ticks, workers, lost and late replies, deadlines,
   server writes and hand-offs, every state of the run is safe.
   */
  lemma RunsAreSafe(run: seq<Sys>, steps: seq<Step>, variant: Variant, grid: Timetable, paths: seq<string>,
                    given: seq<Attempt>, identities: map<string, Identity>, k: nat)
    requires IsRun(run, steps) && Initial(run[0], variant, grid, paths, given, identities) && k < |run|
    ensures Safe(run[k])
  {
    hide Steady, Initial, Safe;
    InitialInv(run[0], variant, grid, paths, given, identities);
    RunKeeps(run, steps, k);
    InvIsSafe(run[k]);
  }

  lemma InvIsSafe(s: Sys)
    requires Steady(s)
    ensures Safe(s)
  {
    hide Refusals, Allowed, TwoParties, JobsOk, Agreement, Live, Calm, PoolOk, Valid, RotatingOk, Books.Balanced;
    hide FirstTimers, Books.Count, Pending;
    SnapshotCloses(s.engine.books);
    forall i: nat | i < TASKS ensures TwoParties(s.engine.pool.tasks[i], s.ver) {
      TaskParties(s, i);
    }
    assert |s.engine.requests.Keys| == |s.engine.limits.active.Keys|;
  }

  // ----- unknown is final -----

  /** Tasks that are unknown in p are the same in q. */
  ghost predicate Frozen(p: PoolState, q: PoolState) {
    forall i: nat | i < TASKS && p.tasks[i].unknown :: q.tasks[i] == p.tasks[i]
  }

  lemma AcceptFrozen(e: EngineState, ev: Event)
    ensures Frozen(e.pool, e.Accept(ev).pool)
  {
    hide Books.Complete, Books.Bump, Books.Withhold, Books.Send, GiveBack, EngineState.Judge;
    hide PoolState.Finish, PoolState.CancelUnsent, EngineState.Completion, Frozen;
    assert Frozen(e.pool, e.pool) by { FrozenSame(e.pool); }
    if ev.id in e.requests {
      var (row, token) := e.requests[ev.id];
      if token.Some? { TokenFrozen(e.pool, token.value, false, None); }
      if ev.CompletedEvent? { CompletionFrozen(e, row, token, ev); }
    }
  }

  lemma FrozenSame(p: PoolState)
    ensures Frozen(p, p)
  {
  }

  lemma TokenFrozen(p: PoolState, token: Reservation, success: bool, attempt: Option<Attempt>)
    ensures Frozen(p, p.CancelUnsent(token).0)
    ensures p.Finish(token, success, attempt).Success? ==> Frozen(p, p.Finish(token, success, attempt).value.0)
  {
  }

  lemma CompletionFrozen(e: EngineState, row: Row, token: Option<Reservation>, ev: Event)
    requires ev.CompletedEvent?
    ensures Frozen(e.pool, e.Completion(row, token, ev).pool)
  {
    hide Books.Complete, Books.Bump, EngineState.Close, EngineState.Stop, EngineState.Judge, EngineState.Resolve;
    hide Frozen;
    FrozenSame(e.pool);
    var (outcome, effective) := e.Judge(row, token, ev);
    if e.books.Complete(ev.id, ev.at, outcome, effective).Success? {
      var a := e.(books := e.books.Complete(ev.id, ev.at, outcome, effective).value);
      var b := if token.Some? then a.Resolve(row, token.value, ev, outcome) else a;
      if token.Some? { ResolveFrozen(a, row, token.value, ev, outcome); }
      CloseFrame(b, ev.id, outcome != Succeeded);
      CloseFrame(b.(books := b.books.Bump(Unknown, row.Own(), 1)), ev.id, outcome != Succeeded);
    }
  }

  lemma ResolveFrozen(e: EngineState, row: Row, token: Reservation, ev: Event, outcome: Outcome)
    requires ev.CompletedEvent?
    ensures Frozen(e.pool, e.Resolve(row, token, ev, outcome).pool)
  {
    hide Books.Bump, PoolState.Finish, Frozen;
    FrozenSame(e.pool);
    TokenFrozen(e.pool, token, false, None);
    TokenFrozen(e.pool, token, true,
                if token.stage == 11 && ev.identity.Some? then Some(ev.identity.value.attempt) else None);
  }

  lemma {:induction false} ExpiriesFrozen(e: EngineState, now: int, bound: nat)
    ensures Frozen(e.pool, Expiries(e, now, bound).pool)
  {
    hide EngineState.Expiry;
    if bound > 0 {
      ExpiriesFrozen(e, now, bound - 1);
      ExpiryFrozen(Expiries(e, now, bound - 1), bound - 1, now);
    }
  }

  lemma ExpiryFrozen(e: EngineState, rid: nat, now: int)
    ensures Frozen(e.pool, e.Expiry(rid, now).pool)
  {
    hide Books.Bump, PoolState.Finish, Frozen;
    FrozenSame(e.pool);
    if rid in e.requests && e.requests[rid].1.Some? { TokenFrozen(e.pool, e.requests[rid].1.value, false, None); }
  }

  lemma GrewFrozen(e: EngineState, f: EngineState)
    requires Inv(e) && Grew(e, f)
    ensures Frozen(e.pool, f.pool)
  {
    forall i: nat | i < TASKS && e.pool.tasks[i].unknown ensures f.pool.tasks[i] == e.pool.tasks[i] {
      assert e.pool.TaskSound(i);
      assert SameTask(e.pool.tasks[i], f.pool.tasks[i]);
    }
  }

  lemma NextFrozen(s: Sys, step: Step)
    requires Enabled(s, step) && Inv(s.engine)
    ensures Frozen(s.engine.pool, Next(s, step).engine.pool)
  {
    hide Inv, Expiries, Produce, SubmitVerification, EngineState.Accept, WithNew, Served, Grew;
    match step
    case Deadlines(now) => ExpiriesFrozen(s.engine, now, s.engine.serial);
    case NewRequests(now, admit) =>
      ProduceGrows(s.engine, now, admit);
      GrewFrozen(s.engine, Produce(s.engine, now, admit));
    case Verification(now, deadline, ok) =>
      VerificationGrows(s.engine, now, deadline, ok);
      GrewFrozen(s.engine, SubmitVerification(s.engine, now, deadline, ok));
    case Deliver(rid) => AcceptFrozen(s.engine, s.jobs[rid].history[s.jobs[rid].delivered]);
    case DeliverInfo(rid, rpc) => AcceptFrozen(s.engine, Info(rid, rpc));
    case _ =>
  }

  /** A task that has become unknown is never written again: a late success changes nothing. */
  lemma {:induction false} UnknownIsFinal(run: seq<Sys>, steps: seq<Step>, i: nat, j: nat, k: nat)
    requires IsRun(run, steps) && Steady(run[0])
    requires i < TASKS && j <= k < |run| && run[j].engine.pool.tasks[i].unknown
    ensures run[k].engine.pool.tasks[i] == run[j].engine.pool.tasks[i]
  {
    hide SysInv, Offers, Next, Enabled, Reasoned;
    if k > j {
      UnknownIsFinal(run, steps, i, j, k - 1);
      RunKeeps(run, steps, k - 1);
      assert Enabled(run[k - 1], steps[k - 1]) && run[k] == Next(run[k - 1], steps[k - 1]);
      SysEngine(run[k - 1]);
      NextFrozen(run[k - 1], steps[k - 1]);
    }
  }

  // ----- what becomes of a write -----

  /** How one step moves the write of job r: sent, then applied or lost, then its proof taken; by its own steps only. */
  ghost predicate WireStep(a: Wire, b: Wire, step: Step, r: nat) {
    match step
    case Work(q, ev) => if q == r && ev.SentEvent? then a == Idle && b == InFlight else b == a
    case Serve(q, _) => if q == r then a == InFlight && (b == Applied || b == Rejected) else b == a
    case Drop(q) => if q == r then a == InFlight && b == Rejected else b == a
    case TakeProof(q) => if q == r then a == Applied && (b == Applied || b.Consumed?) else b == a
    case _ => b == a
  }

  lemma WireMoves(s: Sys, step: Step, r: nat)
    requires Enabled(s, step) && SysInv(s) && r in s.jobs && r in Next(s, step).jobs
    ensures WireStep(s.jobs[r].wire, Next(s, step).jobs[r].wire, step, r)
  {
    hide Inv, Agreement, Expiries, Produce, SubmitVerification, EngineState.Accept, WithNew, Served, Grew, Progress;
    hide TokenOk, SlotsApart, VerifierState.Accounted, VerifierState.HandOff, Clean;
    assert JobOk(r, s.jobs[r]);
    match step
    case NewRequests(now, admit) =>
      ProduceGrows(s.engine, now, admit);
      WithNewForm(s, Produce(s.engine, now, admit));
    case Verification(now, deadline, ok) =>
      VerificationGrows(s.engine, now, deadline, ok);
      WithNewForm(s, SubmitVerification(s.engine, now, deadline, ok));
    case _ =>
  }

  ghost predicate Present(run: seq<Sys>, r: nat, j: nat, k: nat) {
    k < |run| && forall i | j <= i <= k :: r in run[i].jobs
  }

  /** A write that was lost is never applied, and a proof that was taken is never replaced. */
  lemma {:induction false} WireIsFinal(run: seq<Sys>, steps: seq<Step>, r: nat, j: nat, k: nat)
    requires IsRun(run, steps) && Steady(run[0]) && j <= k && Present(run, r, j, k)
    requires run[j].jobs[r].wire == Rejected || run[j].jobs[r].wire.Consumed?
    ensures run[k].jobs[r].wire == run[j].jobs[r].wire
  {
    hide SysInv, Steady, Next, Enabled;
    if k > j {
      WireIsFinal(run, steps, r, j, k - 1);
      RunKeeps(run, steps, k - 1);
      SteadySys(run[k - 1]);
      assert Enabled(run[k - 1], steps[k - 1]) && run[k] == Next(run[k - 1], steps[k - 1]);
      WireMoves(run[k - 1], steps[k - 1], r);
    }
  }
}
