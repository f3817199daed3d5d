/** What each worker event and each deadline does to the coordinator, exactly. */
module EventEffects {
  import opened Common
  import opened Channels
  import opened ArrivalGrid
  import opened ReservationPool
  import opened ConcurrencyLimits
  import opened AccountingLedger
  import opened EngineModel
  import opened EngineInvariant
  import opened EngineTick

  // ----- completions -----

  /** The new identity a RUN must bring: with a password, a new attempt, and the stored generation. */
  ghost predicate Usable(identity: Option<Identity>, task: SlotTask, identities: map<string, Identity>) {
    && identity.Some? && identity.value.password != "" && identity.value.attempt != Given("")
    && identity.value.attempt != task.attempt
    && task.path in identities && identity.value.generation == identities[task.path].generation
  }

  /**
   The completion is a proven success. A write needs an effective proof; a pool write needs the proof of
   its own task's path, stage and attempt, and a RUN a usable identity as well.
   */
  ghost predicate Proven(e: EngineState, ev: Event)
    requires ev.CompletedEvent? && ev.id in e.requests
  {
    var (row, token) := e.requests[ev.id];
    && ev.outcome == Succeeded
    && (row.channel in {Child, Rotation, Batch, Structure} ==> ev.proof.Some? && ev.proof.value.effective)
    && (token.Some? ==>
          && token.value.task < 250
          && var task := e.pool.tasks[token.value.task];
             && ev.proof == Some(Proof(true, Some(task.path), Some(task.stage), Some(task.attempt)))
             && (task.stage == 11 ==> Usable(ev.identity, task, e.identities)))
  }

  /** The outcome a completion is counted under. */
  ghost function Verdict(e: EngineState, ev: Event): Outcome
    requires ev.CompletedEvent? && ev.id in e.requests
  {
    if ev.outcome == Succeeded && !Proven(e, ev) then InvalidEffect else ev.outcome
  }

  /** A completion that is no proven success leaves a pool task, and some control writes, in doubt. */
  ghost predicate Doubtful(e: EngineState, ev: Event)
    requires ev.CompletedEvent? && ev.id in e.requests
  {
    var (row, token) := e.requests[ev.id];
    && !Proven(e, ev)
    && (token.Some? || (row.channel in {Batch, Structure} && Verdict(e, ev) in {Lost, TimedOut, InvalidEffect}))
  }

  ghost function CompletedCredits(e: EngineState, ev: Event): seq<Credit>
    requires ev.CompletedEvent? && ev.id in e.requests
  {
    var row := e.requests[ev.id].0;
    CompleteCredits(e.books, row, ev.at, Verdict(e, ev), Proven(e, ev))
    + (if Doubtful(e, ev) then [(Unknown, row.Own())] else [])
  }

  /** One stage on and idle, with the new attempt after a RUN. */
  ghost predicate Advanced(before: SlotTask, after: SlotTask, identity: Option<Identity>) {
    && (before.stage == 11 ==> identity.Some?)
    && after == SlotTask(before.path, (before.stage + 1) % 12,
                         if before.stage == 11 then identity.value.attempt else before.attempt, false, false, None)
  }

  /** The coordinator as the judgement of a completion should see it. */
  lemma JudgeIsProven(e: EngineState, ev: Event)
    requires Inv(e) && ev.CompletedEvent? && Fits(e, ev) && ev.id in e.requests && ev.id !in e.terminal
    ensures var (row, token) := e.requests[ev.id];
            && e.Judge(row, token, ev) == (Verdict(e, ev), Proven(e, ev))
            && (token.Some? ==>
                  && e.pool.Current(token.value) && token.value.task < TASKS
                  && row.path == Some(e.pool.tasks[token.value.task].path)
                  && (Proven(e, ev) ==> e.Matches(row, token.value, ev)))
  {
    hide Linked, Owned, Live, PoolOk, Valid, RotatingOk, LimitsState.Tight, Books.Balanced, FirstTimers, Calm;
    LinkedKeys(e);
    OnWireHolds(e, ev.id);
    var (row, token) := e.requests[ev.id];
    assert token.Some? <==> row.channel.Pooled() by { LinkedToken(e, ev.id); }
    if token.Some? {
      OwnedOne(e, ev.id);
    }
  }

  lemma LinkedToken(e: EngineState, rid: nat)
    requires Linked(e) && rid in e.requests
    ensures e.requests[rid].1.Some? <==> e.requests[rid].0.channel.Pooled()
  {
    assert LinkedAt(e.requests[rid], e.limits.active[rid], e.books.active[rid], rid, e.serial);
  }

  /** What the pool, the credentials and the pipelines look like after a completion. */
  ghost predicate Answered(e: EngineState, f: EngineState, ev: Event)
    requires ev.CompletedEvent? && ev.id in e.requests
  {
    var token := e.requests[ev.id].1;
    && OnlyTask(e.pool, f.pool, token) && f.pool.next == e.pool.next && f.pool.serial == e.pool.serial
    && (token.None? ==>
          f.identities == e.identities && f.limits.rotating == e.limits.rotating && f.lastChild == e.lastChild)
    && (token.Some? && token.value.task < TASKS ==>
          var i := token.value.task;
          var task := e.pool.tasks[i];
          var rotated := Proven(e, ev) && task.stage == 11;
          && (if Proven(e, ev) then Advanced(task, f.pool.tasks[i], ev.identity) else GivenUp(task, f.pool.tasks[i]))
          && f.identities == (if rotated then e.identities[task.path := ev.identity.value] else e.identities)
          && f.limits.rotating == (if rotated then e.limits.rotating - {i} else e.limits.rotating)
          && f.lastChild == if Proven(e, ev) && task.stage < 10 then Max(e.lastChild, ev.at) else e.lastChild)
  }

  /**
   How a completion leaves the coordinator: the request is out of every table, the pool has answered, the
   counters show the verdict, and all but a proven success stops.
   */
  ghost predicate Concluded(e: EngineState, f: EngineState, ev: Event)
    requires ev.CompletedEvent? && ev.id in e.requests
  {
    && f == e.(requests := e.requests - {ev.id}, books := f.books, pool := f.pool, identities := f.identities,
               limits := f.limits, stopped := f.stopped, lastChild := f.lastChild)
    && f.limits.active == e.limits.active - {ev.id} && f.books.active == e.books.active - {ev.id}
    && Answered(e, f, ev)
    && Counts(e.books, f.books, CompletedCredits(e, ev))
    && f.stopped == if Proven(e, ev) || e.stopped.Some? then e.stopped else Some("request")
  }

  /** The pool's answer to a completion that is no proven success. */
  lemma ResolvedUnknown(e: EngineState, closed: Books, row: Row, token: Reservation, ev: Event, outcome: Outcome)
    requires ev.CompletedEvent? && PoolOk(e.pool, e.identities) && e.pool.Current(token) && outcome != Succeeded
    ensures var a := e.(books := closed);
            var q := e.pool.Finish(token, false, None);
            && q.Success? && a.Resolve(row, token, ev, outcome) ==
                             a.(pool := q.value.0, books := closed.Bump(Unknown, row.Own(), 1))
            && OnlyTask(e.pool, q.value.0, Some(token))
            && GivenUp(e.pool.tasks[token.task], q.value.0.tasks[token.task])
            && q.value.0.next == e.pool.next && q.value.0.serial == e.pool.serial
  {
    hide PoolState.Finish, Books.Bump, PoolOk;
    PoolSound(e.pool, e.identities);
    FinishMeaning(e.pool, token, false, None);
  }

  lemma PoolSound(pool: PoolState, identities: map<string, Identity>)
    requires PoolOk(pool, identities)
    ensures pool.Sound()
  {
  }

  /** The pool's answer to a proven success. */
  lemma ResolvedAdvanced(e: EngineState, closed: Books, row: Row, token: Reservation, ev: Event)
    requires ev.CompletedEvent? && PoolOk(e.pool, e.identities) && e.pool.Current(token) && e.Matches(row, token, ev)
    ensures var a := e.(books := closed);
            var b := a.Resolve(row, token, ev, Succeeded);
            var i := token.task;
            && b == a.(pool := b.pool, identities := b.identities, limits := b.limits, lastChild := b.lastChild)
            && OnlyTask(e.pool, b.pool, Some(token)) && Advanced(e.pool.tasks[i], b.pool.tasks[i], ev.identity)
            && b.pool.next == e.pool.next && b.pool.serial == e.pool.serial
            && b.identities == (if token.stage == 11 then e.identities[row.path.value := ev.identity.value]
                                else e.identities)
            && b.limits == (if token.stage == 11 then e.limits.(rotating := e.limits.rotating - {i}) else e.limits)
            && b.lastChild == if token.stage < 10 then Max(e.lastChild, ev.at) else e.lastChild
  {
    hide PoolState.Finish, PoolOk;
    PoolSound(e.pool, e.identities);
    CurrentStage(e.pool, token);
    FinishMeaning(e.pool, token, true, if token.stage == 11 then Some(ev.identity.value.attempt) else None);
  }

  /** A completion is the ledger's answer, the pool's answer, a count of doubt, the stop and the closing. */
  lemma CompletionSteps(e: EngineState, ev: Event, b: EngineState)
    requires ev.CompletedEvent? && ev.id in e.requests && b.fault.None?
    requires var (row, token) := e.requests[ev.id];
             && e.Judge(row, token, ev) == (Verdict(e, ev), Proven(e, ev))
             && var closed := e.books.Complete(ev.id, ev.at, Verdict(e, ev), Proven(e, ev));
                && closed.Success?
                && b == (var a := e.(books := closed.value);
                         if token.Some? then a.Resolve(row, token.value, ev, Verdict(e, ev)) else a)
    ensures var (row, token) := e.requests[ev.id];
            var c, stops := Doubted(e, b, ev), Verdict(e, ev) != Succeeded;
            e.Completion(row, token, ev) == (if stops then c.Stop("request") else c).Close(ev.id)
  {
    hide EngineState.Judge, EngineState.Resolve, EngineState.Close, EngineState.Stop, Books.Complete, Books.Bump;
    hide Verdict, Proven;
  }

  /** Stopping and closing touch the stop reason, the table of requests and the limiter only. */
  lemma Closing(e: EngineState, rid: nat, stops: bool)
    requires e.limits.Tight() && rid in e.limits.active
    ensures var f := (if stops then e.Stop("request") else e).Close(rid);
            && f == e.(requests := e.requests - {rid}, limits := f.limits, stopped := f.stopped)
            && f.limits.active == e.limits.active - {rid} && f.limits.rotating == e.limits.rotating
            && f.stopped == if !stops || e.stopped.Some? then e.stopped else Some("request")
  {
    hide GiveBack, LimitsState.Tight;
    GiveBackTight(e.limits, rid);
  }

  /** What is known once the pool has answered: the books with their credits, and everything else in place. */
  ghost predicate Resolving(e: EngineState, b: EngineState, ev: Event)
    requires ev.CompletedEvent? && ev.id in e.requests
  {
    var (row, token) := e.requests[ev.id];
    && b == e.(books := b.books, pool := b.pool, identities := b.identities, limits := b.limits,
               lastChild := b.lastChild)
    && b.limits == e.limits.(rotating := b.limits.rotating)
    && b.books.active == e.books.active - {ev.id}
    && Counts(e.books, b.books, CompleteCredits(e.books, row, ev.at, Verdict(e, ev), Proven(e, ev))
                                + (if token.Some? && !Proven(e, ev) then [(Unknown, row.Own())] else []))
    && Answered(e, b, ev)
  }

  lemma ResolvingHolds(e: EngineState, ev: Event)
    requires Inv(e) && ev.CompletedEvent? && Fits(e, ev) && ev.id in e.requests && ev.id !in e.terminal
    ensures var (row, token) := e.requests[ev.id];
            var closed := e.books.Complete(ev.id, ev.at, Verdict(e, ev), Proven(e, ev));
            && closed.Success?
            && var a := e.(books := closed.value);
               Resolving(e, if token.Some? then a.Resolve(row, token.value, ev, Verdict(e, ev)) else a, ev)
  {
    hide Linked, Owned, Live, PoolOk, Valid, RotatingOk, LimitsState.Tight, Books.Balanced, FirstTimers, Calm;
    hide EngineState.Resolve, Books.Complete, Books.Bump, Counts, EngineState.Matches, Proven, OnlyTask;
    hide EngineState.Judge, CompleteCredits, Advanced;
    LinkedKeys(e);
    JudgeIsProven(e, ev);
    var (row, token) := e.requests[ev.id];
    var outcome, credits := Verdict(e, ev), CompleteCredits(e.books, row, ev.at, Verdict(e, ev), Proven(e, ev));
    CompleteMeaning(e.books, ev.id, ev.at, outcome, Proven(e, ev));
    var closed := e.books.Complete(ev.id, ev.at, outcome, Proven(e, ev)).value;
    assert credits + [] == credits;
    if token.None? {
      SamePool(e.pool, token);
    } else if Proven(e, ev) {
      assert outcome == Succeeded by { ProvenSucceeds(e, ev); }
      ResolvedAdvanced(e, closed, row, token.value, ev);
    } else {
      ResolvedUnknown(e, closed, row, token.value, ev, outcome);
      CountsBump(e.books, closed, credits, Unknown, row.Own());
      BumpFrame(closed, Unknown, row.Own(), 1);
    }
  }

  lemma ProvenSucceeds(e: EngineState, ev: Event)
    requires ev.CompletedEvent? && ev.id in e.requests
    ensures Verdict(e, ev) == Succeeded <==> Proven(e, ev)
    ensures Proven(e, ev) ==> ev.outcome == Succeeded
  {
  }

  /**
   A completion moves its task on exactly if it is a proven success; everything else makes the task unknown
   and stops the coordinator. The request leaves every table, and the counters show the verdict.
   */
  lemma CompletedMeans(e: EngineState, ev: Event)
    requires Inv(e) && ev.CompletedEvent? && Fits(e, ev) && ev.id in e.requests && ev.id !in e.terminal
    ensures Concluded(e, e.Accept(ev), ev)
  {
    hide Linked, Owned, Live, PoolOk, Valid, RotatingOk, LimitsState.Tight, Books.Balanced, FirstTimers, Calm;
    hide EngineState.Resolve, Books.Complete, Counts, Proven, CompletedCredits, Resolving, Doubtful, Verdict;
    hide EngineState.Judge, EngineState.Completion, EngineState.Close, EngineState.Failed, Concluded, Doubted;
    LinkedKeys(e);
    JudgeIsProven(e, ev);
    ResolvingHolds(e, ev);
    var (row, token) := e.requests[ev.id];
    var outcome := Verdict(e, ev);
    var a := e.(books := e.books.Complete(ev.id, ev.at, outcome, Proven(e, ev)).value);
    var b := if token.Some? then a.Resolve(row, token.value, ev, outcome) else a;
    assert b.fault.None? by { ResolvingFrame(e, b, ev); }
    CompletionSteps(e, ev, b);
    CompletionEnds(e, b, ev);
  }

  lemma ResolvingFrame(e: EngineState, b: EngineState, ev: Event)
    requires ev.CompletedEvent? && ev.id in e.requests && Resolving(e, b, ev)
    ensures b.fault == e.fault
  {
  }

  /** The doubt about a control write is counted once the pool has answered. */
  ghost function Doubted(e: EngineState, b: EngineState, ev: Event): EngineState
    requires ev.CompletedEvent? && ev.id in e.requests
  {
    var row, outcome := e.requests[ev.id].0, Verdict(e, ev);
    if (row.channel == Batch || row.channel == Structure)
       && (outcome == Lost || outcome == TimedOut || outcome == InvalidEffect)
    then b.(books := b.books.Bump(Unknown, row.Own(), 1)) else b
  }

  lemma DoubtCounted(e: EngineState, b: EngineState, ev: Event)
    requires Linked(e) && ev.CompletedEvent? && ev.id in e.requests && Resolving(e, b, ev)
    ensures var c := Doubted(e, b, ev);
            && c == b.(books := c.books) && c.books.active == b.books.active
            && Counts(e.books, c.books, CompletedCredits(e, ev))
  {
    hide Linked, Books.Bump, Counts, Proven, CompleteCredits, Answered;
    LinkedToken(e, ev.id);
    ProvenSucceeds(e, ev);
    var (row, token) := e.requests[ev.id];
    var credits := CompleteCredits(e.books, row, ev.at, Verdict(e, ev), Proven(e, ev));
    assert credits + [] == credits;
    if token.None? { CountsBump(e.books, b.books, credits, Unknown, row.Own()); }
    BumpFrame(b.books, Unknown, row.Own(), 1);
  }

  /** The last steps of a completion, after the pool has answered. */
  lemma CompletionEnds(e: EngineState, b: EngineState, ev: Event)
    requires Linked(e) && e.limits.Tight() && ev.CompletedEvent? && ev.id in e.requests && Resolving(e, b, ev)
    ensures var c, stops := Doubted(e, b, ev), Verdict(e, ev) != Succeeded;
            Concluded(e, (if stops then c.Stop("request") else c).Close(ev.id), ev)
  {
    hide Linked, LimitsState.Tight, Counts, Proven, EngineState.Close, Answered, Doubted, EngineState.Stop, Verdict;
    hide CompletedCredits, CompleteCredits;
    LinkedKeys(e);
    ProvenSucceeds(e, ev);
    DoubtCounted(e, b, ev);
    RotatingFree(e.limits, b.limits.rotating);
    var c, stops := Doubted(e, b, ev), Verdict(e, ev) != Succeeded;
    Closing(c, ev.id, stops);
    AnsweredFrame(e, b, (if stops then c.Stop("request") else c).Close(ev.id), ev);
  }

  lemma AnsweredFrame(e: EngineState, b: EngineState, f: EngineState, ev: Event)
    requires ev.CompletedEvent? && ev.id in e.requests && Answered(e, b, ev)
    requires f.pool == b.pool && f.identities == b.identities && f.limits.rotating == b.limits.rotating
    requires f.lastChild == b.lastChild
    ensures Answered(e, f, ev)
  {
  }

  /** In counts: a pool request's task is idle at the next stage exactly after a proven success. */
  lemma ProvenAdvances(e: EngineState, ev: Event)
    requires Inv(e) && ev.CompletedEvent? && Fits(e, ev) && ev.id in e.requests && ev.id !in e.terminal
    requires e.requests[ev.id].1.Some?
    ensures var f, role, i := e.Accept(ev), e.requests[ev.id].0.channel.Role(), e.requests[ev.id].1.value.task;
            && i < TASKS
            && var before, after := e.pool.tasks[i], f.pool.tasks[i];
               if Proven(e, ev) then
                 && after.stage == (before.stage + 1) % 12 && !after.busy && !after.unknown && f.stopped == e.stopped
                 && f.books.Count(Effective, role) == e.books.Count(Effective, role) + 1
                 && f.books.Count(Ended(Succeeded), role) == e.books.Count(Ended(Succeeded), role) + 1
               else
                 && after.stage == before.stage && after.busy && after.unknown && f.stopped.Some?
                 && f.books.Count(Effective, role) == e.books.Count(Effective, role)
                 && f.books.Count(Ended(Succeeded), role) == e.books.Count(Ended(Succeeded), role)
                 && f.books.Count(Unknown, role) > e.books.Count(Unknown, role)
  {
    hide Inv, Counts, Proven, Books.Count, EngineState.Accept, Fits, Times, Channel.Role;
    CompletedMeans(e, ev);
    var f, row := e.Accept(ev), e.requests[ev.id].0;
    var credits := CompletedCredits(e, ev);
    CompletedTask(e, ev);
    CountsRole(e.books, f.books, credits, Effective, row.channel.Role());
    CountsRole(e.books, f.books, credits, Ended(Succeeded), row.channel.Role());
    CountsRole(e.books, f.books, credits, Unknown, row.channel.Role());
    CreditTimes(e, ev);
  }

  lemma CompletedTask(e: EngineState, ev: Event)
    requires Inv(e) && ev.CompletedEvent? && Fits(e, ev) && ev.id in e.requests && ev.id !in e.terminal
    requires e.requests[ev.id].1.Some?
    ensures var i := e.requests[ev.id].1.value.task;
            i < TASKS && e.pool.tasks[i].busy
  {
    hide Linked, Owned, Live, PoolOk, Valid, RotatingOk, LimitsState.Tight, Books.Balanced, FirstTimers, Calm;
    LinkedKeys(e);
    OwnedOne(e, ev.id);
  }

  lemma CreditTimes(e: EngineState, ev: Event)
    requires ev.CompletedEvent? && ev.id in e.requests && e.requests[ev.id].1.Some?
    ensures var credits, role := CompletedCredits(e, ev), e.requests[ev.id].0.channel.Role();
            && Times(credits, Effective, role) == (if Proven(e, ev) then 1 else 0)
            && Times(credits, Ended(Succeeded), role) == (if Proven(e, ev) then 1 else 0)
            && (!Proven(e, ev) ==> Times(credits, Unknown, role) >= 1)
  {
    hide Proven, Channel.Role;
    ProvenSucceeds(e, ev);
    var credits := CompletedCredits(e, ev);
    var role := e.requests[ev.id].0.channel.Role();
    assert credits == [credits[0], credits[1], credits[2]];
    TimesOfThree(credits[0], credits[1], credits[2], Effective, role);
    TimesOfThree(credits[0], credits[1], credits[2], Ended(Succeeded), role);
    TimesOfThree(credits[0], credits[1], credits[2], Unknown, role);
  }

  // ----- the other events -----

  /** A send puts the request on the wire and changes nothing but the books. */
  lemma SentMeans(e: EngineState, ev: Event)
    requires Inv(e) && ev.SentEvent? && Fits(e, ev) && ev.id in e.requests && ev.id !in e.terminal
    ensures var f, row := e.Accept(ev), e.requests[ev.id].0;
            && f == e.(books := f.books)
            && f.books.active == e.books.active[ev.id := Entry(row, OnWire(ev.at))]
            && Counts(e.books, f.books, SendCredits(e.books, row, ev.at))
  {
    hide Linked, Owned, Live, PoolOk, Valid, RotatingOk, LimitsState.Tight, Books.Balanced, FirstTimers, Calm;
    hide Books.Send, EngineState.Completion, EngineState.Close, EngineState.Failed, Counts, SendCredits;
    LinkedKeys(e);
    SendMeaning(e.books, ev.id, ev.at);
  }

  /** A withheld request is counted under its reason, leaves every table and does not stop the coordinator. */
  lemma NotSentMeans(e: EngineState, ev: Event)
    requires Inv(e) && ev.NotSentEvent? && Fits(e, ev) && ev.id in e.requests && ev.id !in e.terminal
    ensures var f, row, token := e.Accept(ev), e.requests[ev.id].0, e.requests[ev.id].1;
            && f == e.(requests := e.requests - {ev.id}, books := f.books, pool := f.pool, limits := f.limits)
            && f.limits.active == e.limits.active - {ev.id} && f.limits.rotating == e.limits.rotating
            && f.books.active == e.books.active - {ev.id}
            && Counts(e.books, f.books, [(NotSent, row.Own()), (Refused(ev.why), row.Own())])
            && OnlyTask(e.pool, f.pool, token) && f.pool.next == e.pool.next && f.pool.serial == e.pool.serial
            && (token.Some? ==>
                  token.value.task < TASKS
                  && GivenBack(e.pool.tasks[token.value.task], f.pool.tasks[token.value.task]))
  {
    hide Linked, Owned, Live, PoolOk, Valid, RotatingOk, LimitsState.Tight, Books.Balanced, FirstTimers, Calm;
    hide Books.Withhold, EngineState.Completion, GiveBack, EngineState.Failed, Counts;
    LinkedKeys(e);
    var (row, token) := e.requests[ev.id];
    assert row.id == ev.id;
    WithholdMeaning(e.books, row, ev.why);
    GiveBackTight(e.limits, ev.id);
    SamePool(e.pool, token);
  }

  /** A report about the call counts it, and its failure; any other information changes nothing. */
  lemma InfoMeans(e: EngineState, ev: Event)
    requires ev.Info? && ev.id in e.requests && ev.id !in e.terminal
    ensures var f, cell := e.Accept(ev), e.requests[ev.id].0.Own();
            && f == e.(books := f.books) && f.books.active == e.books.active
            && Counts(e.books, f.books, match ev.rpc
                                        case None => []
                                        case Some(false) => [(RpcCompleted, cell)]
                                        case Some(true) => [(RpcCompleted, cell), (RpcFailed, cell)])
  {
    hide EngineState.Completion, EngineState.Close, EngineState.Failed, Counts, Books.Bump;
    var b, cell := e.books, e.requests[ev.id].0.Own();
    CountsNone(b, b.active);
    CountsBump(b, b, [], RpcCompleted, cell);
    BumpFrame(b, RpcCompleted, cell, 1);
    assert [] + [(RpcCompleted, cell)] == [(RpcCompleted, cell)];
    CountsBump(b, b.Bump(RpcCompleted, cell, 1), [(RpcCompleted, cell)], RpcFailed, cell);
    BumpFrame(b.Bump(RpcCompleted, cell, 1), RpcFailed, cell, 1);
    assert [(RpcCompleted, cell)] + [(RpcFailed, cell)] == [(RpcCompleted, cell), (RpcFailed, cell)];
  }

  // ----- deadlines -----

  /** On the wire for ten seconds or more, and not a full verification. */
  ghost predicate Overtime(e: EngineState, r: nat, now: int) {
    r in e.requests && r in e.books.active && e.requests[r].0.channel != Verify
    && match e.books.active[r].status
       case OnWire(at) => now >= at + 10_000_000_000
       case Dispatched => false
  }

  /** The requests below the bound that the scan gives up. */
  ghost function Lapsed(e: EngineState, now: int, bound: nat): set<nat> {
    set r | r in e.requests && r !in e.terminal && r < bound && Overtime(e, r, now)
  }

  /** The requests of a role. */
  ghost function OfRole(e: EngineState, rs: set<nat>, role: Role): set<nat> {
    set r | r in rs && r in e.requests && e.requests[r].0.channel.Role() == role
  }

  ghost predicate TaskIn(e: EngineState, rs: set<nat>, i: nat) {
    exists r :: r in rs && r in e.requests && e.requests[r].1.Some? && e.requests[r].1.value.task == i
  }

  /** The requests `gone` have been given up: marked, counted, their tasks unknown, nothing else touched. */
  ghost predicate Forsaken(e: EngineState, f: EngineState, gone: set<nat>) {
    && f == e.(terminal := e.terminal + gone, books := f.books, pool := f.pool, stopped := f.stopped)
    && f.books.active == e.books.active && f.books.start == e.books.start
    && f.pool.next == e.pool.next && f.pool.serial == e.pool.serial
    && (forall i: nat | i < TASKS ::
          if TaskIn(e, gone, i) then GivenUp(e.pool.tasks[i], f.pool.tasks[i]) else f.pool.tasks[i] == e.pool.tasks[i])
    && (forall m: Metric | m != Timeout && m != Unknown :: f.books.Of(m) == e.books.Of(m))
    && (e.stopped.Some? || gone == {} ==> f.stopped == e.stopped)
    && (gone != {} ==> f.stopped.Some?)
  }

  lemma LapsedGrows(e: EngineState, now: int, bound: nat)
    ensures Lapsed(e, now, bound + 1) ==
            Lapsed(e, now, bound)
              + (if bound in e.requests && bound !in e.terminal && Overtime(e, bound, now) then {bound}
                                     else {})
    ensures bound !in Lapsed(e, now, bound) && Lapsed(e, now, bound) <= e.requests.Keys
  {
  }

  lemma OfRoleGrows(e: EngineState, rs: set<nat>, rid: nat, role: Role)
    requires rid !in rs && rid in e.requests
    ensures |OfRole(e, rs + {rid}, role)| ==
            |OfRole(e, rs, role)| + (if e.requests[rid].0.channel.Role() == role then 1 else 0)
  {
    if e.requests[rid].0.channel.Role() == role {
      assert OfRole(e, rs + {rid}, role) == OfRole(e, rs, role) + {rid};
    } else {
      assert OfRole(e, rs + {rid}, role) == OfRole(e, rs, role);
    }
  }

  /** One request given up on its own. */
  lemma ExpiryMeans(e: EngineState, rid: nat, now: int)
    requires Inv(e) && rid in e.requests && rid !in e.terminal
    ensures !Overtime(e, rid, now) ==> e.Expiry(rid, now) == e
    ensures Overtime(e, rid, now) ==>
              var f, cell, token := e.Expiry(rid, now), e.requests[rid].0.Own(), e.requests[rid].1;
              && f == e.(terminal := e.terminal + {rid}, books := e.books.Bump(Timeout, cell, 1).Bump(Unknown, cell, 1),
                         pool := f.pool, stopped := f.stopped)
              && f.stopped.Some? && (e.stopped.Some? ==> f.stopped == e.stopped)
              && f.pool.next == e.pool.next && f.pool.serial == e.pool.serial
              && OnlyTask(e.pool, f.pool, token)
              && (token.Some? ==>
                    token.value.task < TASKS
                    && GivenUp(e.pool.tasks[token.value.task], f.pool.tasks[token.value.task]))
  {
    hide Linked, Owned, Live, PoolOk, Valid, RotatingOk, LimitsState.Tight, Books.Balanced, FirstTimers, Calm;
    hide PoolState.Finish, Books.Bump, OnlyTask;
    LinkedKeys(e);
    if Overtime(e, rid, now) {
      OnWireHolds(e, rid);
      var token := e.requests[rid].1;
      if token.Some? {
        PoolSound(e.pool, e.identities);
        FinishMeaning(e.pool, token.value, false, None);
        FailPoolOk(e.pool, e.identities, token.value);
      } else {
        SamePool(e.pool, token);
      }
    }
  }

  /** What the two counts of a deadline do to a metric. */
  lemma TimeoutCounts(b: Books, cell: Cell, m: Metric, role: Role)
    ensures var d := b.Bump(Timeout, cell, 1).Bump(Unknown, cell, 1);
            && d.active == b.active && d.start == b.start
            && (m != Timeout && m != Unknown ==> d.Of(m) == b.Of(m))
            && d.Count(Timeout, role) == b.Count(Timeout, role) + (if cell.role == role then 1 else 0)
            && d.Count(Unknown, role) == b.Count(Unknown, role) + (if cell.role == role then 1 else 0)
  {
    hide Books.Bump, Books.Count, Books.Of;
    var a := b.Bump(Timeout, cell, 1);
    BumpFrame(b, Timeout, cell, 1);
    BumpFrame(a, Unknown, cell, 1);
    BumpElse(b, Timeout, cell, m);
    BumpElse(a, Unknown, cell, m);
    BumpCount(b, Timeout, cell, 1, Timeout, role);
    BumpCount(b, Timeout, cell, 1, Unknown, role);
    BumpCount(a, Unknown, cell, 1, Timeout, role);
    BumpCount(a, Unknown, cell, 1, Unknown, role);
  }

  /** Giving up one more request. */
  lemma ForsakenStep(e: EngineState, f: EngineState, gone: set<nat>, rid: nat, now: int)
    requires Inv(e) && Inv(f) && Forsaken(e, f, gone) && gone <= e.requests.Keys
    requires rid in e.requests && rid !in e.terminal && rid !in gone && Overtime(e, rid, now)
    ensures var g, cell := f.Expiry(rid, now), e.requests[rid].0.Own();
            && Forsaken(e, g, gone + {rid}) && g.books == f.books.Bump(Timeout, cell, 1).Bump(Unknown, cell, 1)
  {
    hide Linked, Owned, Live, PoolOk, Valid, RotatingOk, LimitsState.Tight, Books.Balanced, FirstTimers, Calm;
    hide EngineState.Expiry, Books.Bump, Books.Count, Books.Of;
    ExpiryMeans(f, rid, now);
    var g, cell, token := f.Expiry(rid, now), e.requests[rid].0.Own(), e.requests[rid].1;
    assert g.terminal == e.terminal + (gone + {rid});
    forall m: Metric | m != Timeout && m != Unknown ensures g.books.Of(m) == e.books.Of(m) {
      TimeoutCounts(f.books, cell, m, W);
    }
    TimeoutCounts(f.books, cell, Sent, W);
    TaskInStep(e, gone, rid);
  }

  lemma TaskInStep(e: EngineState, gone: set<nat>, rid: nat)
    requires Owned(e) && gone <= e.requests.Keys && rid in e.requests && rid !in gone
    ensures forall i: nat :: TaskIn(e, gone + {rid}, i) <==>
                             TaskIn(e, gone, i) || (e.requests[rid].1.Some? && e.requests[rid].1.value.task == i)
    ensures e.requests[rid].1.Some? ==> !TaskIn(e, gone, e.requests[rid].1.value.task)
  {
    forall i: nat ensures TaskIn(e, gone + {rid}, i) <==>
                          TaskIn(e, gone, i) || (e.requests[rid].1.Some? && e.requests[rid].1.value.task == i) {
      if e.requests[rid].1.Some? && e.requests[rid].1.value.task == i {
        assert rid in gone + {rid};
      } else if TaskIn(e, gone, i) {
        var r :| r in gone && r in e.requests && e.requests[r].1.Some? && e.requests[r].1.value.task == i;
        assert r in gone + {rid};
      }
    }
  }

  /** The scan up to a bound. */
  lemma {:induction false} ScanMeans(e: EngineState, now: int, bound: nat)
    requires Inv(e)
    ensures Inv(Expiries(e, now, bound)) && Forsaken(e, Expiries(e, now, bound), Lapsed(e, now, bound))
  {
    hide Inv, EngineState.Expiry, Forsaken, Lapsed;
    ExpiriesKeep(e, now, bound);
    if bound == 0 {
      ScanStart(e, now);
    } else {
      ScanMeans(e, now, bound - 1);
      ScanNext(e, now, bound - 1);
    }
  }

  lemma ScanStart(e: EngineState, now: int)
    ensures Forsaken(e, e, Lapsed(e, now, 0)) && Lapsed(e, now, 0) == {}
  {
    assert e.terminal + {} == e.terminal;
  }

  /** One more identity: given up if it has lapsed, left alone otherwise. */
  lemma ScanNext(e: EngineState, now: int, rid: nat)
    requires Inv(e) && Inv(Expiries(e, now, rid)) && Forsaken(e, Expiries(e, now, rid), Lapsed(e, now, rid))
    ensures var f, g := Expiries(e, now, rid), Expiries(e, now, rid + 1);
            && Forsaken(e, g, Lapsed(e, now, rid + 1))
            && (rid in Lapsed(e, now, rid + 1) ==>
                  var cell := e.requests[rid].0.Own();
                  && Lapsed(e, now, rid + 1) == Lapsed(e, now, rid) + {rid} && rid !in Lapsed(e, now, rid)
                  && g.books == f.books.Bump(Timeout, cell, 1).Bump(Unknown, cell, 1))
            && (rid !in Lapsed(e, now, rid + 1) ==> Lapsed(e, now, rid + 1) == Lapsed(e, now, rid) && g == f)
  {
    hide *;
    var f, gone := Expiries(e, now, rid), Lapsed(e, now, rid);
    InvLinked(f);
    LapsedGrows(e, now, rid);
    ScanUnfold(e, now, rid);
    if rid in Lapsed(e, now, rid + 1) {
      ForsakenStep(e, f, gone, rid, now);
    } else {
      ScanIdle(e, f, gone, rid, now);
      assert Lapsed(e, now, rid + 1) == gone;
    }
  }

  lemma {:induction false} ScanCounts(e: EngineState, now: int, bound: nat, role: Role)
    requires Inv(e)
    ensures var b, n := Expiries(e, now, bound).books, |OfRole(e, Lapsed(e, now, bound), role)|;
            && b.Count(Timeout, role) == e.books.Count(Timeout, role) + n
            && b.Count(Unknown, role) == e.books.Count(Unknown, role) + n
  {
    hide Inv, Forsaken, Books.Count, Lapsed, Expiries, OfRole, Channel.Role, Books.Bump;
    if bound == 0 {
      ScanStart(e, now);
      NoneOfRole(e, role);
      assert Expiries(e, now, 0) == e by { ScanNone(e, now); }
    } else {
      var rid := bound - 1;
      ScanCounts(e, now, rid, role);
      ScanMeans(e, now, rid);
      ScanNext(e, now, rid);
      if rid in Lapsed(e, now, bound) {
        assert rid in e.requests by { LapsedOpen(e, now, bound); }
        OfRoleGrows(e, Lapsed(e, now, rid), rid, role);
        TimeoutCounts(Expiries(e, now, rid).books, e.requests[rid].0.Own(), Sent, role);
      }
    }
  }

  lemma NoneOfRole(e: EngineState, role: Role)
    ensures |OfRole(e, {}, role)| == 0
  {
  }

  lemma ScanNone(e: EngineState, now: int)
    ensures Expiries(e, now, 0) == e
  {
  }

  lemma ScanUnfold(e: EngineState, now: int, rid: nat)
    requires Expiries(e, now, rid).fault.None?
    ensures Expiries(e, now, rid + 1) == Expiries(e, now, rid).Expiry(rid, now)
  {
    hide EngineState.Expiry;
  }

  lemma LapsedOpen(e: EngineState, now: int, bound: nat)
    ensures Lapsed(e, now, bound) <= e.requests.Keys
  {
  }

  lemma ScanIdle(e: EngineState, f: EngineState, gone: set<nat>, rid: nat, now: int)
    requires Linked(f) && Forsaken(e, f, gone)
    requires !(rid in e.requests && rid !in e.terminal && Overtime(e, rid, now))
    ensures f.Expiry(rid, now) == f
  {
    LinkedKeys(f);
  }

  /**
   The deadline scan gives up exactly the requests that have been on the wire for ten seconds, full
   verifications excepted: it marks and counts them, makes their tasks unknown, and stops if there is one.
   */
  lemma DeadlinesMean(e: EngineState, now: int)
    requires Inv(e)
    ensures var f := Expiries(e, now, e.serial);
            var late := set r | r in e.requests && r !in e.terminal && Overtime(e, r, now);
            && Forsaken(e, f, late)
            && (f.stopped.Some? <==> late != {} || e.stopped.Some?)
            && (forall role: Role ::
                  && f.books.Count(Timeout, role) == e.books.Count(Timeout, role) + |OfRole(e, late, role)|
                  && f.books.Count(Unknown, role) == e.books.Count(Unknown, role) + |OfRole(e, late, role)|)
  {
    hide Inv, Books.Count, Expiries, Overtime, OfRole;
    var f := Expiries(e, now, e.serial);
    var late := set r | r in e.requests && r !in e.terminal && Overtime(e, r, now);
    ScanMeans(e, now, e.serial);
    AllBelow(e);
    assert Lapsed(e, now, e.serial) == late;
    forall role: Role
      ensures f.books.Count(Timeout, role) == e.books.Count(Timeout, role) + |OfRole(e, late, role)|
      ensures f.books.Count(Unknown, role) == e.books.Count(Unknown, role) + |OfRole(e, late, role)|
    {
      ScanCounts(e, now, e.serial, role);
    }
  }

  lemma AllBelow(e: EngineState)
    requires Inv(e)
    ensures forall r | r in e.requests :: r < e.serial
  {
    forall r | r in e.requests ensures r < e.serial {
      assert LinkedAt(e.requests[r], e.limits.active[r], e.books.active[r], r, e.serial);
    }
  }
}
