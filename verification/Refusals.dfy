/** Why requests are not sent: every refusal has one reason, and no cap ever refuses a reserved pool task. */
module RefusalReasons {
  import opened Common
  import opened Channels
  import opened ArrivalGrid
  import opened ReservationPool
  import opened ConcurrencyLimits
  import opened AccountingLedger
  import opened EngineModel
  import opened EngineInvariant
  import opened EngineTick

  /** A rotation is refused by the dispatcher or for age only; a child never because its task is busy. */
  predicate Allowed(role: Role, why: Refusal) {
    (role == R ==> why == DispatchBusy || why == Expired) && (role == W ==> why != TaskBusy)
  }

  /** The refusals of a role, added up over the reasons. */
  function Refusals(b: Books, role: Role): nat {
    b.Count(Refused(GlobalBusy), role) + b.Count(Refused(RoleBusy), role) + b.Count(Refused(PoolBusy), role)
    + b.Count(Refused(TaskBusy), role) + b.Count(Refused(StageBusy), role) + b.Count(Refused(DispatchBusy), role)
    + b.Count(Refused(Expired), role)
  }

  /** Every request that was not sent has exactly one reason, and only an allowed one. */
  ghost predicate Reasoned(b: Books) {
    && (forall role: Role :: b.Count(NotSent, role) == Refusals(b, role))
    && (forall role: Role, why: Refusal | !Allowed(role, why) :: b.Count(Refused(why), role) == 0)
  }

  // ----- the ledger -----

  lemma BumpReasoned(b: Books, m: Metric, c: Cell, n: nat)
    requires Reasoned(b) && m != NotSent && !m.Refused?
    ensures Reasoned(b.Bump(m, c, n))
  {
    hide Books.Bump, Books.Count, Allowed;
    forall k: Metric, role: Role
      ensures b.Bump(m, c, n).Count(k, role) == b.Count(k, role) + (if k == m && role == c.role then n else 0)
    {
      BumpCount(b, m, c, n, k, role);
    }
  }

  lemma RefuseCount(b: Books, why: Refusal, c: Cell, n: nat, k: Metric, role: Role)
    ensures b.Bump(NotSent, c, n).Bump(Refused(why), c, n).Count(k, role) ==
            b.Count(k, role) + (if (k == NotSent || k == Refused(why)) && role == c.role then n else 0)
  {
    hide Books.Bump, Books.Count;
    BumpCount(b, NotSent, c, n, k, role);
    BumpCount(b.Bump(NotSent, c, n), Refused(why), c, n, k, role);
  }

  lemma RefuseSum(b: Books, why: Refusal, c: Cell, n: nat, role: Role)
    ensures Refusals(b.Bump(NotSent, c, n).Bump(Refused(why), c, n), role) == Refusals(b, role)
              + (if role == c.role then n else 0)
  {
    hide Books.Bump, Books.Count;
    RefuseCount(b, why, c, n, Refused(GlobalBusy), role);
    RefuseCount(b, why, c, n, Refused(RoleBusy), role);
    RefuseCount(b, why, c, n, Refused(PoolBusy), role);
    RefuseCount(b, why, c, n, Refused(TaskBusy), role);
    RefuseCount(b, why, c, n, Refused(StageBusy), role);
    RefuseCount(b, why, c, n, Refused(DispatchBusy), role);
    RefuseCount(b, why, c, n, Refused(Expired), role);
  }

  /** Not sent, and why. */
  lemma RefuseReasoned(b: Books, why: Refusal, c: Cell, n: nat)
    requires Reasoned(b) && Allowed(c.role, why)
    ensures Reasoned(b.Bump(NotSent, c, n).Bump(Refused(why), c, n))
  {
    hide Books.Bump, Books.Count, Refusals, Allowed;
    var d := b.Bump(NotSent, c, n).Bump(Refused(why), c, n);
    forall role: Role ensures d.Count(NotSent, role) == Refusals(d, role) {
      RefuseCount(b, why, c, n, NotSent, role);
      RefuseSum(b, why, c, n, role);
    }
    forall role: Role, r: Refusal | !Allowed(role, r) ensures d.Count(Refused(r), role) == 0 {
      RefuseCount(b, why, c, n, Refused(r), role);
    }
  }

  lemma ActiveReasoned(b: Books, active: map<nat, Entry>)
    requires Reasoned(b)
    ensures Reasoned(b.(active := active))
  {
    hide Books.Count;
    forall role: Role, m: Metric ensures b.(active := active).Count(m, role) == b.Count(m, role) {
      CountFrame(b, active, role);
    }
  }

  lemma OfferReasoned(b: Books, row: Row)
    requires Reasoned(b)
    ensures Reasoned(b.Offer(row))
  {
    hide Books.Bump, Reasoned;
    BumpReasoned(b, Offered, row.Own(), 1);
  }

  lemma WithholdReasoned(b: Books, row: Row, why: Refusal)
    requires Reasoned(b) && Allowed(row.channel.Role(), why)
    ensures Reasoned(b.Withhold(row, why))
  {
    hide Books.Bump, Reasoned, Allowed;
    ActiveReasoned(b, b.active - {row.id});
    RefuseReasoned(b.(active := b.active - {row.id}), why, row.Own(), 1);
  }

  lemma SendReasoned(b: Books, rid: nat, at: int)
    requires Reasoned(b) && b.Send(rid, at).Success?
    ensures Reasoned(b.Send(rid, at).value)
  {
    hide Books.Bump, Reasoned, Books.Second;
    var row := b.active[rid].row;
    var a := b.(active := b.active[rid := Entry(row, OnWire(at))]);
    var cell := row.CellAt(b.Second(at));
    ActiveReasoned(b, a.active);
    BumpReasoned(a, Sent, cell, 1);
    BumpReasoned(a.Bump(Sent, cell, 1), Late, cell, 1);
  }

  lemma CompleteReasoned(b: Books, rid: nat, at: int, outcome: Outcome, effective: bool)
    requires Reasoned(b) && b.Complete(rid, at, outcome, effective).Success?
    ensures Reasoned(b.Complete(rid, at, outcome, effective).value)
  {
    hide Books.Bump, Reasoned, Books.Second;
    var cell := b.active[rid].row.CellAt(b.Second(at));
    var a := b.(active := b.active - {rid});
    ActiveReasoned(b, a.active);
    BumpReasoned(a, Completed, cell, 1);
    BumpReasoned(a.Bump(Completed, cell, 1), MetricOf(outcome), cell, 1);
    BumpReasoned(a.Bump(Completed, cell, 1).Bump(MetricOf(outcome), cell, 1), Effective, cell, 1);
  }

  lemma {:induction false} ExpireReasoned(b: Books, g: Timetable, lo: nat, hi: nat)
    requires Reasoned(b)
    ensures Reasoned(ExpireSlots(b, g, lo, hi))
    decreases hi
  {
    hide Books.Bump, Reasoned, SlotSecond;
    if lo < hi {
      ExpireReasoned(b, g, lo, hi - 1);
      var before, cell := ExpireSlots(b, g, lo, hi - 1), SlotCell(g, hi - 1);
      BumpReasoned(before, Offered, cell, 1);
      RefuseReasoned(before.Bump(Offered, cell, 1), Expired, cell, 1);
    }
  }

  // ----- new requests -----

  lemma TurnReasoned(e: EngineState, row: Row, why: Refusal)
    requires Reasoned(e.books) && Allowed(row.channel.Role(), why)
    ensures Reasoned(e.Turn(row, why).books)
  {
    hide Reasoned, Allowed, Books.Offer, Books.Withhold;
    OfferReasoned(e.books, row);
    WithholdReasoned(e.books.Offer(row), row, why);
  }

  /** Opened or bounced, a request meets no cap. */
  lemma OpenedReasoned(e: EngineState, row: Row, token: Option<Reservation>)
    requires Reasoned(e.books)
    ensures Reasoned(Opened(e, row, token).books) && Reasoned(Bounced(e, row, token).books)
  {
    hide Reasoned, Books.Offer, Books.Withhold, GiveBack, LimitsState.Admitted, EngineState.Cancelled;
    OfferReasoned(e.books, row);
    ActiveReasoned(e.books.Offer(row), e.books.active[row.id := Entry(row, Dispatched)]);
    WithholdReasoned(BooksOpened(e.books, row), row, DispatchBusy);
  }

  /** Control and query requests may meet any cap. */
  lemma PlainReasoned(e: EngineState, row: Row, admit: bool)
    requires Reasoned(e.books) && Inv(e) && row.id == e.serial && !row.channel.Pooled()
    requires row.channel == Detail ==> row.path.Some? && row.path.value in e.identities
    ensures Reasoned(e.Submit(row, None, admit).books)
  {
    hide Reasoned, Inv, EngineState.Submit, LimitsState.Reason, EngineState.Turn, Opened, Bounced;
    InvLinked(e);
    SubmitForm(e, row, None, admit);
    var why := e.limits.Reason(row.channel, None);
    if why.Some? { TurnReasoned(e, row, why.value); } else { OpenedReasoned(e, row, None); }
  }

  lemma LiveReasoned(e: EngineState, index: nat, now: int, admit: nat -> bool)
    requires Reasoned(e.books) && Inv(e)
    ensures Reasoned(LiveSlot(e, index, now, admit).books)
  {
    hide Reasoned, Inv, Time, PoolState.Reserve, EngineState.Submit, EngineState.Turn, PoolState.Taken, PoolState.Token;
    hide FlowOf, CommandAt, Command.Name, Opened, Bounced, LimitsState.Reason;
    var stage := index % 10;
    var reason := e.limits.Reason(Child, None);
    ReserveMeaning(e.pool, stage);
    var token := if reason.Some? then None else e.pool.Reserve(stage).1;
    var at, next := Time(e.grid, index), Time(e.grid, index + 1);
    if token.None? {
      var row := e.MakeRow(CommandAt(stage).Name(), Child, at, next, now, None, None).(stage := StageNo(stage));
      ChildReason(e.limits);
      TurnReasoned(e, row, if reason.Some? then reason.value else StageBusy);
    } else {
      var i := token.value.task;
      assert e.pool.tasks[i].stage == stage;
      var f := e.(pool := e.pool.Taken(i, stage));
      var row := f.PoolRow(token.value, at, next, now);
      assert row.path == Some(e.pool.tasks[i].path) && row.channel == Child by { TakenPath(e.pool, i, stage); }
      SubmitPool(e, i, row, admit(f.serial));
      OpenedReasoned(f, row, token);
    }
  }

  /** Without a path the limiter never answers that a task is busy. */
  lemma ChildReason(l: LimitsState)
    ensures l.Reason(Child, None) != Some(TaskBusy)
  {
  }

  lemma GridReasoned(e: EngineState, now: int, admit: nat -> bool)
    requires Reasoned(e.books) && Inv(e)
    ensures Reasoned(GridStep(e, now, admit).books)
  {
    hide Reasoned, Poll, ExpireSlots, LiveSlot, Linked, Owned, Live, PoolOk, Valid, RotatingOk, LimitsState.Tight;
    hide Books.Balanced, FirstTimers, Offers, Grew;
    var (next, p) := Poll(e.grid, e.cursor, now);
    var f := e.(cursor := next, books := ExpireSlots(e.books, e.grid, p.expiredLo, p.expiredHi));
    PolledKeeps(e, now);
    ExpireReasoned(e.books, e.grid, p.expiredLo, p.expiredHi);
    if p.live.Some? { LiveReasoned(f, p.live.value, now, admit); }
  }

  /** A rotation is never refused by a cap. */
  lemma RotateReasoned(e: EngineState, i: nat, now: int, admit: nat -> bool)
    requires Reasoned(e.books) && Inv(e) && i < TASKS
    ensures Reasoned(Rotate(e, i, now, admit).books)
  {
    hide Reasoned, Inv, Grew, Rotate, Opened, Bounced, EngineState.PoolRow, PoolState.Taken, PoolState.Token, Offers;
    RotateGrows(e, i, now, admit);
    if Rotatable(e, i) {
      var token := e.pool.Token(i, e.pool.tasks[i].stage);
      assert token.task == i by { TakenPath(e.pool, i, e.pool.tasks[i].stage); }
      var row := Aimed(e, i).PoolRow(token, now, Min(e.grid.end, now + RPC_LIMIT), now);
      OpenedReasoned(Aimed(e, i), row, Some(token));
    }
  }

  lemma {:induction false} RotationsReasoned(e: EngineState, now: int, admit: nat -> bool, bound: nat)
    requires Reasoned(e.books) && Inv(e) && bound <= TASKS
    ensures Reasoned(Rotations(e, now, admit, bound).books)
  {
    hide Reasoned, Inv, Grew, Rotate, Offers;
    if bound > 0 {
      RotationsReasoned(e, now, admit, bound - 1);
      RotationsGrow(e, now, admit, bound - 1);
      RotateReasoned(Rotations(e, now, admit, bound - 1), bound - 1, now, admit);
    }
  }

  lemma TimerSlotReasoned(e: EngineState, c: Channel, target: nat, now: int, admit: nat -> bool)
    requires Reasoned(e.books) && Inv(e) && c in e.timers && c in TIMERS
    ensures Reasoned(TimerSlot(e, c, target, now, admit).books)
  {
    hide Reasoned, Inv, Grew, EngineState.Submit, EngineState.Turn, FlowOf, ControlName;
    var scheduled := e.grid.start + target * NS;
    var expires := Min(e.grid.end, scheduled + Interval(c) * NS);
    var f := e.(timers := e.timers[c := target + Interval(c)]);
    TimerSet(e, c, target + Interval(c));
    var row := f.MakeRow(ControlName(e.variant, c), c, scheduled, expires, now, None, ControlPath(e, c, target));
    if now >= expires {
      TurnReasoned(f, row, Expired);
    } else {
      if c == Detail { assert row.path.value in f.identities by { SoundPool(f); } }
      PlainReasoned(f, row, admit(f.serial));
    }
  }

  lemma {:induction false} TimerSlotsReasoned(e: EngineState, c: Channel, target: nat, now: int, admit: nat -> bool)
    requires Reasoned(e.books) && Inv(e) && c in TIMERS
    ensures Reasoned(TimerSlots(e, c, target, now, admit).books)
    decreases e.variant.Seconds() - target
  {
    hide Reasoned, Inv, Grew, TimerSlot, Offers;
    if e.fault.None? && now >= e.grid.start + target * NS && target < e.variant.Seconds() {
      TimersKept(e);
      TimerSlotReasoned(e, c, target, now, admit);
      TimerSlotGrows(e, c, target, now, admit);
      TimerSlotsReasoned(TimerSlot(e, c, target, now, admit), c, target + Interval(c), now, admit);
    }
  }

  lemma {:induction false} TimersReasoned(e: EngineState, now: int, admit: nat -> bool, bound: nat)
    requires Reasoned(e.books) && Inv(e) && bound <= |TIMERS|
    ensures Reasoned(Timers(e, now, admit, bound).books)
  {
    hide Reasoned, Inv, Grew, TimerSlots, Offers;
    if bound > 0 {
      var before, c := Timers(e, now, admit, bound - 1), TIMERS[bound - 1];
      TimersReasoned(e, now, admit, bound - 1);
      TimersGrow(e, now, admit, bound - 1);
      TimersKept(before);
      if Timed(before.variant, c) { TimerSlotsReasoned(before, c, before.timers[c], now, admit); }
    }
  }

  /** Whatever a tick submits, every refusal has an allowed reason. */
  lemma ProduceReasoned(e: EngineState, now: int, admit: nat -> bool)
    requires Reasoned(e.books) && Inv(e)
    ensures Reasoned(Produce(e, now, admit).books)
  {
    hide Reasoned, Inv, Grew, GridStep, Rotations, Timers, Offers;
    var a := GridStep(e, now, admit);
    GridReasoned(e, now, admit);
    GridStepGrows(e, now, admit);
    RotationsReasoned(a, now, admit, TASKS);
    RotationsGrow(a, now, admit, TASKS);
    TimersReasoned(Rotations(a, now, admit, TASKS), now, admit, |TIMERS|);
  }

  lemma VerificationReasoned(e: EngineState, now: int, deadline: int, admit: bool)
    requires Reasoned(e.books) && Inv(e)
    ensures Reasoned(SubmitVerification(e, now, deadline, admit).books)
  {
    hide Reasoned, Inv, EngineState.Submit;
    PlainReasoned(e, e.MakeRow("full_verify", Verify, now, Min(deadline, now + 60 * NS), now, None, None), admit);
  }

  // ----- events and deadlines -----

  lemma CompletionReasoned(e: EngineState, row: Row, token: Option<Reservation>, ev: Event)
    requires Reasoned(e.books) && ev.CompletedEvent?
    ensures Reasoned(e.Completion(row, token, ev).books)
  {
    hide Reasoned, Books.Bump, EngineState.Close, EngineState.Stop, EngineState.Resolve, EngineState.Judge;
    hide Books.Complete;
    var (outcome, effective) := e.Judge(row, token, ev);
    ActiveReasoned(e.books, e.books.active - {ev.id});
    if e.books.Complete(ev.id, ev.at, outcome, effective).Success? {
      var a := e.(books := e.books.Complete(ev.id, ev.at, outcome, effective).value);
      CompleteReasoned(e.books, ev.id, ev.at, outcome, effective);
      BumpReasoned(a.books, Unknown, row.Own(), 1);
      if token.Some? { ResolveFrame(a, row, token.value, ev, outcome); }
      var b := if token.Some? then a.Resolve(row, token.value, ev, outcome) else a;
      BumpReasoned(b.books, Unknown, row.Own(), 1);
      CloseFrame(b, ev.id, outcome != Succeeded);
      CloseFrame(b.(books := b.books.Bump(Unknown, row.Own(), 1)), ev.id, outcome != Succeeded);
    }
  }

  /** Events bring no reason but the one a worker gives. */
  lemma AcceptReasoned(e: EngineState, ev: Event)
    requires Reasoned(e.books)
    requires ev.NotSentEvent? && ev.id in e.requests ==> Allowed(e.requests[ev.id].0.channel.Role(), ev.why)
    ensures Reasoned(e.Accept(ev).books)
  {
    hide Reasoned, Allowed, Books.Bump, Books.Send, Books.Withhold, GiveBack, PoolState.Finish, EngineState.Completion;
    hide PoolState.CancelUnsent;
    if ev.id in e.requests && ev.id !in e.terminal {
      var (row, token) := e.requests[ev.id];
      match ev
      case Info(_, _) =>
        BumpReasoned(e.books, RpcCompleted, row.Own(), 1);
        BumpReasoned(e.books.Bump(RpcCompleted, row.Own(), 1), RpcFailed, row.Own(), 1);
      case SentEvent(_, at) => if e.books.Send(ev.id, at).Success? { SendReasoned(e.books, ev.id, at); }
      case NotSentEvent(_, why) => WithholdReasoned(e.books, row, why);
      case CompletedEvent(_, _, _, _, _) => CompletionReasoned(e, row, token, ev);
      case TransportFailure(_) =>
    }
  }

  lemma ExpiryReasoned(e: EngineState, rid: nat, now: int)
    requires Reasoned(e.books)
    ensures Reasoned(e.Expiry(rid, now).books)
  {
    hide Reasoned, Books.Bump, PoolState.Finish;
    if e.Overdue(rid, now) {
      var c := e.requests[rid].0.Own();
      BumpReasoned(e.books, Timeout, c, 1);
      BumpReasoned(e.books.Bump(Timeout, c, 1), Unknown, c, 1);
    }
  }

  lemma {:induction false} ExpiriesReasoned(e: EngineState, now: int, bound: nat)
    requires Reasoned(e.books)
    ensures Reasoned(Expiries(e, now, bound).books)
  {
    hide Reasoned, EngineState.Expiry;
    if bound > 0 {
      ExpiriesReasoned(e, now, bound - 1);
      ExpiryReasoned(Expiries(e, now, bound - 1), bound - 1, now);
    }
  }

  lemma NewReasoned(start: int)
    ensures Reasoned(NewBooks(start))
  {
  }
}
