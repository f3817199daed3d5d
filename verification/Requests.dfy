/** Which requests a tick makes: the live slot, the rotations, and the control and query timers. */
module RequestEffects {
  import opened Common
  import opened Channels
  import opened ArrivalGrid
  import opened ReservationPool
  import opened ConcurrencyLimits
  import opened AccountingLedger
  import opened EngineModel
  import opened EngineInvariant
  import opened EngineTick
  import TreePaths

  // ----- what a submission counts -----

  /** An offer, and the refusal that answered it at once. */
  function OfferCredits(cell: Cell, refused: Option<Refusal>): seq<Credit> {
    match refused
    case None => [(Offered, cell)]
    case Some(why) => [(Offered, cell), (NotSent, cell), (Refused(why), cell)]
  }

  lemma RefusedBooks(b: Books, d: Books, row: Row, why: Refusal)
    requires d.start == b.start && d.tallies == b.Offer(row).tallies
    ensures Counts(b, d.Withhold(row, why), OfferCredits(row.Own(), Some(why)))
  {
    hide Books.Bump, Counts, Row.Own, Books.Withhold;
    var cell := row.Own();
    OfferedBooks(b, d, row);
    WithholdMeaning(d, row, why);
    CountsJoin(b, d, d.Withhold(row, why), [(Offered, cell)], [(NotSent, cell), (Refused(why), cell)]);
    assert [(Offered, cell)] + [(NotSent, cell), (Refused(why), cell)] == OfferCredits(cell, Some(why));
  }

  lemma OfferedBooks(b: Books, d: Books, row: Row)
    requires d.start == b.start && d.tallies == b.Offer(row).tallies
    ensures Counts(b, d, OfferCredits(row.Own(), None))
  {
    CountsNone(b, b.active);
    CountsBump(b, b, [], Offered, row.Own());
    assert [] + [(Offered, row.Own())] == [(Offered, row.Own())];
  }

  lemma TurnCounts(e: EngineState, row: Row, why: Refusal)
    ensures Counts(e.books, e.Turn(row, why).books, OfferCredits(row.Own(), Some(why)))
  {
    hide Books.Withhold, Counts;
    RefusedBooks(e.books, e.books.Offer(row), row, why);
  }

  /** An opened request is offered; a bounced one is offered and refused by the dispatcher. */
  lemma OpenedCounts(e: EngineState, row: Row, token: Option<Reservation>)
    ensures Counts(e.books, Opened(e, row, token).books, OfferCredits(row.Own(), None))
    ensures Counts(e.books, Bounced(e, row, token).books, OfferCredits(row.Own(), Some(DispatchBusy)))
  {
    hide Books.Withhold, Counts, GiveBack, LimitsState.Admitted;
    OfferedBooks(e.books, BooksOpened(e.books, row), row);
    RefusedBooks(e.books, BooksOpened(e.books, row), row, DispatchBusy);
  }

  /** What opening and bouncing leave in the coordinator's own fields. */
  lemma OpenedShape(e: EngineState, row: Row, token: Option<Reservation>)
    ensures var o, b := Opened(e, row, token), Bounced(e, row, token);
            && o == e.(limits := o.limits, books := o.books, requests := e.requests[row.id := (row, token)],
                       serial := e.serial + 1)
            && b == e.(limits := b.limits, books := b.books, requests := e.requests - {row.id},
                       pool := e.Cancelled(token), serial := e.serial + 1)
  {
    hide Books.Withhold, BooksOpened, GiveBack, LimitsState.Admitted, EngineState.Cancelled;
  }

  // ----- the live slot -----

  /** The flow of a row is the second component of its path. */
  lemma FlowIsSecond(path: string)
    requires '/' in path
    ensures |TreePaths.Split(path)| >= 2 && FlowOf(path) == TreePaths.Split(path)[1]
  {
    if path[0] == '/' {
      UntilIsFirst(path[1..]);
    } else {
      FlowIsSecond(path[1..]);
    }
  }

  lemma UntilIsFirst(path: string)
    ensures Until(path) == TreePaths.Split(path)[0]
  {
  }

  /** The request of slot i on task j. */
  function ChildRow(e: EngineState, i: nat, j: nat, now: int): Row
    requires j < TASKS
  {
    var task := e.pool.tasks[j];
    Row(e.serial, CommandAt(i % 10).Name(), Child, Time(e.grid, i), Time(e.grid, i + 1), now,
        (Time(e.grid, i) - e.grid.start) / 1_000_000_000, StageNo(i % 10), Some(task.path), FlowOf(task.path),
        Some(task.attempt))
  }

  /** The cell of slot i while it has no task. */
  function SlotCredit(e: EngineState, i: nat): Cell {
    Cell((Time(e.grid, i) - e.grid.start) / 1_000_000_000, CommandAt(i % 10).Name(), StageNo(i % 10), "unassigned", W)
  }

  /** The idle task nearest ahead of the stage's cursor. */
  ghost predicate Nearest(p: PoolState, j: nat, stage: nat)
    requires stage < STAGES
  {
    && j < TASKS && p.tasks[j].stage == stage && !p.tasks[j].busy && !p.tasks[j].unknown
    && forall k: nat | k < TASKS && p.tasks[k].stage == stage && !p.tasks[k].busy && !p.tasks[k].unknown ::
         p.Distance(stage, j) <= p.Distance(stage, k)
  }

  /** Slot i became a request on task j, or the dispatcher turned it down and left the task idle. */
  ghost predicate SlotTaken(e: EngineState, f: EngineState, i: nat, j: nat, now: int, admitted: bool)
    requires j < TASKS
  {
    var row, task := ChildRow(e, i, j, now), e.pool.tasks[j];
    var token := Reservation(e.pool.serial, j, i % 10, task.attempt, CommandAt(i % 10).Name());
    && f.requests == (if admitted then e.requests[e.serial := (row, Some(token))] else e.requests)
    && f.pool.tasks == (if admitted then e.pool.tasks[j := task.(busy := true, reservation := Some(token))]
                        else e.pool.tasks)
    && Counts(e.books, f.books, OfferCredits(row.Own(), if admitted then None else Some(DispatchBusy)))
  }

  /** Slot i found no idle task of its stage: refused by a cap that is full, or because the stage is busy. */
  ghost predicate SlotRefused(e: EngineState, f: EngineState, i: nat) {
    var why := match e.limits.Reason(Child, None) case Some(cap) => cap case None => StageBusy;
    && f.requests == e.requests && f.pool == e.pool
    && Counts(e.books, f.books, OfferCredits(SlotCredit(e, i), Some(why)))
  }

  lemma TurnShape(e: EngineState, row: Row, why: Refusal)
    ensures var f := e.Turn(row, why);
            f == e.(books := f.books, serial := e.serial + 1)
  {
  }

  /** While a task is idle, no cap is full. */
  lemma IdleRoom(e: EngineState, j: nat)
    requires Inv(e) && j < TASKS && !e.pool.tasks[j].busy
    ensures e.limits.Reason(Child, None).None?
  {
    hide Linked, Owned, Live, PoolOk, Valid, LimitsState.Tight, Books.Balanced, FirstTimers, RotatingOk;
    NeverRefused(e, j, Child);
  }

  lemma RowFields(e: EngineState, i: nat, j: nat, now: int)
    requires j < TASKS
    ensures var row := ChildRow(e, i, j, now);
            row.path == Some(e.pool.tasks[j].path) && row.channel == Child && row.id == e.serial
  {
  }

  lemma SlotRow(e: EngineState, i: nat, j: nat, now: int)
    requires j < TASKS && e.pool.tasks[j].stage == i % 10
    ensures var f, token := e.(pool := e.pool.Taken(j, i % 10)), e.pool.Token(j, i % 10);
            && f.PoolRow(token, Time(e.grid, i), Time(e.grid, i + 1), now) == ChildRow(e, i, j, now)
            && token == Reservation(e.pool.serial, j, i % 10, e.pool.tasks[j].attempt, CommandAt(i % 10).Name())
            && f.pool.tasks == e.pool.tasks[j := e.pool.tasks[j].(busy := true, reservation := Some(token))]
  {
    hide Time, FlowOf, CommandAt, Command.Name;
  }

  /** The request of slot i on an idle task: always admitted, and then up to the dispatcher. */
  lemma TakenSlot(e: EngineState, i: nat, j: nat, now: int, admitted: bool)
    requires Inv(e) && j < TASKS && e.pool.Eligible(j, i % 10)
    ensures var f, token := e.(pool := e.pool.Taken(j, i % 10)), e.pool.Token(j, i % 10);
            var g := f.Submit(f.PoolRow(token, Time(e.grid, i), Time(e.grid, i + 1), now), Some(token), admitted);
            && SlotTaken(e, g, i, j, now, admitted)
            && g.serial == e.serial + 1 && g.cursor == e.cursor && g.timers == e.timers
  {
    hide Inv, Time, EngineState.Submit, Opened, Bounced, SlotTaken, ChildRow, EngineState.PoolRow, PoolState.Taken;
    var row := ChildRow(e, i, j, now);
    SlotRow(e, i, j, now);
    RowFields(e, i, j, now);
    SubmitPool(e, j, row, admitted);
    if admitted { OpenedSlot(e, i, j, now); } else { BouncedSlot(e, i, j, now); }
  }

  lemma OpenedSlot(e: EngineState, i: nat, j: nat, now: int)
    requires j < TASKS && e.pool.tasks[j].stage == i % 10
    ensures var f, token := e.(pool := e.pool.Taken(j, i % 10)), e.pool.Token(j, i % 10);
            var g := Opened(f, ChildRow(e, i, j, now), Some(token));
            SlotTaken(e, g, i, j, now, true) && g.serial == e.serial + 1 && g.cursor == e.cursor && g.timers == e.timers
  {
    hide Opened, Bounced, ChildRow, Counts, PoolState.Taken, PoolState.Token, OfferCredits, Time;
    var f, token := e.(pool := e.pool.Taken(j, i % 10)), Some(e.pool.Token(j, i % 10));
    var row := ChildRow(e, i, j, now);
    SlotRow(e, i, j, now);
    RowFields(e, i, j, now);
    OpenedCounts(f, row, token);
    OpenedShape(f, row, token);
  }

  lemma BouncedSlot(e: EngineState, i: nat, j: nat, now: int)
    requires Inv(e) && j < TASKS && e.pool.Eligible(j, i % 10)
    ensures var f, token := e.(pool := e.pool.Taken(j, i % 10)), e.pool.Token(j, i % 10);
            var g := Bounced(f, ChildRow(e, i, j, now), Some(token));
            SlotTaken(e, g, i, j, now, false) && g.serial == e.serial + 1 && g.cursor == e.cursor
            && g.timers == e.timers
  {
    hide Inv, Opened, Bounced, ChildRow, Counts, PoolState.Taken, PoolState.Token, OfferCredits, Time;
    hide PoolState.Sound, PoolState.CancelUnsent, PoolOk;
    var f, token := e.(pool := e.pool.Taken(j, i % 10)), Some(e.pool.Token(j, i % 10));
    var row := ChildRow(e, i, j, now);
    RowFields(e, i, j, now);
    OpenedCounts(f, row, token);
    OpenedShape(f, row, token);
    SoundPool(e);
    TakenCancelled(e.pool, j, i % 10);
    NothingOpen(e);
  }

  lemma NothingOpen(e: EngineState)
    requires Inv(e)
    ensures e.requests - {e.serial} == e.requests
  {
    hide Linked, Owned, Live, PoolOk, Valid, LimitsState.Tight, Books.Balanced, FirstTimers, RotatingOk;
    FreshId(e);
  }

  lemma LiveSlotMeans(e: EngineState, i: nat, now: int, admit: nat -> bool)
    requires Inv(e)
    ensures var f := LiveSlot(e, i, now, admit);
            && f.serial == e.serial + 1 && f.cursor == e.cursor && f.timers == e.timers
            && ((exists j: nat :: Nearest(e.pool, j, i % 10) && SlotTaken(e, f, i, j, now, admit(e.serial)))
                || ((forall j: nat | j < TASKS :: !e.pool.Eligible(j, i % 10)) && SlotRefused(e, f, i)))
  {
    hide Inv, Time, PoolState.Reserve, EngineState.Submit, PoolState.Taken, PoolState.Token;
    hide FlowOf, CommandAt, Command.Name, Counts, EngineState.Turn, Opened, Bounced;
    var stage := i % 10;
    ReserveMeaning(e.pool, stage);
    var at, next := Time(e.grid, i), Time(e.grid, i + 1);
    var token := e.pool.Reserve(stage).1;
    if token.None? {
      var row := e.MakeRow(CommandAt(stage).Name(), Child, at, next, now, None, None).(stage := StageNo(stage));
      var why := match e.limits.Reason(Child, None) case Some(cap) => cap case None => StageBusy;
      TurnCounts(e, row, why);
      TurnShape(e, row, why);
    } else {
      var j := token.value.task;
      assert e.limits.Reason(Child, None).None? by { IdleRoom(e, j); }
      assert Nearest(e.pool, j, stage);
      TakenSlot(e, i, j, now, admit(e.serial));
    }
  }

  /** What the expired slots lo..hi count, slot by slot: offered, not sent and expired, each in its own second. */
  function ExpiredCredits(e: EngineState, lo: nat, hi: nat): seq<Credit>
    decreases hi
  {
    if hi <= lo then [] else ExpiredCredits(e, lo, hi - 1) + OfferCredits(SlotCredit(e, hi - 1), Some(Expired))
  }

  lemma {:induction false} ExpiredCounts(e: EngineState, lo: nat, hi: nat)
    ensures Counts(e.books, ExpireSlots(e.books, e.grid, lo, hi), ExpiredCredits(e, lo, hi))
    decreases hi
  {
    hide Counts, Time, Expire, OfferCredits, SlotCredit;
    CountsNone(e.books, e.books.active);
    if lo < hi {
      var before := ExpireSlots(e.books, e.grid, lo, hi - 1);
      ExpiredCounts(e, lo, hi - 1);
      ExpireCounts(before, SlotCell(e.grid, hi - 1));
      assert SlotCell(e.grid, hi - 1) == SlotCredit(e, hi - 1) by { SlotCellIs(e, hi - 1); }
      CountsJoin(e.books, before, Expire(before, SlotCell(e.grid, hi - 1), 1), ExpiredCredits(e, lo, hi - 1),
                 OfferCredits(SlotCredit(e, hi - 1), Some(Expired)));
    }
  }

  lemma SlotCellIs(e: EngineState, i: nat)
    ensures SlotCell(e.grid, i) == SlotCredit(e, i)
  {
    hide Time, CommandAt;
  }

  lemma ExpireCounts(b: Books, cell: Cell)
    ensures Counts(b, Expire(b, cell, 1), OfferCredits(cell, Some(Expired)))
  {
    hide Counts, Books.Bump;
    var c := b.Bump(Offered, cell, 1);
    CountsNone(b, b.active);
    CountsBump(b, b, [], Offered, cell);
    assert [] + [(Offered, cell)] == [(Offered, cell)];
    CountsBump(b, c, [(Offered, cell)], NotSent, cell);
    assert [(Offered, cell)] + [(NotSent, cell)] == [(Offered, cell), (NotSent, cell)];
    CountsBump(b, c.Bump(NotSent, cell, 1), [(Offered, cell), (NotSent, cell)], Refused(Expired), cell);
    assert [(Offered, cell), (NotSent, cell)] + [(Refused(Expired), cell)] == OfferCredits(cell, Some(Expired));
  }

  /** A poll moves the cursor and counts the expired slots. */
  function Polled(e: EngineState, i: nat): EngineState {
    e.(cursor := i + 1, books := ExpireSlots(e.books, e.grid, e.cursor, i))
  }

  /** Slot i became a request on the nearest idle task of its stage, or there was none. */
  ghost predicate SlotDone(f: EngineState, g: EngineState, i: nat, now: int, admitted: bool) {
    || (exists j: nat :: Nearest(f.pool, j, i % 10) && SlotTaken(f, g, i, j, now, admitted))
    || ((forall j: nat | j < TASKS :: !f.pool.Eligible(j, i % 10)) && SlotRefused(f, g, i))
  }

  /** The slot's window, up to the next slot, holds the moment. */
  ghost predicate Due(g: Timetable, i: nat, now: int) { Time(g, i) <= now < Time(g, i + 1) }

  /** The grid part of a tick: the live slot is offered, after all slots before it have expired. */
  lemma GridStepMeans(e: EngineState, now: int, admit: nat -> bool, i: nat)
    requires Inv(e) && e.cursor <= i < e.grid.total && Due(e.grid, i, now)
    ensures var f, g := Polled(e, i), GridStep(e, now, admit);
            && SlotDone(f, g, i, now, admit(e.serial))
            && g.cursor == i + 1 && g.serial == e.serial + 1 && g.timers == e.timers
  {
    hide Time, Poll, ExpireSlots, LiveSlot, Nearest, SlotTaken, SlotRefused, PoolState.Eligible;
    hide Linked, Owned, Live, PoolOk, Valid, RotatingOk, LimitsState.Tight, Books.Balanced, FirstTimers;
    PollLive(e.grid, e.cursor, now, i);
    PolledKeeps(e, now);
    LiveSlotMeans(Polled(e, i), i, now, admit);
  }

  /** Without a live slot nothing is requested; once the grid is over the rest has expired. */
  lemma GridStepIdle(e: EngineState, now: int, admit: nat -> bool)
    requires Inv(e) && forall i: nat | e.cursor <= i < e.grid.total :: !Due(e.grid, i, now)
    ensures GridStep(e, now, admit) ==
            if now >= e.grid.end
            then e.(cursor := e.grid.total, books := ExpireSlots(e.books, e.grid, e.cursor, e.grid.total))
            else e
  {
    hide Time, Poll, LiveSlot, Linked, Owned, Live, PoolOk, RotatingOk, LimitsState.Tight, Books.Balanced;
    hide FirstTimers, Valid;
    forall i: nat | e.cursor <= i < e.grid.total ensures !(Time(e.grid, i) <= now < Time(e.grid, i + 1)) {
      assert !Due(e.grid, i, now);
    }
    PollIdle(e.grid, e.cursor, now);
    assert ExpireSlots(e.books, e.grid, e.cursor, e.cursor) == e.books;
  }

  // ----- rotations -----

  /** The request that takes an idle task of stage 10 or 11 one step on. */
  ghost predicate IsRotation(e: EngineState, q: Request, now: int) {
    && q.1.Some? && q.1.value.task < TASKS
    && var task, token := e.pool.tasks[q.1.value.task], q.1.value;
       && (task.stage == 10 || task.stage == 11) && !task.busy && !task.unknown
       && token.stage == task.stage && token.attempt == task.attempt
       && q.0 == Row(q.0.id, CommandAt(task.stage).Name(), Rotation, now, Min(e.grid.end, now + 10_000_000_000), now,
                     (now - e.grid.start) / 1_000_000_000, StageNo(task.stage), Some(task.path), FlowOf(task.path),
                     Some(task.attempt))
  }

  /** Counters of other roles are left alone. */
  ghost predicate OnlyRole(b: Books, d: Books, role: Role) {
    forall m: Metric, other: Role | other != role :: d.Count(m, other) == b.Count(m, other)
  }

  lemma OfferRole(b: Books, d: Books, cell: Cell, refused: Option<Refusal>)
    requires Counts(b, d, OfferCredits(cell, refused))
    ensures OnlyRole(b, d, cell.role)
    ensures d.Count(Offered, cell.role) == b.Count(Offered, cell.role) + 1
  {
    hide Counts, Books.Count;
    var credits := OfferCredits(cell, refused);
    forall m: Metric, role: Role ensures d.Count(m, role) == b.Count(m, role) + Times(credits, m, role) {
      CountsRole(b, d, credits, m, role);
    }
    forall m: Metric, role: Role | role != cell.role ensures Times(credits, m, role) == 0 {
      OfferTimes(cell, refused, m, role);
    }
    OfferTimes(cell, refused, Offered, cell.role);
  }

  lemma OfferTimes(cell: Cell, refused: Option<Refusal>, m: Metric, role: Role)
    ensures role != cell.role ==> Times(OfferCredits(cell, refused), m, role) == 0
    ensures role == cell.role && m == Offered ==> Times(OfferCredits(cell, refused), m, role) == 1
  {
    match refused
    case None =>
    case Some(why) => TimesOfThree((Offered, cell), (NotSent, cell), (Refused(why), cell), m, role);
  }

  /** One turn of the rotation loop for a task that is due and has, or may get, a pipeline. */
  lemma RotateMeans(e: EngineState, i: nat, now: int, admit: nat -> bool)
    requires Inv(e) && i < TASKS && Rotatable(e, i)
    ensures var g := Rotate(e, i, now, admit);
            && g.limits.rotating == e.limits.rotating + {i} && g.serial == e.serial + 1
            && g.timers == e.timers && OnlyRole(e.books, g.books, R)
            && (admit(e.serial) ==>
                  && e.serial in g.requests && g.requests == e.requests[e.serial := g.requests[e.serial]]
                  && IsRotation(e, g.requests[e.serial], now) && g.pool.tasks[i].busy)
            && (!admit(e.serial) ==> g.requests == e.requests && g.pool.tasks == e.pool.tasks)
  {
    hide Inv, Rotate, Grew, Opened, Bounced, Offers, PoolState.Taken, PoolState.Token, OnlyRole, FlowOf, Counts;
    RotateGrows(e, i, now, admit);
    var stage := e.pool.tasks[i].stage;
    var token := e.pool.Token(i, stage);
    var f := Aimed(e, i);
    RotationRow(e, i, now);
    var row := f.PoolRow(token, now, Min(e.grid.end, now + RPC_LIMIT), now);
    OpenedCounts(f, row, Some(token));
    OpenedShape(f, row, Some(token));
    OpenedPipelines(f, row, Some(token));
    OfferRole(e.books, Opened(f, row, Some(token)).books, row.Own(), None);
    OfferRole(e.books, Bounced(f, row, Some(token)).books, row.Own(), Some(DispatchBusy));
    NothingOpen(e);
    SoundPool(e);
    TakenCancelled(e.pool, i, stage);
  }

  lemma OpenedPipelines(e: EngineState, row: Row, token: Option<Reservation>)
    ensures Opened(e, row, token).limits.rotating == e.limits.rotating
    ensures Bounced(e, row, token).limits.rotating == e.limits.rotating
  {
    hide LimitsState.Admitted, GiveBack;
    var path := if token.Some? then row.path else None;
    LimitsFrame(e.limits, row.id, row.channel, path);
    LimitsFrame(e.limits.Admitted(row.id, row.channel, path), row.id, row.channel, path);
  }

  lemma RotationRow(e: EngineState, i: nat, now: int)
    requires i < TASKS && Rotatable(e, i)
    ensures var f, token := Aimed(e, i), e.pool.Token(i, e.pool.tasks[i].stage);
            var row := f.PoolRow(token, now, Min(e.grid.end, now + RPC_LIMIT), now);
            && token.task == i && IsRotation(e, (row, Some(token)), now) && row.id == e.serial && row.Own().role == R
            && f.pool.tasks[i].busy && f.books == e.books && f.serial == e.serial && f.requests == e.requests
            && f.limits.rotating == e.limits.rotating + {i} && f.timers == e.timers
            && f.pool == e.pool.Taken(i, e.pool.tasks[i].stage)
  {
    hide FlowOf, Command.Name;
  }

  /** Task i waits for no rotation, or all pipelines are taken, or the dispatcher has turned one down. */
  ghost predicate Attended(e: EngineState, g: EngineState, i: nat, admit: nat -> bool)
    requires i < TASKS
  {
    var task := g.pool.tasks[i];
    (task.stage == 10 || task.stage == 11) && !task.busy && !task.unknown ==>
      || (i !in g.limits.rotating && |g.limits.rotating| >= 16)
      || exists r: nat :: e.serial <= r < g.serial && !admit(r)
  }

  /** What the rotation loop has done for the tasks below a bound. */
  ghost predicate RotatedBelow(e: EngineState, g: EngineState, now: int, admit: nat -> bool, bound: nat)
    requires bound <= TASKS
  {
    && (forall r | r in g.requests && r !in e.requests :: IsRotation(e, g.requests[r], now))
    && (forall i: nat | i < bound :: Attended(e, g, i, admit))
    && g.timers == e.timers && OnlyRole(e.books, g.books, R) && e.limits.rotating <= g.limits.rotating
  }

  lemma {:induction false} RotationsMean(e: EngineState, now: int, admit: nat -> bool, bound: nat)
    requires Inv(e) && bound <= TASKS
    ensures RotatedBelow(e, Rotations(e, now, admit, bound), now, admit, bound)
  {
    hide Inv, Rotate, Offers, RotatedBelow, Grew, Rotatable, Opened, Bounced, Aimed, EngineState.PoolRow;
    if bound == 0 {
      RotatedNone(e, now, admit);
    } else {
      var f := Rotations(e, now, admit, bound - 1);
      RotationsMean(e, now, admit, bound - 1);
      RotationsGrow(e, now, admit, bound - 1);
      assert f.fault.None? by { InvLinked(f); }
      RotateGrows(f, bound - 1, now, admit);
      RotatedNext(e, f, now, admit, bound - 1);
    }
  }

  lemma RotatedNone(e: EngineState, now: int, admit: nat -> bool)
    ensures RotatedBelow(e, e, now, admit, 0)
  {
  }

  lemma RotatedNext(e: EngineState, f: EngineState, now: int, admit: nat -> bool, i: nat)
    requires i < TASKS && RotatedBelow(e, f, now, admit, i) && Inv(f) && Grew(e, f)
    requires Grew(f, Rotate(f, i, now, admit)) && (!Rotatable(f, i) ==> Rotate(f, i, now, admit) == f)
    ensures RotatedBelow(e, Rotate(f, i, now, admit), now, admit, i + 1)
  {
    hide Inv, Rotate, IsRotation, OnlyRole;
    var g := Rotate(f, i, now, admit);
    if Rotatable(f, i) {
      RotateMeans(f, i, now, admit);
      SubsetSize(f.limits.rotating, g.limits.rotating);
      OnlyRoleJoin(e.books, f.books, g.books, R);
      forall j: nat | j < i + 1 ensures Attended(e, g, j, admit) {
        AttendedNext(e, f, g, j, i, admit);
      }
      forall r | r in g.requests && r !in e.requests ensures IsRotation(e, g.requests[r], now) {
        if r !in f.requests { RotationEarlier(e, f, g.requests[r], now); }
      }
    }
  }

  lemma OnlyRoleJoin(b: Books, c: Books, d: Books, role: Role)
    requires OnlyRole(b, c, role) && OnlyRole(c, d, role)
    ensures OnlyRole(b, d, role)
  {
    hide Books.Count;
  }

  /** A task that is idle now was as idle before. */
  lemma RotationEarlier(e: EngineState, f: EngineState, q: Request, now: int)
    requires Grew(e, f) && IsRotation(f, q, now)
    ensures IsRotation(e, q, now)
  {
    hide FlowOf, CommandAt, OldRequest, NewRequest;
    assert SameTask(e.pool.tasks[q.1.value.task], f.pool.tasks[q.1.value.task]);
  }

  lemma AttendedNext(e: EngineState, f: EngineState, g: EngineState, j: nat, i: nat, admit: nat -> bool)
    requires i < TASKS && j <= i && (j < i ==> Attended(e, f, j, admit)) && e.serial <= f.serial
    requires SameTask(f.pool.tasks[j], g.pool.tasks[j]) && g.serial == f.serial + 1
    requires g.limits.rotating == f.limits.rotating + {i} && |f.limits.rotating| <= |g.limits.rotating|
    requires admit(f.serial) ==> g.pool.tasks[i].busy
    ensures Attended(e, g, j, admit)
  {
  }

  // ----- control and query timers -----

  /** The seconds at which a timer channel sends: batches every ten, structure changes every sixty, queries each. */
  predicate Fires(c: Channel, t: nat) {
    match c
    case Batch => t >= 10 && t % 10 == 0
    case Structure => t >= 60 && t % 60 == 0
    case _ => true
  }

  /** Which variants send on a timer channel: batches need the large tree, structure changes a structural variant. */
  predicate Runs(v: Variant, c: Channel) {
    match c
    case Batch => v.RunH? || v.RunD? || v.RunL? || v.RunR?
    case Structure => v.RunL? || v.RunR?
    case _ => true
  }

  lemma TimedIs(v: Variant, c: Channel)
    ensures Timed(v, c) <==> Runs(v, c)
  {
  }

  /** The request of a timer channel for second t; it is good until the channel's next second. */
  function TimerRow(e: EngineState, c: Channel, t: nat, now: int): Row {
    var scheduled := e.grid.start + t * 1_000_000_000;
    var good := match c case Batch => 10_000_000_000 case Structure => 60_000_000_000 case _ => 1_000_000_000;
    var operation := match c
                     case Batch => "force"
                     case Structure => if e.variant.RunL? then "load" else "replace"
                     case Since => "since"
                     case Detail => "detail"
                     case _ => "status";
    var path := match c
                case Batch => Some("/flow008")
                case Structure =>
                  Some(if e.variant.RunR? then "/flow009" else if t == 60 then "/flow010" else "/flow011")
                case Detail => Some(e.pool.tasks[t % 250].path)
                case _ => None;
    Row(e.serial, operation, c, scheduled, Min(e.grid.end, scheduled + good), now, t, StageName(operation), path,
        if path.Some? then FlowOf(path.value) else "unassigned", None)
  }

  /** Why second t of a timer channel is not sent: too late, a cap, or the dispatcher. */
  function TimerRefusal(e: EngineState, c: Channel, t: nat, now: int, admitted: bool): Option<Refusal> {
    if now >= TimerRow(e, c, t, now).expires then Some(Expired)
    else match e.limits.Reason(c, None)
         case Some(cap) => Some(cap)
         case None => if admitted then None else Some(DispatchBusy)
  }

  lemma TimerRowIs(e: EngineState, c: Channel, t: nat, now: int)
    requires c in TIMERS
    ensures var scheduled := e.grid.start + t * NS;
            var f := e.(timers := e.timers[c := t + Interval(c)]);
            var row := TimerRow(e, c, t, now);
            && row.expires == Min(e.grid.end, scheduled + Interval(c) * NS)
            && f.MakeRow(ControlName(e.variant, c), c, scheduled, row.expires, now, None, ControlPath(e, c, t)) == row
            && row.id == e.serial && !row.channel.Pooled() && row.channel == c && row.Own().role == c.Role()
  {
    hide FlowOf;
    assert (t * NS) / NS == t;
  }

  /** One due second of a timer channel: offered once, and sent unless there is a reason against it. */
  lemma TimerSlotMeans(e: EngineState, c: Channel, t: nat, now: int, admit: nat -> bool)
    requires Inv(e) && c in TIMERS
    ensures var g, row := TimerSlot(e, c, t, now, admit), TimerRow(e, c, t, now);
            var refused := TimerRefusal(e, c, t, now, admit(e.serial));
            && Counts(e.books, g.books, OfferCredits(row.Own(), refused))
            && g.requests == (if refused.None? then e.requests[e.serial := (row, None)] else e.requests)
            && g.serial == e.serial + 1 && g.pool == e.pool && g.timers == e.timers[c := t + Interval(c)]
            && g.grid == e.grid && g.variant == e.variant
  {
    hide Inv, EngineState.Submit, EngineState.Turn, TimerRow, EngineState.MakeRow, ControlName, ControlPath, Interval;
    hide Opened, Bounced, Counts, OfferCredits, LimitsState.Reason, Grew;
    TimerRowIs(e, c, t, now);
    TimersKept(e);
    var f := e.(timers := e.timers[c := t + Interval(c)]);
    var row := TimerRow(e, c, t, now);
    TimerSet(e, c, t + Interval(c));
    if now >= row.expires {
      TurnCounts(f, row, Expired);
      TurnShape(f, row, Expired);
    } else {
      if c == Detail { DetailPath(e, t, now); }
      InvLinked(f);
      SubmitForm(f, row, None, admit(e.serial));
      OpenedCounts(f, row, None);
      OpenedShape(f, row, None);
      NothingOpen(f);
      match e.limits.Reason(c, None) {
        case Some(cap) => TurnCounts(f, row, cap); TurnShape(f, row, cap);
        case None =>
      }
    }
  }

  lemma DetailPath(e: EngineState, t: nat, now: int)
    requires Inv(e)
    ensures TimerRow(e, Detail, t, now).path.Some? && TimerRow(e, Detail, t, now).path.value in e.identities
  {
    hide Linked, Owned, Live, Valid, LimitsState.Tight, Books.Balanced, FirstTimers, RotatingOk;
    PoolIdentity(e, t % 250);
  }

  /** The seconds of a channel that are due and not yet offered. */
  ghost function DueTimes(e: EngineState, c: Channel, from: nat, now: int): set<nat> {
    set t: nat | from <= t < e.variant.Seconds() && Fires(c, t) && e.grid.start + t * NS <= now
  }

  ghost function FiredBetween(c: Channel, lo: nat, hi: nat): set<nat> { set t: nat | lo <= t < hi && Fires(c, t) }

  /** From second `from` on, the channel has offered exactly its due seconds, each once. */
  ghost predicate TimesDone(e: EngineState, g: EngineState, c: Channel, from: nat, now: int) {
    var due := DueTimes(e, c, from, now);
    && c in g.timers && g.timers == e.timers[c := g.timers[c]]
    && from <= g.timers[c] && Fires(c, g.timers[c])
    && due == FiredBetween(c, from, g.timers[c])
    && g.serial == e.serial + |due| && g.pool == e.pool && g.grid == e.grid && g.variant == e.variant
    && OnlyRole(e.books, g.books, c.Role())
    && g.books.Count(Offered, c.Role()) == e.books.Count(Offered, c.Role()) + |due|
  }

  /** Every new request is for a due second of the channel. */
  ghost predicate RowsDone(e: EngineState, g: EngineState, c: Channel, from: nat, now: int) {
    && (forall r | r in e.requests :: r in g.requests && g.requests[r] == e.requests[r])
    && (forall r | r in g.requests && r !in e.requests ::
          ForSecond(e, g.requests[r], r, c, DueTimes(e, c, from, now), now))
  }

  ghost predicate ForSecond(e: EngineState, q: Request, r: nat, c: Channel, due: set<nat>, now: int) {
    exists t :: t in due && q == (TimerRow(e, c, t, now).(id := r), None)
  }

  lemma NextFire(c: Channel, t: nat)
    requires Fires(c, t)
    ensures Fires(c, t + Interval(c)) && forall u: nat | t < u < t + Interval(c) :: !Fires(c, u)
  {
  }

  lemma DueNext(e: EngineState, c: Channel, t: nat, now: int)
    requires Fires(c, t) && t < e.variant.Seconds() && e.grid.start + t * NS <= now
    ensures var rest := DueTimes(e, c, t + Interval(c), now);
            && DueTimes(e, c, t, now) == {t} + rest && t !in rest && |DueTimes(e, c, t, now)| == |rest| + 1
  {
    hide Fires;
    NextFire(c, t);
    var rest := DueTimes(e, c, t + Interval(c), now);
    assert DueTimes(e, c, t, now) == {t} + rest;
  }

  lemma DueNone(e: EngineState, c: Channel, t: nat, now: int)
    requires now < e.grid.start + t * NS || t >= e.variant.Seconds()
    ensures DueTimes(e, c, t, now) == {}
  {
  }

  lemma {:induction false} TimerSlotsMean(e: EngineState, c: Channel, t: nat, now: int, admit: nat -> bool)
    requires Inv(e) && c in TIMERS && Fires(c, t) && c in e.timers && e.timers[c] == t
    ensures var g := TimerSlots(e, c, t, now, admit);
            TimesDone(e, g, c, t, now) && RowsDone(e, g, c, t, now)
    decreases e.variant.Seconds() - t
  {
    hide Inv, TimerSlot, TimesDone, RowsDone, Fires, OfferedOnce, Interval, TimerSlots;
    InvLinked(e);
    TimerUnfold(e, c, t, now, admit);
    if now < e.grid.start + t * NS || t >= e.variant.Seconds() {
      TimerIdle(e, c, t, now);
    } else {
      SomeInterval(c);
      var f := TimerSlot(e, c, t, now, admit);
      TimerOnce(e, c, t, now, admit);
      TimerNext(e, f, c, t, now);
      TimerSlotsMean(f, c, t + Interval(c), now, admit);
      var g := TimerSlots(f, c, t + Interval(c), now, admit);
      TimesStep(e, f, g, c, t, now);
      RowsStep(e, f, g, c, t, now);
    }
  }

  lemma TimerUnfold(e: EngineState, c: Channel, t: nat, now: int, admit: nat -> bool)
    requires e.fault.None?
    ensures TimerSlots(e, c, t, now, admit) ==
            if now < e.grid.start + t * NS || t >= e.variant.Seconds() then e
            else TimerSlots(TimerSlot(e, c, t, now, admit), c, t + Interval(c), now, admit)
  {
    hide TimerSlot;
  }

  lemma SomeInterval(c: Channel)
    ensures Interval(c) > 0
  {
  }

  lemma TimerIdle(e: EngineState, c: Channel, t: nat, now: int)
    requires c in e.timers && e.timers[c] == t && Fires(c, t)
    requires now < e.grid.start + t * NS || t >= e.variant.Seconds()
    ensures TimesDone(e, e, c, t, now) && RowsDone(e, e, c, t, now)
  {
    hide Books.Count;
    DueNone(e, c, t, now);
  }

  /** Second t has been offered once, and perhaps become a request. */
  ghost predicate OfferedOnce(e: EngineState, f: EngineState, c: Channel, t: nat, now: int) {
    && f.timers == e.timers[c := t + Interval(c)] && f.serial == e.serial + 1
    && f.pool == e.pool && f.grid == e.grid && f.variant == e.variant
    && OnlyRole(e.books, f.books, c.Role())
    && f.books.Count(Offered, c.Role()) == e.books.Count(Offered, c.Role()) + 1
    && e.serial !in e.requests
    && (f.requests == e.requests || f.requests == e.requests[e.serial := (TimerRow(e, c, t, now), None)])
  }

  lemma TimerOnce(e: EngineState, c: Channel, t: nat, now: int, admit: nat -> bool)
    requires Inv(e) && c in TIMERS
    ensures Inv(TimerSlot(e, c, t, now, admit)) && OfferedOnce(e, TimerSlot(e, c, t, now, admit), c, t, now)
  {
    hide Inv, TimerSlot, Counts, OnlyRole, TimerRow, TimerRefusal, OfferCredits, Books.Count, Grew, Offers;
    TimersKept(e);
    TimerSlotGrows(e, c, t, now, admit);
    TimerSlotMeans(e, c, t, now, admit);
    TimerRowIs(e, c, t, now);
    OfferRole(e.books, TimerSlot(e, c, t, now, admit).books, TimerRow(e, c, t, now).Own(),
              TimerRefusal(e, c, t, now, admit(e.serial)));
    InvLinked(e);
    FreshId(e);
  }

  lemma TimerNext(e: EngineState, f: EngineState, c: Channel, t: nat, now: int)
    requires OfferedOnce(e, f, c, t, now) && Fires(c, t)
    ensures c in f.timers && f.timers[c] == t + Interval(c) && Fires(c, t + Interval(c)) && f.variant == e.variant
  {
    hide OnlyRole, TimerRow, Books.Count;
    NextFire(c, t);
  }

  lemma TimesStep(e: EngineState, f: EngineState, g: EngineState, c: Channel, t: nat, now: int)
    requires OfferedOnce(e, f, c, t, now) && TimesDone(f, g, c, t + Interval(c), now)
    requires Fires(c, t) && t < e.variant.Seconds() && e.grid.start + t * NS <= now
    ensures TimesDone(e, g, c, t, now)
  {
    hide Fires, OnlyRole, TimerRow, Books.Count, DueTimes, FiredBetween;
    OnlyRoleJoin(e.books, f.books, g.books, c.Role());
    DueNext(e, c, t, now);
    DueSame(e, f, c, t + Interval(c), now);
    FiredNext(c, t, g.timers[c]);
  }

  lemma FiredNext(c: Channel, t: nat, n: nat)
    requires Fires(c, t) && t + Interval(c) <= n
    ensures FiredBetween(c, t, n) == {t} + FiredBetween(c, t + Interval(c), n)
  {
    hide Fires;
    NextFire(c, t);
  }

  lemma DueSame(e: EngineState, f: EngineState, c: Channel, t: nat, now: int)
    requires f.variant == e.variant && f.grid == e.grid
    ensures DueTimes(f, c, t, now) == DueTimes(e, c, t, now)
  {
  }

  lemma RowsStep(e: EngineState, f: EngineState, g: EngineState, c: Channel, t: nat, now: int)
    requires OfferedOnce(e, f, c, t, now) && RowsDone(f, g, c, t + Interval(c), now)
    requires Fires(c, t) && t < e.variant.Seconds() && e.grid.start + t * NS <= now
    ensures RowsDone(e, g, c, t, now)
  {
    hide Fires, OnlyRole, TimerRow, Books.Count, ForSecond;
    DueNext(e, c, t, now);
    var rest, due := DueTimes(f, c, t + Interval(c), now), DueTimes(e, c, t, now);
    assert rest == DueTimes(e, c, t + Interval(c), now);
    forall r | r in g.requests && r !in e.requests ensures ForSecond(e, g.requests[r], r, c, due, now) {
      if r in f.requests {
        SecondNow(e, c, t, due, now);
      } else {
        SecondEarlier(e, f, g.requests[r], r, c, rest, due, now);
      }
    }
  }

  lemma SecondNow(e: EngineState, c: Channel, t: nat, due: set<nat>, now: int)
    requires t in due
    ensures ForSecond(e, (TimerRow(e, c, t, now), None), e.serial, c, due, now)
  {
    hide FlowOf;
    assert TimerRow(e, c, t, now).(id := e.serial) == TimerRow(e, c, t, now);
  }

  lemma SecondEarlier(e: EngineState, f: EngineState, q: Request, r: nat, c: Channel, rest: set<nat>, due: set<nat>,
                      now: int)
    requires ForSecond(f, q, r, c, rest, now) && rest <= due
    requires f.grid == e.grid && f.variant == e.variant && f.pool == e.pool
    ensures ForSecond(e, q, r, c, due, now)
  {
    hide FlowOf;
    var t :| t in rest && q == (TimerRow(f, c, t, now).(id := r), None);
    assert TimerRow(f, c, t, now).(id := r) == TimerRow(e, c, t, now).(id := r);
  }

  /** Every channel's timer stands at one of its own seconds. */
  ghost predicate OnBeat(timers: map<Channel, nat>) { forall c | c in TIMERS :: c in timers && Fires(c, timers[c]) }

  /** How many seconds of the role's channels, among the first `bound`, are due. */
  ghost function DueOf(e: EngineState, role: Role, now: int, bound: nat): nat
    requires bound <= |TIMERS| && OnBeat(e.timers)
  {
    if bound == 0 then 0
    else
      var c := TIMERS[bound - 1];
      DueOf(e, role, now, bound - 1)
      + (if c.Role() == role && Runs(e.variant, c) then |DueTimes(e, c, e.timers[c], now)| else 0)
  }

  /** A channel's timer has moved past exactly its due seconds. */
  ghost predicate TimerPast(e: EngineState, g: EngineState, c: Channel, now: int)
    requires c in e.timers
  {
    && c in g.timers && Fires(c, g.timers[c]) && e.timers[c] <= g.timers[c]
    && FiredBetween(c, e.timers[c], g.timers[c]) ==
       if Runs(e.variant, c) then DueTimes(e, c, e.timers[c], now) else {}
  }

  /** The first `bound` timer channels have offered their due seconds, each once, and nothing else. */
  ghost predicate TimersBelow(e: EngineState, g: EngineState, now: int, bound: nat)
    requires bound <= |TIMERS| && OnBeat(e.timers)
  {
    && OnBeat(g.timers) && g.pool == e.pool && g.grid == e.grid && g.variant == e.variant
    && (forall k: nat | k < bound :: TimerPast(e, g, TIMERS[k], now))
    && (forall k: nat | bound <= k < |TIMERS| :: g.timers[TIMERS[k]] == e.timers[TIMERS[k]])
    && (forall role: Role :: g.books.Count(Offered, role) == e.books.Count(Offered, role) + DueOf(e, role, now, bound))
    && (forall r | r in e.requests :: r in g.requests && g.requests[r] == e.requests[r])
    && (forall r | r in g.requests && r !in e.requests :: OfTimer(e, g.requests[r], r, now, bound))
  }

  ghost predicate OfTimer(e: EngineState, q: Request, r: nat, now: int, bound: nat)
    requires bound <= |TIMERS| && OnBeat(e.timers)
  {
    exists k: nat :: k < bound && ForSecond(e, q, r, TIMERS[k], DueTimes(e, TIMERS[k], e.timers[TIMERS[k]], now), now)
  }

  lemma {:induction false} TimersMean(e: EngineState, now: int, admit: nat -> bool, bound: nat)
    requires Inv(e) && OnBeat(e.timers) && bound <= |TIMERS|
    ensures TimersBelow(e, Timers(e, now, admit, bound), now, bound)
  {
    hide Inv, Timer, TimersBelow, Grew, Offers, OnBeat;
    if bound == 0 {
      TimersNone(e, now);
    } else {
      var f := Timers(e, now, admit, bound - 1);
      TimersMean(e, now, admit, bound - 1);
      TimersGrow(e, now, admit, bound - 1);
      assert f.fault.None? by { InvLinked(f); }
      TimersNext(e, f, now, admit, bound - 1);
    }
  }

  lemma TimersNone(e: EngineState, now: int)
    requires OnBeat(e.timers)
    ensures TimersBelow(e, e, now, 0)
  {
  }

  lemma TimersNext(e: EngineState, f: EngineState, now: int, admit: nat -> bool, k: nat)
    requires k < |TIMERS| && OnBeat(e.timers) && TimersBelow(e, f, now, k) && Inv(f)
    ensures TimersBelow(e, Timer(f, TIMERS[k], now, admit), now, k + 1)
  {
    hide Inv, TimerSlots, Fires, ForSecond, Books.Count, DueTimes, OnlyRole, TimesDone, RowsDone, FiredBetween;
    hide TimerPast, OfTimer, DueOf;
    var c, g := TIMERS[k], Timer(f, TIMERS[k], now, admit);
    assert f.timers[c] == e.timers[c];
    TimedIs(e.variant, c);
    if Timed(e.variant, c) { TimerSlotsMean(f, c, f.timers[c], now, admit); }
    BeatNext(e, f, g, now, k);
    forall role: Role
      ensures g.books.Count(Offered, role) == e.books.Count(Offered, role) + DueOf(e, role, now, k + 1)
    {
      OfferedNext(e, f, g, now, k, role);
    }
    forall r | r in g.requests && r !in e.requests ensures OfTimer(e, g.requests[r], r, now, k + 1) {
      RowNext(e, f, g, now, k, r);
    }
    if Timed(e.variant, c) { RowsKept(f, g, c, now); }
  }

  /** What the next channel's timer has done. */
  ghost predicate NextTimer(e: EngineState, f: EngineState, g: EngineState, now: int, k: nat)
    requires k < |TIMERS|
  {
    var c := TIMERS[k];
    && c in f.timers && f.grid == e.grid && f.variant == e.variant && f.pool == e.pool
    && if Runs(e.variant, c) then TimesDone(f, g, c, f.timers[c], now) && RowsDone(f, g, c, f.timers[c], now)
       else g == f
  }

  lemma BeatNext(e: EngineState, f: EngineState, g: EngineState, now: int, k: nat)
    requires k < |TIMERS| && OnBeat(e.timers) && TimersBelow(e, f, now, k) && NextTimer(e, f, g, now, k)
    ensures OnBeat(g.timers) && g.pool == e.pool && g.grid == e.grid && g.variant == e.variant
    ensures forall j: nat | j < k + 1 :: TimerPast(e, g, TIMERS[j], now)
    ensures forall j: nat | k < j < |TIMERS| :: g.timers[TIMERS[j]] == e.timers[TIMERS[j]]
  {
    hide Fires, Books.Count, RowsDone, OnlyRole, DueTimes, Runs;
    var c := TIMERS[k];
    assert f.timers[c] == e.timers[c];
    DueSame(e, f, c, e.timers[c], now);
    assert FiredBetween(c, e.timers[c], e.timers[c]) == {};
    assert forall j: nat | j < |TIMERS| && j != k :: TIMERS[j] != c && g.timers[TIMERS[j]] == f.timers[TIMERS[j]];
    forall j: nat | j < k + 1 ensures TimerPast(e, g, TIMERS[j], now) {
      if j < k { assert TimerPast(e, f, TIMERS[j], now); }
    }
    forall d | d in TIMERS ensures d in g.timers && Fires(d, g.timers[d]) {
      assert d in f.timers && Fires(d, f.timers[d]);
    }
  }

  lemma OfferedNext(e: EngineState, f: EngineState, g: EngineState, now: int, k: nat, role: Role)
    requires k < |TIMERS| && OnBeat(e.timers) && TimersBelow(e, f, now, k) && NextTimer(e, f, g, now, k)
    ensures g.books.Count(Offered, role) == e.books.Count(Offered, role) + DueOf(e, role, now, k + 1)
  {
    hide Fires, Books.Count, RowsDone, DueTimes, Runs, FiredBetween, TimerPast, OfTimer;
    var c := TIMERS[k];
    assert f.timers[c] == e.timers[c];
    DueSame(e, f, c, e.timers[c], now);
  }

  lemma RowNext(e: EngineState, f: EngineState, g: EngineState, now: int, k: nat, r: nat)
    requires k < |TIMERS| && OnBeat(e.timers) && TimersBelow(e, f, now, k) && NextTimer(e, f, g, now, k)
    requires r in g.requests && r !in e.requests
    ensures OfTimer(e, g.requests[r], r, now, k + 1)
  {
    hide Fires, Books.Count, TimesDone, DueTimes, Runs, FiredBetween, TimerPast, ForSecond, DueOf;
    var c := TIMERS[k];
    assert f.timers[c] == e.timers[c];
    if r in f.requests {
      assert OfTimer(e, f.requests[r], r, now, k);
    } else {
      DueSame(e, f, c, e.timers[c], now);
      var due := DueTimes(e, c, e.timers[c], now);
      SecondEarlier(e, f, g.requests[r], r, c, due, due, now);
    }
  }

  lemma RowsKept(f: EngineState, g: EngineState, c: Channel, now: int)
    requires c in f.timers && RowsDone(f, g, c, f.timers[c], now)
    ensures forall r | r in f.requests :: r in g.requests && g.requests[r] == f.requests[r]
  {
  }

  // ----- whole ticks -----

  /** The grid part of a tick. */
  ghost predicate GridDone(b: EngineState, a: EngineState, now: int, admit: nat -> bool) {
    && (forall i: nat | b.cursor <= i < b.grid.total && Due(b.grid, i, now) ::
          SlotDone(Polled(b, i), a, i, now, admit(b.serial)) && a.cursor == i + 1)
    && ((forall i: nat | b.cursor <= i < b.grid.total :: !Due(b.grid, i, now)) ==>
          a == if now >= b.grid.end
               then b.(cursor := b.grid.total, books := ExpireSlots(b.books, b.grid, b.cursor, b.grid.total))
               else b)
  }

  /** New requests in the order of a tick: the live slot, then the rotations, then the timers. */
  ghost predicate Produced(b: EngineState, a: EngineState, c: EngineState, g: EngineState, now: int,
                           admit: nat -> bool) {
    && GridDone(b, a, now, admit) && OnBeat(a.timers) && OnBeat(c.timers) && Grew(a, g)
    && if now >= b.grid.end then c == a && g == a
       else RotatedBelow(a, c, now, admit, TASKS) && TimersBelow(c, g, now, |TIMERS|)
  }

  lemma GridDoneHolds(b: EngineState, now: int, admit: nat -> bool)
    requires Inv(b)
    ensures GridDone(b, GridStep(b, now, admit), now, admit) && GridStep(b, now, admit).timers == b.timers
  {
    hide Inv, GridStep, Due, SlotDone, ExpireSlots;
    var a := GridStep(b, now, admit);
    forall i: nat | b.cursor <= i < b.grid.total && Due(b.grid, i, now)
      ensures SlotDone(Polled(b, i), a, i, now, admit(b.serial)) && a.cursor == i + 1 && a.timers == b.timers
    {
      GridStepMeans(b, now, admit, i);
    }
    if forall i: nat | b.cursor <= i < b.grid.total :: !Due(b.grid, i, now) {
      GridStepIdle(b, now, admit);
    }
  }

  lemma ProduceMeans(b: EngineState, now: int, admit: nat -> bool)
    requires Inv(b) && OnBeat(b.timers)
    ensures var a := GridStep(b, now, admit);
            var c := if now >= b.grid.end then a else Rotations(a, now, admit, TASKS);
            Produced(b, a, c, Produce(b, now, admit), now, admit)
  {
    hide Inv, GridStep, Rotations, Timers, GridDone, RotatedBelow, TimersBelow, Grew, OnBeat, Offers;
    var a := GridStep(b, now, admit);
    GridDoneHolds(b, now, admit);
    GridStepGrows(b, now, admit);
    InvLinked(a);
    SameGrid(b, a);
    assert Grew(a, a) by { GrewSame(a, a); }
    if now < b.grid.end {
      var c := Rotations(a, now, admit, TASKS);
      RotationsGrow(a, now, admit, TASKS);
      RotationsMean(a, now, admit, TASKS);
      InvLinked(c);
      assert c.timers == a.timers by { RotatedTimers(a, c, now, admit); }
      TimersMean(c, now, admit, |TIMERS|);
      TimersGrow(c, now, admit, |TIMERS|);
      GrewTrans(a, c, Timers(c, now, admit, |TIMERS|));
    }
  }

  lemma SameGrid(e: EngineState, f: EngineState)
    requires Grew(e, f)
    ensures f.grid == e.grid
  {
  }

  lemma RotatedTimers(a: EngineState, c: EngineState, now: int, admit: nat -> bool)
    requires RotatedBelow(a, c, now, admit, TASKS)
    ensures c.timers == a.timers
  {
  }

  /**
   A tick after its events and deadlines: a guard that fails ends it, stopped or not; stopped, it makes no
   request; otherwise the live slot, the due rotations and the due timer seconds are offered, each once.
   */
  lemma TickMeans(e: EngineState, now: int, events: seq<Event>, admit: nat -> bool)
    requires Inv(e) && AllFit(e, events) && OnBeat(e.timers)
    ensures var a := AcceptAll(e, events);
            var b, g := Expiries(a, now, a.serial), Tick(e, now, events, true, admit);
            && Inv(b) && OnBeat(b.timers)
            && Tick(e, now, events, false, admit) == b.Fault("guard")
            && (b.stopped.Some? ==> g == b)
            && (b.stopped.None? ==> exists s, c :: Produced(b, s, c, g, now, admit))
  {
    hide Inv, AllFit, AcceptAll, Expiries, Produce, Offers, OnBeat, Produced;
    var a := AcceptAll(e, events);
    AcceptAllKeeps(e, events);
    InvLinked(a);
    var b := Expiries(a, now, a.serial);
    ExpiriesKeep(a, now, a.serial);
    ExpiriesCursor(a, now, a.serial);
    InvLinked(b);
    ProduceMeans(b, now, admit);
    if b.stopped.None? {
      var s := GridStep(b, now, admit);
      var c := if now >= b.grid.end then s else Rotations(s, now, admit, TASKS);
      assert Produced(b, s, c, Tick(e, now, events, true, admit), now, admit);
    }
  }

  /** Each timer starts at its channel's first second, and making requests keeps it on the beat. */
  lemma FirstOnBeat()
    ensures OnBeat(FirstTimers())
    ensures forall c, t: nat | c in TIMERS && t < FirstTimers()[c] :: !Fires(c, t)
  {
  }

  lemma ProducedOnBeat(b: EngineState, a: EngineState, c: EngineState, g: EngineState, now: int, admit: nat -> bool)
    requires Produced(b, a, c, g, now, admit)
    ensures OnBeat(g.timers)
  {
    hide GridDone, RotatedBelow, Grew, OnBeat;
  }

  lemma SubmitTimers(e: EngineState, row: Row, token: Option<Reservation>, admit: bool)
    ensures e.Submit(row, token, admit).timers == e.timers
  {
    hide LimitsState.Acquire, Books.Offer, Books.Dispatch, Books.Withhold, GiveBack, EngineState.Cancelled;
    hide LimitsState.Releasable;
  }
}
