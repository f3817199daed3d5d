/** Ticks: deadlines, new requests, and the tie between the grid and the ledger. */
module EngineTick {
  import opened Common
  import opened Channels
  import opened ArrivalGrid
  import opened ReservationPool
  import opened ConcurrencyLimits
  import opened AccountingLedger
  import opened EngineModel
  import opened EngineInvariant

  /** Child slots offered so far. */
  function Offers(e: EngineState): nat { e.books.Count(Offered, W) }

  // ----- deadlines -----

  lemma TimeoutBooks(b: Books, c: Cell)
    requires b.Balanced(None)
    ensures var d := b.Bump(Timeout, c, 1).Bump(Unknown, c, 1);
            d.Balanced(None) && d.active == b.active && d.start == b.start && d.Count(Offered, W) == b.Count(Offered, W)
  {
    hide Books.Bump, Books.Balanced, Books.Count;
    var a := b.Bump(Timeout, c, 1);
    BumpOther(b, Timeout, c, 1, None);
    BumpFrame(b, Timeout, c, 1);
    BumpCount(b, Timeout, c, 1, Offered, W);
    BumpOther(a, Unknown, c, 1, None);
    BumpFrame(a, Unknown, c, 1);
    BumpCount(a, Unknown, c, 1, Offered, W);
  }

  /**
   Giving a request up at its deadline keeps the invariant: the request stays in every table, its
   task is unknown, and later events for it are ignored.
   */
  lemma ExpiryKeeps(e: EngineState, rid: nat, now: int)
    requires Inv(e)
    ensures Inv(e.Expiry(rid, now)) && Offers(e.Expiry(rid, now)) == Offers(e)
    ensures !e.Overdue(rid, now) ==> e.Expiry(rid, now) == e
    ensures e.Overdue(rid, now) ==> Abandoned(e, e.Expiry(rid, now), rid)
  {
    hide Linked, Owned, Live, PoolOk, Valid, RotatingOk, LimitsState.Tight, Books.Balanced, FirstTimers;
    hide PoolState.Finish, Books.Bump, OnlyTask, Books.Count, EngineState.Expiry;
    LinkedKeys(e);
    NotOverdue(e, rid, now);
    if e.Overdue(rid, now) {
      OnWireHolds(e, rid);
      var (row, token) := e.requests[rid];
      var f := e.Expiry(rid, now);
      TimeoutBooks(e.books, row.Own());
      if token.Some? {
        FailPoolOk(e.pool, e.identities, token.value);
        ExpiryForm(e, rid, now);
        OwnedFailed(e, f, rid);
      } else {
        ExpiryForm(e, rid, now);
        OwnedSame(e, f);
      }
      LinkedSame(e, f);
      LiveExpired(e, f, rid);
    }
  }

  lemma NotOverdue(e: EngineState, rid: nat, now: int)
    requires rid in e.requests ==> rid in e.books.active
    ensures !e.Overdue(rid, now) ==> e.Expiry(rid, now) == e
  {
  }

  lemma ExpiryForm(e: EngineState, rid: nat, now: int)
    requires e.Overdue(rid, now)
    requires e.requests[rid].1.Some? ==> e.pool.Finish(e.requests[rid].1.value, false, None).Success?
    ensures var f, cell := e.Expiry(rid, now), e.requests[rid].0.Own();
            && f == e.(terminal := e.terminal + {rid}, books := e.books.Bump(Timeout, cell, 1).Bump(Unknown, cell, 1),
                       pool := f.pool, stopped := f.stopped)
            && f.stopped.Some?
            && f.pool == match e.requests[rid].1
                         case None => e.pool
                         case Some(t) => e.pool.Finish(t, false, None).value.0
  {
    hide PoolState.Finish, Books.Bump;
  }

  /** The request stays in every table, marked terminal; its task is unknown and the coordinator stops. */
  predicate Abandoned(e: EngineState, f: EngineState, rid: nat) {
    && rid in e.requests && f.requests == e.requests && f.books.active == e.books.active && f.limits == e.limits
    && f.terminal == e.terminal + {rid} && f.stopped.Some?
    && (e.requests[rid].1.Some? ==>
          var i := e.requests[rid].1.value.task;
          i < TASKS && GivenUp(e.pool.tasks[i], f.pool.tasks[i]))
  }

  lemma LiveExpired(e: EngineState, f: EngineState, rid: nat)
    requires Live(e) && Owned(e) && rid in e.requests && rid in e.books.active && e.books.active[rid].status.OnWire?
    requires f.requests == e.requests && f.books.active == e.books.active && f.terminal == e.terminal + {rid}
    requires if e.requests[rid].1.Some? then OnlyTask(e.pool, f.pool, e.requests[rid].1) else f.pool == e.pool
    ensures Live(f)
  {
  }

  lemma {:induction false} ExpiriesKeep(e: EngineState, now: int, bound: nat)
    requires Inv(e)
    ensures Inv(Expiries(e, now, bound)) && Offers(Expiries(e, now, bound)) == Offers(e)
  {
    hide EngineState.Expiry, Offers, Inv, Abandoned, EngineState.Overdue;
    if bound > 0 {
      var before := Expiries(e, now, bound - 1);
      ExpiriesKeep(e, now, bound - 1);
      ExpiryKeeps(before, bound - 1, now);
      InvLinked(before);
    }
  }

  // ----- growth -----

  /** What making new requests can change: nothing about the old ones, and idle tasks become reserved. */
  ghost predicate Grew(e: EngineState, f: EngineState) {
    && e.serial <= f.serial && f.terminal == e.terminal && f.stopped == e.stopped && f.identities == e.identities
    && f.grid == e.grid && f.variant == e.variant
    && (forall r | r in e.requests :: OldRequest(e, f, r))
    && (forall r | r in f.requests && r !in e.requests :: NewRequest(e, f, r))
    && (forall i: nat | i < TASKS :: SameTask(e.pool.tasks[i], f.pool.tasks[i]))
  }

  ghost predicate OldRequest(e: EngineState, f: EngineState, r: nat)
    requires r in e.requests
  {
    && r in f.requests && f.requests[r] == e.requests[r]
    && r in e.books.active && r in f.books.active && f.books.active[r] == e.books.active[r]
  }

  ghost predicate NewRequest(e: EngineState, f: EngineState, r: nat)
    requires r in f.requests
  {
    && e.serial <= r && r in f.books.active && f.books.active[r].status == Dispatched
    && ControlRow(f.requests[r].0)
    && (f.requests[r].1.Some? ==>
          var t := f.requests[r].1.value;
          && t.task < TASKS && !e.pool.tasks[t.task].busy && f.pool.Current(t)
          && t.stage == e.pool.tasks[t.task].stage && t.attempt == e.pool.tasks[t.task].attempt)
  }

  /** Control requests name the flow they change. */
  ghost predicate ControlRow(row: Row) {
    && (row.channel == Batch ==> row.path == Some("/flow008"))
    && (row.channel == Structure ==> row.path.Some? && row.path.value in {"/flow009", "/flow010", "/flow011"})
  }

  ghost predicate SameTask(a: SlotTask, b: SlotTask) {
    && b.path == a.path && b.stage == a.stage && b.attempt == a.attempt && b.unknown == a.unknown
    && (a.busy ==> b == a)
  }

  lemma GrewSame(e: EngineState, f: EngineState)
    requires Linked(e) && e.serial <= f.serial && f.terminal == e.terminal && f.stopped == e.stopped
    requires f.identities == e.identities && f.grid == e.grid && f.variant == e.variant
    requires f.requests == e.requests && f.books.active == e.books.active && f.pool.tasks == e.pool.tasks
    ensures Grew(e, f)
  {
  }

  lemma GrewPlain(e: EngineState, f: EngineState, row: Row)
    requires Linked(e) && e.serial <= f.serial && f.terminal == e.terminal && f.stopped == e.stopped
    requires f.identities == e.identities && f.grid == e.grid && f.variant == e.variant
    requires row.id == e.serial && f.requests == e.requests[row.id := (row, None)] && f.pool == e.pool
             && ControlRow(row)
    requires f.books.active == e.books.active[row.id := Entry(row, Dispatched)]
    ensures Grew(e, f)
  {
    LinkedKeys(e);
    FreshId(e);
  }

  lemma GrewPool(e: EngineState, f: EngineState, row: Row, i: nat)
    requires Linked(e) && e.serial <= f.serial && f.terminal == e.terminal && f.stopped == e.stopped
    requires f.identities == e.identities && f.grid == e.grid && f.variant == e.variant && i < TASKS
    requires var stage := e.pool.tasks[i].stage;
             && stage < STAGES && e.pool.Eligible(i, stage)
             && f.pool == e.pool.Taken(i, stage) && row.channel.Pooled()
             && row.id == e.serial && f.requests == e.requests[row.id := (row, Some(e.pool.Token(i, stage)))]
             && f.books.active == e.books.active[row.id := Entry(row, Dispatched)]
    ensures Grew(e, f)
  {
    LinkedKeys(e);
    FreshId(e);
  }

  lemma GrewTrans(e: EngineState, f: EngineState, g: EngineState)
    requires Grew(e, f) && Grew(f, g)
    ensures Grew(e, g)
  {
    forall r | r in e.requests ensures OldRequest(e, g, r) {
      assert OldRequest(e, f, r) && OldRequest(f, g, r);
    }
    forall i: nat | i < TASKS ensures SameTask(e.pool.tasks[i], g.pool.tasks[i]) {
      assert SameTask(e.pool.tasks[i], f.pool.tasks[i]) && SameTask(f.pool.tasks[i], g.pool.tasks[i]);
    }
    forall r | r in g.requests && r !in e.requests ensures NewRequest(e, g, r) {
      if r in f.requests {
        assert NewRequest(e, f, r) && OldRequest(f, g, r);
        if g.requests[r].1.Some? {
          var t := g.requests[r].1.value;
          assert SameTask(f.pool.tasks[t.task], g.pool.tasks[t.task]);
        }
      } else {
        assert NewRequest(f, g, r);
        if g.requests[r].1.Some? {
          var t := g.requests[r].1.value;
          assert SameTask(e.pool.tasks[t.task], f.pool.tasks[t.task]);
        }
      }
    }
  }

  // ----- what a refusal or a submission does to growth and to the offer count -----

  lemma OfferCount(b: Books, row: Row, why: Refusal)
    ensures b.Offer(row).Count(Offered, W) == b.Count(Offered, W) + (if row.channel.Role() == W then 1 else 0)
    ensures b.Withhold(row, why).Count(Offered, W) == b.Count(Offered, W)
    ensures BooksOpened(b, row).Count(Offered, W) == b.Offer(row).Count(Offered, W)
  {
    hide Books.Count, Books.Bump;
    BumpCount(b, Offered, row.Own(), 1, Offered, W);
    var a := b.(active := b.active - {row.id});
    CountFrame(b, a.active, W);
    BumpCount(a, NotSent, row.Own(), 1, Offered, W);
    BumpCount(a.Bump(NotSent, row.Own(), 1), Refused(why), row.Own(), 1, Offered, W);
    CountFrame(b.Offer(row), b.active[row.id := Entry(row, Dispatched)], W);
  }

  lemma TurnGrows(e: EngineState, row: Row, why: Refusal)
    requires Inv(e) && row.id == e.serial
    ensures Inv(e.Turn(row, why)) && Grew(e, e.Turn(row, why)) && e.Turn(row, why).cursor == e.cursor
    ensures Offers(e.Turn(row, why)) == Offers(e) + (if row.channel.Role() == W then 1 else 0)
  {
    hide Inv, Linked, Grew, Books.Offer, Books.Withhold, Books.Count, Books.Balanced, LimitsState.Tight;
    TurnKeeps(e, row, why);
    assert Linked(e) by { InvLinked(e); }
    FreshId(e);
    BooksFrame(e.books, row, why);
    BooksFrame(e.books.Offer(row), row, why);
    assert e.Turn(row, why).books.active == e.books.active;
    GrewSame(e, e.Turn(row, why));
    OfferCount(e.books, row, why);
    OfferCount(e.books.Offer(row), row, why);
  }

  lemma InvLinked(e: EngineState)
    requires Inv(e)
    ensures Linked(e) && e.serial >= 1 && e.limits.Tight() && e.books.Balanced(None) && e.fault.None?
  {
  }

  lemma SubmitPoolGrows(e: EngineState, i: nat, row: Row, admit: bool)
    requires Inv(e) && i < TASKS && row.id == e.serial
    requires var stage := e.pool.tasks[i].stage;
             && stage < STAGES && e.pool.Eligible(i, stage)
             && row.path == Some(e.pool.tasks[i].path) && row.channel == (if stage < 10 then Child else Rotation)
    requires row.channel == Rotation ==> i in e.limits.rotating
    ensures var stage := e.pool.tasks[i].stage;
            var f, token := e.(pool := e.pool.Taken(i, stage)), Some(e.pool.Token(i, stage));
            var g := f.Submit(row, token, admit);
            && g == (if admit then Opened(f, row, token) else Bounced(f, row, token))
            && Inv(g) && Grew(e, g) && g.cursor == e.cursor
            && Offers(g) == Offers(e) + (if row.channel == Child then 1 else 0)
  {
    hide Inv, Grew, EngineState.Submit, BooksOpened, Books.Withhold, Books.Count, GiveBack, LimitsState.Admitted;
    hide Linked, PoolState.Taken, PoolState.Token, Books.Balanced, LimitsState.Tight, PoolOk, PoolState.Sound;
    hide Books.Offer;
    var stage := e.pool.tasks[i].stage;
    var f, token := e.(pool := e.pool.Taken(i, stage)), Some(e.pool.Token(i, stage));
    var g := f.Submit(row, token, admit);
    SubmitPool(e, i, row, admit);
    InvLinked(e);
    OfferCount(e.books, row, DispatchBusy);
    if admit {
      assert g.books.active == e.books.active[row.id := Entry(row, Dispatched)] by { BooksOpenedActive(e.books, row); }
      GrewPool(e, g, row, i);
    } else {
      OfferCount(BooksOpened(e.books, row), row, DispatchBusy);
      BooksOpenedActive(e.books, row);
      BooksFrame(BooksOpened(e.books, row), row, DispatchBusy);
      FreshId(e);
      assert g.books.active == e.books.active;
      assert g.pool.tasks == e.pool.tasks by { SoundPool(e); TakenCancelled(e.pool, i, stage); }
      assert g.requests == e.requests;
      GrewSame(e, g);
    }
  }

  lemma SoundPool(e: EngineState)
    requires Inv(e)
    ensures PoolOk(e.pool, e.identities) && e.pool.Sound()
  {
  }

  lemma BooksOpenedActive(b: Books, row: Row)
    ensures BooksOpened(b, row).active == b.active[row.id := Entry(row, Dispatched)]
  {
  }

  lemma SubmitPlainGrows(e: EngineState, row: Row, admit: bool)
    requires Inv(e) && row.id == e.serial && !row.channel.Pooled() && ControlRow(row)
    requires row.channel == Detail ==> row.path.Some? && row.path.value in e.identities
    ensures var g := e.Submit(row, None, admit);
            Inv(g) && Grew(e, g) && g.cursor == e.cursor && Offers(g) == Offers(e)
  {
    hide Inv, Grew, EngineState.Submit, BooksOpened, Books.Withhold, Books.Count, GiveBack, LimitsState.Admitted;
    hide Linked;
    hide LimitsState.Reason, EngineState.Turn, Books.Balanced, LimitsState.Tight, Books.Offer;
    var g := e.Submit(row, None, admit);
    SubmitPlain(e, row, admit);
    InvLinked(e);
    SubmitForm(e, row, None, admit);
    OfferCount(e.books, row, DispatchBusy);
    var why := e.limits.Reason(row.channel, None);
    if why.Some? {
      TurnGrows(e, row, why.value);
      assert g == e.Turn(row, why.value) by { TurnPool(e, row, why.value); }
    } else if admit {
      BooksOpenedActive(e.books, row);
      GrewPlain(e, g, row);
    } else {
      OfferCount(BooksOpened(e.books, row), row, DispatchBusy);
      BooksOpenedActive(e.books, row);
      BooksFrame(BooksOpened(e.books, row), row, DispatchBusy);
      FreshId(e);
      assert g.books.active == e.books.active;
      assert g.requests == e.requests;
      GrewSame(e, g);
    }
  }

  lemma TurnPool(e: EngineState, row: Row, why: Refusal)
    ensures e.Turn(row, why).(pool := e.pool) == e.Turn(row, why)
  {
  }

  // ----- new requests, source by source -----

  /** The grid part: the offers of child slots follow the cursor. */
  lemma LiveSlotGrows(e: EngineState, index: nat, now: int, admit: nat -> bool)
    requires Inv(e)
    ensures var g := LiveSlot(e, index, now, admit);
            Inv(g) && Grew(e, g) && g.cursor == e.cursor && Offers(g) == Offers(e) + 1
  {
    hide Inv, Grew, Time, LimitsState.Reason, PoolState.Reserve, EngineState.Submit, EngineState.Turn, Offers;
    hide PoolState.Taken, PoolState.Token;
    hide FlowOf, CommandAt, Command.Name;
    var stage := index % 10;
    var reason := e.limits.Reason(Child, None);
    ReserveMeaning(e.pool, stage);
    var token := if reason.Some? then None else e.pool.Reserve(stage).1;
    var at, next := Time(e.grid, index), Time(e.grid, index + 1);
    if token.None? {
      var row := e.MakeRow(CommandAt(stage).Name(), Child, at, next, now, None, None).(stage := StageNo(stage));
      TurnGrows(e, row, if reason.Some? then reason.value else StageBusy);
    } else {
      var i := token.value.task;
      assert e.pool.tasks[i].stage == stage;
      var f := e.(pool := e.pool.Taken(i, stage));
      var row := f.PoolRow(token.value, at, next, now);
      assert row.path == Some(e.pool.tasks[i].path) && row.channel == Child by { TakenPath(e.pool, i, stage); }
      SubmitPoolGrows(e, i, row, admit(f.serial));
    }
  }

  lemma TakenPath(p: PoolState, i: nat, stage: nat)
    requires i < TASKS && stage < STAGES
    ensures p.Taken(i, stage).tasks[i].path == p.tasks[i].path && p.Token(i, stage).stage == stage
            && p.Token(i, stage).task == i
  {
  }

  lemma PolledKeeps(e: EngineState, now: int)
    requires Inv(e)
    ensures var (next, p) := Poll(e.grid, e.cursor, now);
            var f := e.(cursor := next, books := ExpireSlots(e.books, e.grid, p.expiredLo, p.expiredHi));
            && Inv(f) && Grew(e, f)
            && Offers(f) == Offers(e) + (p.expiredHi - p.expiredLo)
            && next - e.cursor == p.expiredHi - p.expiredLo + (if p.live.Some? then 1 else 0)
  {
    hide Linked, Owned, Live, PoolOk, Valid, RotatingOk, LimitsState.Tight, Books.Balanced, FirstTimers, Grew;
    hide Poll, ExpireSlots, Books.Count, Time;
    var (next, p) := Poll(e.grid, e.cursor, now);
    PollMeaning(e.grid, e.cursor, now);
    ExpireSlotsMeaning(e.books, e.grid, p.expiredLo, p.expiredHi);
    var f := e.(cursor := next, books := ExpireSlots(e.books, e.grid, p.expiredLo, p.expiredHi));
    LinkedSame(e, f);
    OwnedSame(e, f);
    LiveSame(e, f);
    GrewSame(e, f);
  }

  /** After every poll the ledger's role-W offers have moved exactly as far as the grid cursor. */
  lemma GridStepGrows(e: EngineState, now: int, admit: nat -> bool)
    requires Inv(e)
    ensures var g := GridStep(e, now, admit);
            Inv(g) && Grew(e, g) && Offers(g) - Offers(e) == g.cursor - e.cursor
  {
    hide Grew, Poll, ExpireSlots, LiveSlot, Offers, Linked, Owned, Live, PoolOk, Valid, RotatingOk, LimitsState.Tight;
    hide Books.Balanced, FirstTimers;
    var (next, p) := Poll(e.grid, e.cursor, now);
    var f := e.(cursor := next, books := ExpireSlots(e.books, e.grid, p.expiredLo, p.expiredHi));
    PolledKeeps(e, now);
    if p.live.Some? {
      LiveSlotGrows(f, p.live.value, now, admit);
      GrewTrans(e, f, LiveSlot(f, p.live.value, now, admit));
    }
  }

  lemma PipelineAdded(e: EngineState, i: nat)
    requires Inv(e) && i < TASKS && (i in e.limits.rotating || |e.limits.rotating| < PIPELINES)
    ensures var f := e.(limits := e.limits.(rotating := e.limits.rotating + {i}));
            Inv(f) && Grew(e, f)
  {
    hide Linked, Owned, Live, PoolOk, Valid, LimitsState.Tight, Books.Balanced, FirstTimers, Grew;
    var f := e.(limits := e.limits.(rotating := e.limits.rotating + {i}));
    RotatingFree(e.limits, f.limits.rotating);
    if i in e.limits.rotating {
      assert f.limits.rotating == e.limits.rotating;
    }
    LinkedSame(e, f);
    OwnedSame(e, f);
    LiveSame(e, f);
    GrewSame(e, f);
  }

  /** The task is due for a rotation and has, or may get, a pipeline. */
  predicate Rotatable(e: EngineState, i: nat)
    requires i < TASKS
  {
    var task := e.pool.tasks[i];
    && (task.stage == 10 || task.stage == 11) && !task.busy && !task.unknown
    && (i in e.limits.rotating || |e.limits.rotating| < PIPELINES)
  }

  /** The state in which the rotation of task i is submitted: in its pipeline, reserved for its own stage. */
  function Aimed(e: EngineState, i: nat): EngineState
    requires i < TASKS && e.pool.tasks[i].stage < STAGES
  {
    e.(limits := e.limits.(rotating := e.limits.rotating + {i}), pool := e.pool.Taken(i, e.pool.tasks[i].stage))
  }

  /** A rotation finds its own task, and no cap refuses it: it is opened, or turned down by the dispatcher. */
  lemma RotateGrows(e: EngineState, i: nat, now: int, admit: nat -> bool)
    requires Inv(e) && i < TASKS
    ensures var g := Rotate(e, i, now, admit);
            Inv(g) && Grew(e, g) && g.cursor == e.cursor && Offers(g) == Offers(e)
    ensures !Rotatable(e, i) ==> Rotate(e, i, now, admit) == e
    ensures Rotatable(e, i) ==>
              var token := e.pool.Token(i, e.pool.tasks[i].stage);
              var row := Aimed(e, i).PoolRow(token, now, Min(e.grid.end, now + RPC_LIMIT), now);
              Rotate(e, i, now, admit) ==
                if admit(e.serial) then Opened(Aimed(e, i), row, Some(token))
                else Bounced(Aimed(e, i), row, Some(token))
  {
    hide Inv, Grew, EngineState.Submit, PoolState.Taken, PoolState.Token, PoolState.Reserve, FlowOf, Books.Count;
    hide Opened, Bounced;
    var task := e.pool.tasks[i];
    if Rotatable(e, i) {
      var f := e.(limits := e.limits.(rotating := e.limits.rotating + {i}));
      PipelineAdded(e, i);
      ReserveAimed(e.pool, i);
      var token := e.pool.Token(i, task.stage);
      var h := Aimed(e, i);
      TakenPath(e.pool, i, task.stage);
      var row := h.PoolRow(token, now, Min(e.grid.end, now + RPC_LIMIT), now);
      SubmitPoolGrows(f, i, row, admit(h.serial));
      GrewTrans(e, f, Rotate(e, i, now, admit));
    } else {
      assert Linked(e) by { InvLinked(e); }
      GrewSame(e, e);
    }
  }

  lemma {:induction false} RotationsGrow(e: EngineState, now: int, admit: nat -> bool, bound: nat)
    requires Inv(e) && bound <= TASKS
    ensures var g := Rotations(e, now, admit, bound);
            Inv(g) && Grew(e, g) && g.cursor == e.cursor && Offers(g) == Offers(e)
  {
    hide Inv, Grew, Rotate, Offers;
    if bound == 0 {
      assert Linked(e) by { InvLinked(e); }
      GrewSame(e, e);
    } else {
      var before := Rotations(e, now, admit, bound - 1);
      RotationsGrow(e, now, admit, bound - 1);
      InvLinked(before);
      RotateGrows(before, bound - 1, now, admit);
      GrewTrans(e, before, Rotate(before, bound - 1, now, admit));
    }
  }

  lemma TimerSet(e: EngineState, c: Channel, n: nat)
    requires Inv(e) && c in e.timers
    ensures var f := e.(timers := e.timers[c := n]);
            Inv(f) && Grew(e, f)
  {
    hide Linked, Owned, Live, PoolOk, Valid, LimitsState.Tight, Books.Balanced, FirstTimers, Grew, RotatingOk;
    var f := e.(timers := e.timers[c := n]);
    assert f.timers.Keys == e.timers.Keys;
    LinkedSame(e, f);
    OwnedSame(e, f);
    LiveSame(e, f);
    GrewSame(e, f);
  }

  lemma TimerSlotGrows(e: EngineState, c: Channel, target: nat, now: int, admit: nat -> bool)
    requires Inv(e) && c in e.timers && c in TIMERS
    ensures var g := TimerSlot(e, c, target, now, admit);
            Inv(g) && Grew(e, g) && g.cursor == e.cursor && Offers(g) == Offers(e)
  {
    hide Inv, Grew, EngineState.Submit, EngineState.Turn, FlowOf, Offers, ControlName;
    var scheduled := e.grid.start + target * NS;
    var expires := Min(e.grid.end, scheduled + Interval(c) * NS);
    var f := e.(timers := e.timers[c := target + Interval(c)]);
    TimerSet(e, c, target + Interval(c));
    var row := f.MakeRow(ControlName(e.variant, c), c, scheduled, expires, now, None, ControlPath(e, c, target));
    assert Offers(f) == Offers(e) by { SameOffers(e, f); }
    if now >= expires {
      TurnGrows(f, row, Expired);
      GrewTrans(e, f, f.Turn(row, Expired));
    } else {
      if c == Detail { assert row.path.value in f.identities by { SoundPool(f); } }
      SubmitPlainGrows(f, row, admit(f.serial));
      GrewTrans(e, f, f.Submit(row, None, admit(f.serial)));
    }
  }

  lemma SameOffers(e: EngineState, f: EngineState)
    requires f.books == e.books
    ensures Offers(f) == Offers(e)
  {
  }

  lemma TimersKept(e: EngineState)
    requires Inv(e)
    ensures forall c | c in TIMERS :: c in e.timers
  {
  }

  lemma {:induction false} TimerSlotsGrow(e: EngineState, c: Channel, target: nat, now: int, admit: nat -> bool)
    requires Inv(e) && c in TIMERS
    ensures var g := TimerSlots(e, c, target, now, admit);
            Inv(g) && Grew(e, g) && g.cursor == e.cursor && Offers(g) == Offers(e)
    decreases e.variant.Seconds() - target
  {
    hide Inv, Grew, TimerSlot, Offers;
    if e.fault.Some? || now < e.grid.start + target * NS || target >= e.variant.Seconds() {
      assert Linked(e) by { InvLinked(e); }
      GrewSame(e, e);
    } else {
      var f := TimerSlot(e, c, target, now, admit);
      TimersKept(e);
      TimerSlotGrows(e, c, target, now, admit);
      TimerSlotsGrow(f, c, target + Interval(c), now, admit);
      GrewTrans(e, f, TimerSlots(f, c, target + Interval(c), now, admit));
    }
  }

  lemma {:induction false} TimersGrow(e: EngineState, now: int, admit: nat -> bool, bound: nat)
    requires Inv(e) && bound <= |TIMERS|
    ensures var g := Timers(e, now, admit, bound);
            Inv(g) && Grew(e, g) && g.cursor == e.cursor && Offers(g) == Offers(e)
  {
    hide Inv, Grew, Timer, Offers;
    if bound == 0 {
      assert Linked(e) by { InvLinked(e); }
      GrewSame(e, e);
    } else {
      var before := Timers(e, now, admit, bound - 1);
      TimersGrow(e, now, admit, bound - 1);
      assert before.fault.None? by { InvLinked(before); }
      TimerGrows(before, TIMERS[bound-1], now, admit);
      GrewTrans(e, before, Timer(before, TIMERS[bound-1], now, admit));
    }
  }

  lemma TimerGrows(e: EngineState, c: Channel, now: int, admit: nat -> bool)
    requires Inv(e) && c in TIMERS
    ensures var g := Timer(e, c, now, admit);
            Inv(g) && Grew(e, g) && g.cursor == e.cursor && Offers(g) == Offers(e)
  {
    hide Inv, Grew, TimerSlots, Offers, Timed;
    TimersKept(e);
    assert Linked(e) by { InvLinked(e); }
    GrewSame(e, e);
    if Timed(e.variant, c) { TimerSlotsGrow(e, c, e.timers[c], now, admit); }
  }

  /** Making new requests never raises, touches no open request, and keeps offers and cursor in step. */
  lemma ProduceGrows(e: EngineState, now: int, admit: nat -> bool)
    requires Inv(e)
    ensures var g := Produce(e, now, admit);
            Inv(g) && Grew(e, g) && Offers(g) - Offers(e) == g.cursor - e.cursor
  {
    hide Inv, Grew, GridStep, Rotations, Timers, Offers;
    var a := GridStep(e, now, admit);
    GridStepGrows(e, now, admit);
    InvLinked(a);
    if now < a.grid.end {
      var b := Rotations(a, now, admit, TASKS);
      RotationsGrow(a, now, admit, TASKS);
      InvLinked(b);
      TimersGrow(b, now, admit, |TIMERS|);
      GrewTrans(e, a, b);
      GrewTrans(e, b, Timers(b, now, admit, |TIMERS|));
    }
  }

  /** A full verification adds its own request, or nothing. */
  lemma VerificationGrows(e: EngineState, now: int, deadline: int, admit: bool)
    requires Inv(e) && !(e.grid.start <= now < e.grid.end)
    ensures var g := SubmitVerification(e, now, deadline, admit);
            var row := e.MakeRow("full_verify", Verify, now, Min(deadline, now + 60 * NS), now, None, None);
            && Inv(g) && Grew(e, g) && g.cursor == e.cursor && Offers(g) == Offers(e)
            && (g.requests == e.requests || g.requests == e.requests[e.serial := (row, None)])
            && e.serial !in e.requests
            && forall r | r in g.requests && r !in e.requests :: r == e.serial && g.requests[r].0.channel == Verify
  {
    hide Inv, Grew, EngineState.Submit, Offers;
    var row := e.MakeRow("full_verify", Verify, now, Min(deadline, now + 60 * NS), now, None, None);
    SubmitPlainGrows(e, row, admit);
    SubmitPlain(e, row, admit);
    InvLinked(e);
    FreshId(e);
  }

  // ----- whole ticks -----

  /** Each event fits the state in which it is accepted. */
  ghost predicate AllFit(e: EngineState, events: seq<Event>) {
    forall k | 0 <= k < |events| :: Fits(AcceptAll(e, events[..k]), events[k])
  }

  lemma {:induction false} AcceptAllKeeps(e: EngineState, events: seq<Event>)
    requires Inv(e) && AllFit(e, events)
    ensures Inv(AcceptAll(e, events)) && AcceptAll(e, events).cursor == e.cursor
    ensures Offers(AcceptAll(e, events)) == Offers(e) && AcceptAll(e, events).grid == e.grid
    ensures AcceptAll(e, events).timers == e.timers
  {
    hide Inv, Fits, EngineState.Accept, Offers;
    if events != [] {
      var n := |events| - 1;
      forall k | 0 <= k < n ensures Fits(AcceptAll(e, events[..n][..k]), events[..n][k]) {
        assert events[..n][..k] == events[..k];
        assert Fits(AcceptAll(e, events[..k]), events[k]);
      }
      AcceptAllKeeps(e, events[..n]);
      var before := AcceptAll(e, events[..n]);
      InvLinked(before);
      assert Fits(before, events[n]);
      AcceptKeeps(before, events[n]);
      AcceptOffers(before, events[n]);
    }
  }

  /** The ledger operations other than an offer do not count one. */
  lemma NoOffer(b: Books)
    ensures forall m: Metric, c: Cell | m != Offered :: b.Bump(m, c, 1).Count(Offered, W) == b.Count(Offered, W)
    ensures forall active: map<nat, Entry> :: b.(active := active).Count(Offered, W) == b.Count(Offered, W)
  {
  }

  lemma CompleteOffers(b: Books, rid: nat, at: int, outcome: Outcome, effective: bool)
    ensures var r := b.Complete(rid, at, outcome, effective);
            r.Success? ==> r.value.Count(Offered, W) == b.Count(Offered, W)
  {
    hide Books.Bump, Books.Count;
    if b.Complete(rid, at, outcome, effective).Success? {
      var cell := b.active[rid].row.CellAt(b.Second(at));
      var a := b.(active := b.active - {rid});
      NoOffer(b);
      NoOffer(a);
      NoOffer(a.Bump(Completed, cell, 1));
      NoOffer(a.Bump(Completed, cell, 1).Bump(MetricOf(outcome), cell, 1));
    }
  }

  lemma CompletionOffers(e: EngineState, row: Row, token: Option<Reservation>, ev: Event)
    requires ev.CompletedEvent?
    ensures var f := e.Completion(row, token, ev);
            f.cursor == e.cursor && Offers(f) == Offers(e) && f.grid == e.grid && f.timers == e.timers
  {
    hide Books.Bump, Books.Count, EngineState.Close, EngineState.Stop, EngineState.Resolve, EngineState.Judge;
    hide Books.Complete;
    var (outcome, effective) := e.Judge(row, token, ev);
    CompleteOffers(e.books, ev.id, ev.at, outcome, effective);
    NoOffer(e.books);
    if e.books.Complete(ev.id, ev.at, outcome, effective).Success? {
      var a := e.(books := e.books.Complete(ev.id, ev.at, outcome, effective).value);
      var b := if token.Some? then a.Resolve(row, token.value, ev, outcome) else a;
      if token.Some? { ResolveFrame(a, row, token.value, ev, outcome); }
      NoOffer(a.books);
      NoOffer(b.books);
      CloseFrame(b, ev.id, outcome != Succeeded);
      CloseFrame(b.(books := b.books.Bump(Unknown, row.Own(), 1)), ev.id, outcome != Succeeded);
    }
  }

  lemma CloseFrame(e: EngineState, rid: nat, stops: bool)
    ensures var f := (if stops then e.Stop("request") else e).Close(rid);
            && f.requests == e.requests - {rid} && f.books == e.books && f.pool == e.pool && f.cursor == e.cursor
            && f.terminal == e.terminal && f.serial == e.serial && f.grid == e.grid && f.timers == e.timers
            && (e.stopped.Some? || stops ==> f.stopped.Some?)
  {
    hide GiveBack;
  }

  lemma ResolveFrame(e: EngineState, row: Row, token: Reservation, ev: Event, outcome: Outcome)
    requires ev.CompletedEvent?
    ensures var f := e.Resolve(row, token, ev, outcome);
            && f.cursor == e.cursor && f.grid == e.grid && f.timers == e.timers
            && (f.books == e.books || f.books == e.books.Bump(Unknown, row.Own(), 1))
  {
    hide Books.Bump, PoolState.Finish;
  }

  /** Accepting an event offers nothing. */
  lemma AcceptOffers(e: EngineState, ev: Event)
    ensures e.Accept(ev).cursor == e.cursor && Offers(e.Accept(ev)) == Offers(e) && e.Accept(ev).grid == e.grid
    ensures e.Accept(ev).timers == e.timers
  {
    hide Books.Bump, Books.Count, GiveBack, PoolState.Finish, EngineState.Completion, PoolState.CancelUnsent;
    hide Books.Second;
    if ev.id in e.requests && ev.id !in e.terminal {
      var (row, token) := e.requests[ev.id];
      NoOffer(e.books);
      match ev
      case Info(_, _) => NoOffer(e.books.Bump(RpcCompleted, row.Own(), 1));
      case SentEvent(_, at) =>
        if e.books.Send(ev.id, at).Success? {
          var cell := e.books.active[ev.id].row.CellAt(e.books.Second(at));
          var a := e.books.(active := e.books.active[ev.id := Entry(e.books.active[ev.id].row, OnWire(at))]);
          NoOffer(a);
          NoOffer(a.Bump(Sent, cell, 1));
        }
      case NotSentEvent(_, why) => OfferCount(e.books, row, why);
      case CompletedEvent(_, _, _, _, _) => CompletionOffers(e, row, token, ev);
      case TransportFailure(_) =>
    }
  }

  /**
   A whole tick on events that fit: no exception, the invariant holds again, and the ledger's role-W
   offers equal the grid cursor if they did before.
   */
  lemma TickKeeps(e: EngineState, now: int, events: seq<Event>, admit: nat -> bool)
    requires Inv(e) && AllFit(e, events)
    ensures var g := Tick(e, now, events, true, admit);
            Inv(g) && g.fault.None? && (Offers(e) == e.cursor ==> Offers(g) == g.cursor)
  {
    hide AllFit, AcceptAll, Expiries, Produce, Offers, Linked, Owned, Live, PoolOk, Valid, RotatingOk;
    hide LimitsState.Tight;
    hide Books.Balanced, FirstTimers;
    var a := AcceptAll(e, events);
    AcceptAllKeeps(e, events);
    var b := Expiries(a, now, a.serial);
    ExpiriesKeep(a, now, a.serial);
    ExpiriesCursor(a, now, a.serial);
    ProduceGrows(b, now, admit);
  }

  lemma {:induction false} ExpiriesCursor(e: EngineState, now: int, bound: nat)
    ensures Expiries(e, now, bound).cursor == e.cursor && Expiries(e, now, bound).grid == e.grid
    ensures Expiries(e, now, bound).timers == e.timers
  {
    hide EngineState.Expiry;
    if bound > 0 {
      ExpiriesCursor(e, now, bound - 1);
      ExpiryCursor(Expiries(e, now, bound - 1), bound - 1, now);
    }
  }

  lemma ExpiryCursor(e: EngineState, rid: nat, now: int)
    ensures e.Expiry(rid, now).cursor == e.cursor && e.Expiry(rid, now).grid == e.grid
    ensures e.Expiry(rid, now).timers == e.timers
  {
    hide PoolState.Finish, Books.Bump;
  }

  /** A fresh coordinator satisfies the invariant and has offered nothing. */
  lemma StartInv(variant: Variant, grid: Timetable, paths: seq<string>, attempts: seq<Attempt>,
                 identities: map<string, Identity>)
    requires Valid(grid) && |attempts| == |paths| == TASKS && Distinct(paths)
    requires forall i | 0 <= i < TASKS :: paths[i] in identities && identities[paths[i]].attempt == attempts[i]
    ensures var e := Start(variant, grid, Fresh(paths, attempts).value, identities);
            Inv(e) && Offers(e) == e.cursor == 0
  {
    hide Books.Balanced, LimitsState.Tight, Valid, PoolState.Sound;
    NewBalanced(grid.start);
    EmptyTight();
  }
}
