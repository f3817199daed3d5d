/** What every coordinator step keeps, and why no step raises. */
module EngineInvariant {
  import opened Common
  import opened Channels
  import opened ArrivalGrid
  import opened ReservationPool
  import opened ConcurrencyLimits
  import opened AccountingLedger
  import opened EngineModel

  // ----- the invariant -----

  /** One request, as the table, the limiter and the ledger see it. */
  ghost predicate LinkedAt(q: Request, h: Holder, entry: Entry, r: nat, serial: nat) {
    && q.0.id == r && 1 <= r < serial
    && h == (q.0.channel, if q.1.Some? then q.0.path else None)
    && entry.row == q.0
    && (q.1.Some? <==> q.0.channel.Pooled())
  }

  /** The key sets of `requests`, `Limits.active` and `Ledger.active` coincide. */
  ghost predicate Linked(e: EngineState) {
    && e.limits.active.Keys == e.requests.Keys
    && e.books.active.Keys == e.requests.Keys
    && (forall r | r in e.requests :: LinkedAt(e.requests[r], e.limits.active[r], e.books.active[r], r, e.serial))
  }

  /** A pool request's task is busy on its behalf: it holds this reservation, or is unknown. */
  ghost predicate OwnedAt(row: Row, t: Reservation, pool: PoolState, rotating: set<nat>) {
    && t.task < TASKS
    && row.path == Some(pool.tasks[t.task].path)
    && (row.channel == Child <==> t.stage < 10)
    && pool.tasks[t.task].busy
    && (pool.Current(t) || pool.tasks[t.task].unknown)
    && (row.channel == Rotation ==> t.task in rotating)
  }

  ghost predicate Owned(e: EngineState) {
    && (forall r | r in e.requests && e.requests[r].1.Some? ::
          OwnedAt(e.requests[r].0, e.requests[r].1.value, e.pool, e.limits.rotating))
    && (forall q, r | q in e.requests && r in e.requests && q != r && e.requests[q].1.Some? && e.requests[r].1.Some? ::
          e.requests[q].1.value.task != e.requests[r].1.value.task)
  }

  /** A request on the wire that has not been given up still owns its task. */
  ghost predicate Live(e: EngineState) {
    && e.terminal <= e.requests.Keys
    && (forall r | r in e.terminal && r in e.books.active :: e.books.active[r].status.OnWire?)
    && (forall r | r in e.requests && e.requests[r].1.Some? && r !in e.terminal
                   && r in e.books.active && e.books.active[r].status.OnWire? ::
          e.pool.Current(e.requests[r].1.value))
  }

  /** Pool tasks are sound, have distinct paths, and the stored credentials carry the current attempt. */
  ghost predicate PoolOk(pool: PoolState, identities: map<string, Identity>) {
    && pool.Sound()
    && (forall i, j | 0 <= i < j < TASKS :: pool.tasks[i].path != pool.tasks[j].path)
    && (forall i | 0 <= i < TASKS :: pool.tasks[i].path in identities
                                     && identities[pool.tasks[i].path].attempt == pool.tasks[i].attempt)
  }

  ghost predicate RotatingOk(rotating: set<nat>) {
    |rotating| <= PIPELINES && forall i | i in rotating :: i < TASKS
  }

  /** Nothing is unknown before the coordinator has stopped. */
  ghost predicate Calm(e: EngineState) {
    e.stopped.None? ==> e.terminal == {} && forall i | 0 <= i < TASKS :: !e.pool.tasks[i].unknown
  }

  ghost predicate Inv(e: EngineState) {
    && e.fault.None?
    && Linked(e) && Owned(e) && Live(e) && Calm(e)
    && PoolOk(e.pool, e.identities)
    && e.limits.Tight() && RotatingOk(e.limits.rotating)
    && e.books.Balanced(None) && e.books.start == e.grid.start
    && Valid(e.grid) && e.cursor <= e.grid.total
    && e.timers.Keys == FirstTimers().Keys && e.serial >= 1
  }

  // ----- the room lemmas -----

  ghost function PoolRequests(e: EngineState): set<nat> {
    On(e.limits.active, Child) + On(e.limits.active, Rotation)
  }

  ghost function TaskOf(e: EngineState): map<nat, nat> {
    map r | r in e.requests && e.requests[r].1.Some? :: e.requests[r].1.value.task
  }

  lemma PoolRequestsHaveTasks(e: EngineState, r: nat)
    requires Linked(e) && Owned(e) && r in PoolRequests(e)
    ensures r in TaskOf(e) && TaskOf(e)[r] < TASKS && e.pool.tasks[TaskOf(e)[r]].busy
  {
  }

  /** While task i is idle, at most 249 pool requests are open. */
  lemma PoolRoom(e: EngineState, i: nat)
    requires Linked(e) && Owned(e) && e.limits.Counted() && i < TASKS && !e.pool.tasks[i].busy
    ensures e.limits.pool < POOL_CAP
  {
    hide Linked, Owned, PoolRequests;
    var keys := PoolRequests(e);
    forall r | r in keys ensures r in TaskOf(e) && TaskOf(e)[r] in Below(TASKS) - {i} {
      PoolRequestsHaveTasks(e, r);
    }
    forall q, r | q in keys && r in keys && q != r ensures TaskOf(e)[q] != TaskOf(e)[r] {
      PoolRequestsHaveTasks(e, q);
      PoolRequestsHaveTasks(e, r);
      OwnedDistinct(e, q);
    }
    InjectionSize(TaskOf(e), keys, Below(TASKS) - {i});
    BelowSize(TASKS);
    Minus(Below(TASKS), {i});
    PoolRequestsCount(e);
  }

  lemma PoolRequestsCount(e: EngineState)
    requires e.limits.Counted()
    ensures |PoolRequests(e)| == e.limits.pool
  {
  }

  /** While an idle task is in a rotation pipeline, a rotation slot is free for it. */
  lemma RotationRoom(e: EngineState, i: nat)
    requires Linked(e) && Owned(e) && e.limits.Counted() && RotatingOk(e.limits.rotating)
    requires i < TASKS && !e.pool.tasks[i].busy && i in e.limits.rotating
    ensures e.limits.counts[Rotation] < Rotation.Cap()
  {
    hide Linked, Owned, PoolRequests;
    var keys := On(e.limits.active, Rotation);
    var pipelines := e.limits.rotating;
    forall r | r in keys ensures r in TaskOf(e) && TaskOf(e)[r] in pipelines - {i} {
      RotationInPipeline(e, r);
    }
    forall q, r | q in keys && r in keys && q != r ensures TaskOf(e)[q] != TaskOf(e)[r] {
      OwnedDistinct(e, q);
    }
    InjectionSize(TaskOf(e), keys, pipelines - {i});
    Minus(pipelines, {i});
  }

  lemma RotationInPipeline(e: EngineState, r: nat)
    requires Linked(e) && Owned(e) && r in On(e.limits.active, Rotation)
    ensures r in TaskOf(e) && TaskOf(e)[r] < TASKS && e.pool.tasks[TaskOf(e)[r]].busy
            && TaskOf(e)[r] in e.limits.rotating
  {
    PoolRequestsHaveTasks(e, r);
    assert LinkedAt(e.requests[r], e.limits.active[r], e.books.active[r], r, e.serial);
    assert OwnedAt(e.requests[r].0, e.requests[r].1.value, e.pool, e.limits.rotating);
  }

  /** No open request works on an idle task. */
  lemma PathFree(e: EngineState, i: nat)
    requires Linked(e) && Owned(e) && PoolOk(e.pool, e.identities) && e.limits.PathsOwned()
    requires i < TASKS && !e.pool.tasks[i].busy
    ensures e.pool.tasks[i].path !in e.limits.paths
  {
    forall r | r in e.limits.active && e.limits.active[r].1.Some?
      ensures e.limits.active[r].1.value != e.pool.tasks[i].path
    {
      assert LinkedAt(e.requests[r], e.limits.active[r], e.books.active[r], r, e.serial);
      assert OwnedAt(e.requests[r].0, e.requests[r].1.value, e.pool, e.limits.rotating);
    }
  }

  /**
   The limiter never refuses a reserved pool task: when a task is idle, the request that will
   reserve it finds the global, role, pool and task limits all open.
   */
  lemma NeverRefused(e: EngineState, i: nat, channel: Channel)
    requires Linked(e) && Owned(e) && PoolOk(e.pool, e.identities) && e.limits.Tight() && RotatingOk(e.limits.rotating)
    requires i < TASKS && !e.pool.tasks[i].busy && channel.Pooled()
    requires channel == Rotation ==> i in e.limits.rotating
    ensures e.limits.Reason(channel, Some(e.pool.tasks[i].path)).None?
  {
    hide Linked, Owned, PoolOk, RotatingOk, LimitsState.PathsOwned;
    PoolRoom(e, i);
    if channel == Rotation { RotationRoom(e, i); }
    PathFree(e, i);
    ActiveIsSum(e.limits);
    hide LimitsState.Counted;
    assert forall c: Channel | !c.Pooled() :: e.limits.counts[c] <= c.Cap() == 1;
  }

  // ----- how the three tables move together -----

  lemma LinkedSame(e: EngineState, f: EngineState)
    requires Linked(e) && e.serial <= f.serial && f.requests == e.requests
    requires f.limits.active == e.limits.active && f.books.active.Keys == e.books.active.Keys
    requires forall r | r in e.books.active :: f.books.active[r].row == e.books.active[r].row
    ensures Linked(f)
  {
  }

  lemma LinkedOpen(e: EngineState, f: EngineState, row: Row, token: Option<Reservation>)
    requires Linked(e) && row.id == e.serial >= 1 && f.serial == e.serial + 1
    requires token.Some? <==> row.channel.Pooled()
    requires f.requests == e.requests[row.id := (row, token)]
    requires f.limits.active == e.limits.active[row.id := (row.channel, if token.Some? then row.path else None)]
    requires f.books.active == e.books.active[row.id := Entry(row, Dispatched)]
    ensures Linked(f)
  {
    forall r | r in f.requests ensures LinkedAt(f.requests[r], f.limits.active[r], f.books.active[r], r, f.serial) {
      if r != row.id {
        assert LinkedAt(e.requests[r], e.limits.active[r], e.books.active[r], r, e.serial);
      }
    }
  }

  lemma LinkedClosed(e: EngineState, f: EngineState, rid: nat)
    requires Linked(e) && f.serial == e.serial
    requires f.requests == e.requests - {rid} && f.limits.active == e.limits.active - {rid}
    requires f.books.active == e.books.active - {rid}
    ensures Linked(f)
  {
  }

  lemma LinkedKeys(e: EngineState)
    requires Linked(e)
    ensures e.books.active.Keys == e.limits.active.Keys == e.requests.Keys
    ensures forall r | r in e.requests :: e.requests[r].0.id == r && e.books.active[r].row == e.requests[r].0
  {
  }

  /** An identity that has not been handed out yet is in none of the tables. */
  lemma FreshId(e: EngineState)
    requires Linked(e)
    ensures e.serial !in e.requests && e.serial !in e.limits.active && e.serial !in e.books.active
  {
  }

  lemma OwnedSame(e: EngineState, f: EngineState)
    requires Owned(e) && f.requests == e.requests && f.pool.tasks == e.pool.tasks
    requires e.limits.rotating <= f.limits.rotating
    ensures Owned(f)
  {
  }

  lemma OwnedOpen(e: EngineState, f: EngineState, row: Row, i: nat, stage: nat)
    requires Owned(e) && i < TASKS && stage < STAGES && e.pool.Eligible(i, stage)
    requires f.pool == e.pool.Taken(i, stage) && f.limits.rotating == e.limits.rotating
    requires row.path == Some(e.pool.tasks[i].path) && row.channel == (if stage < 10 then Child else Rotation)
    requires row.channel == Rotation ==> i in e.limits.rotating
    requires row.id !in e.requests && f.requests == e.requests[row.id := (row, Some(e.pool.Token(i, stage)))]
    ensures Owned(f)
  {
  }

  /** A request without a token owns nothing. */
  lemma OwnedOpenPlain(e: EngineState, f: EngineState, row: Row)
    requires Owned(e) && f.pool == e.pool && f.limits.rotating == e.limits.rotating
    requires row.id !in e.requests && f.requests == e.requests[row.id := (row, None)]
    ensures Owned(f)
  {
  }

  /** Closing a request frees its task; the tasks of the others are apart from it. */
  lemma OwnedClosed(e: EngineState, f: EngineState, rid: nat)
    requires Owned(e) && rid in e.requests && f.requests == e.requests - {rid}
    requires forall i: nat | i < TASKS && (e.requests[rid].1.Some? ==> i != e.requests[rid].1.value.task) ::
               f.pool.tasks[i] == e.pool.tasks[i] && (i in e.limits.rotating ==> i in f.limits.rotating)
    ensures Owned(f)
  {
  }

  /** Liveness of the requests that stay, when their tasks and entries are untouched. */
  lemma LiveKept(e: EngineState, f: EngineState, changed: Option<nat>)
    requires Owned(e) && Live(e) && f.terminal == e.terminal && f.terminal <= f.requests.Keys
    requires forall r | r in f.requests && changed != Some(r) ::
               r in e.requests && f.requests[r] == e.requests[r] && r in e.books.active && r in f.books.active
               && f.books.active[r].status == e.books.active[r].status
    requires forall r | r in f.requests && changed != Some(r) && f.requests[r].1.Some? ::
               f.requests[r].1.value.task < TASKS
               && f.pool.tasks[f.requests[r].1.value.task] == e.pool.tasks[f.requests[r].1.value.task]
    requires changed.Some? ==> changed.value !in f.terminal
    requires changed.Some? && changed.value in f.requests && f.requests[changed.value].1.Some?
             && changed.value in f.books.active && f.books.active[changed.value].status.OnWire? ==>
               f.pool.Current(f.requests[changed.value].1.value)
    ensures Live(f)
  {
  }

  lemma TakenPoolOk(p: PoolState, identities: map<string, Identity>, i: nat, stage: nat)
    requires PoolOk(p, identities) && i < TASKS && stage < STAGES && p.Eligible(i, stage)
    ensures PoolOk(p.Taken(i, stage), identities)
  {
    hide PoolState.Sound;
    TakenSound(p, i, stage);
  }

  /** Reserving and cancelling leaves every task as it was. */
  lemma TakenCancelled(p: PoolState, i: nat, stage: nat)
    requires p.Sound() && i < TASKS && stage < STAGES && p.Eligible(i, stage)
    ensures var (q, ok) := p.Taken(i, stage).CancelUnsent(p.Token(i, stage));
            ok && q.tasks == p.tasks && q.Sound()
  {
    TakenSound(p, i, stage);
    CancelSound(p.Taken(i, stage), p.Token(i, stage));
    assert p.TaskSound(i);
  }

  // ----- new requests -----

  lemma BooksFrame(b: Books, row: Row, why: Refusal)
    ensures b.Offer(row).active == b.active && b.Offer(row).start == b.start
    ensures b.Withhold(row, why).active == b.active - {row.id} && b.Withhold(row, why).start == b.start
  {
  }

  lemma LimitsFrame(l: LimitsState, rid: nat, channel: Channel, path: Option<string>)
    ensures l.Admitted(rid, channel, path).active == l.active[rid := (channel, path)]
    ensures l.Admitted(rid, channel, path).rotating == l.rotating
    ensures GiveBack(l, rid).rotating == l.rotating
  {
  }

  lemma GiveBackTight(l: LimitsState, rid: nat)
    requires l.Tight() && rid in l.active
    ensures l.Releasable(rid) && GiveBack(l, rid) == l.Released(rid) && GiveBack(l, rid).Tight()
    ensures GiveBack(l, rid).active == l.active - {rid} && GiveBack(l, rid).rotating == l.rotating
  {
    hide LimitsState.Tight;
    ReleasedTight(l, rid);
  }

  lemma LiveSame(e: EngineState, f: EngineState)
    requires Live(e) && f.requests == e.requests && f.terminal == e.terminal
    requires f.pool.tasks == e.pool.tasks && f.books.active == e.books.active
    ensures Live(f)
  {
  }

  lemma TurnKeeps(e: EngineState, row: Row, why: Refusal)
    requires Inv(e) && row.id == e.serial
    ensures Inv(e.Turn(row, why))
  {
    hide Linked, Owned, Live, PoolOk, Valid, RotatingOk, LimitsState.Tight, Books.Balanced;
    hide Books.Offer, Books.Withhold, FirstTimers;
    var f := e.Turn(row, why);
    FreshId(e);
    BooksFrame(e.books, row, why);
    BooksFrame(e.books.Offer(row), row, why);
    OfferBalanced(e.books, row);
    WithholdBalanced(e.books.Offer(row), row, why);
    assert f.books.active == e.books.active;
    LinkedSame(e, f);
    OwnedSame(e, f);
    LiveSame(e, f);
  }

  /** The books once a request has been offered and opened. */
  function BooksOpened(b: Books, row: Row): Books {
    b.Offer(row).(active := b.active[row.id := Entry(row, Dispatched)])
  }

  /** The state once the limiter has taken the request and the ledger has opened it. */
  function Opened(e: EngineState, row: Row, token: Option<Reservation>): EngineState {
    e.(limits := e.limits.Admitted(row.id, row.channel, if token.Some? then row.path else None),
       books := BooksOpened(e.books, row),
       requests := e.requests[row.id := (row, token)], serial := e.serial + 1)
  }

  /** The state after the dispatcher has turned an opened request down. */
  function Bounced(e: EngineState, row: Row, token: Option<Reservation>): EngineState {
    var o := Opened(e, row, token);
    o.(limits := GiveBack(o.limits, row.id), books := o.books.Withhold(row, DispatchBusy),
       pool := e.Cancelled(token), requests := e.requests - {row.id})
  }

  lemma OpenedBooks(b: Books, row: Row)
    requires b.Balanced(None) && |b.active| < BUFFER && row.id !in b.active
    ensures b.Offer(row).Dispatch(row) == Success(BooksOpened(b, row))
    ensures BooksOpened(b, row).Balanced(None)
  {
    hide Books.Balanced, Books.Offer;
    OfferBalanced(b, row);
    BooksFrame(b, row, DispatchBusy);
    DispatchBalanced(b.Offer(row), row);
  }

  /** The ledger's buffer has room whenever the limiter lets a request through. */
  lemma BufferRoom(e: EngineState, channel: Channel, path: Option<string>)
    requires Linked(e) && e.limits.Reason(channel, path).None?
    ensures |e.books.active| < BUFFER
  {
  }

  lemma AdmittedReleasable(l: LimitsState, rid: nat, channel: Channel, path: Option<string>)
    ensures l.Admitted(rid, channel, path).Releasable(rid)
  {
  }

  /** Neither the limiter nor the ledger raises on a fresh identity. */
  lemma SubmitForm(e: EngineState, row: Row, token: Option<Reservation>, admit: bool)
    requires Linked(e) && e.books.Balanced(None) && row.id == e.serial
    requires token.Some? || row.channel == Detail ==> row.path.Some? && row.path.value in e.identities
    ensures var path := if token.Some? then row.path else None;
            var why := e.limits.Reason(row.channel, path);
            e.Submit(row, token, admit) ==
              if why.Some? then e.Turn(row, why.value).(pool := e.Cancelled(token))
              else if admit then Opened(e, row, token) else Bounced(e, row, token)
  {
    hide Books.Offer, Books.Withhold, LimitsState.Admitted, GiveBack, EngineState.Cancelled, Linked, Books.Balanced;
    hide LimitsState.Releasable;
    hide BooksOpened, Books.Dispatch, LimitsState.Reason, EngineState.Turn;
    FreshId(e);
    var path := if token.Some? then row.path else None;
    if e.limits.Reason(row.channel, path).None? {
      BufferRoom(e, row.channel, path);
      OpenedBooks(e.books, row);
      AdmittedReleasable(e.limits, row.id, row.channel, path);
      assert e.requests[row.id := (row, token)] - {row.id} == e.requests - {row.id};
    }
  }

  /** The limiter and the ledger after a request has been opened. */
  lemma OpenedTables(e: EngineState, row: Row, token: Option<Reservation>)
    requires Linked(e) && e.limits.Tight() && e.books.Balanced(None) && row.id == e.serial >= 1
    requires token.Some? <==> row.channel.Pooled()
    requires e.limits.Reason(row.channel, if token.Some? then row.path else None).None?
    ensures var o := Opened(e, row, token);
            && Linked(o) && o.limits.Tight() && o.limits.rotating == e.limits.rotating
            && o.books.Balanced(None) && o.books.start == e.books.start
            && o.books.active == e.books.active[row.id := Entry(row, Dispatched)]
            && row.id in o.limits.active
  {
    hide Books.Offer, LimitsState.Admitted, Linked, Books.Balanced, LimitsState.Tight;
    FreshId(e);
    var path := if token.Some? then row.path else None;
    BufferRoom(e, row.channel, path);
    AdmittedTight(e.limits, row.id, row.channel, path);
    LimitsFrame(e.limits, row.id, row.channel, path);
    OpenedBooks(e.books, row);
    BooksFrame(e.books, row, DispatchBusy);
    LinkedOpen(e, Opened(e, row, token), row, token);
  }

  lemma BouncedTables(e: EngineState, row: Row, token: Option<Reservation>)
    requires Linked(e) && e.limits.Tight() && e.books.Balanced(None) && row.id == e.serial >= 1
    requires token.Some? <==> row.channel.Pooled()
    requires e.limits.Reason(row.channel, if token.Some? then row.path else None).None?
    ensures var f := Bounced(e, row, token);
            && Linked(f) && f.limits.Tight() && f.limits.rotating == e.limits.rotating
            && f.books.Balanced(None) && f.books.start == e.books.start
            && f.books.active == e.books.active && f.requests == e.requests
  {
    hide LimitsState.Admitted, Linked, Books.Balanced, LimitsState.Tight, GiveBack, EngineState.Cancelled;
    hide Books.Withhold, BooksOpened;
    var o := Opened(e, row, token);
    var f := Bounced(e, row, token);
    FreshId(e);
    OpenedTables(e, row, token);
    LimitsFrame(e.limits, row.id, row.channel, if token.Some? then row.path else None);
    GiveBackTight(o.limits, row.id);
    WithholdBalanced(o.books, row, DispatchBusy);
    BooksFrame(o.books, row, DispatchBusy);
    assert f.books.active == e.books.active;
    assert f.limits.active == e.limits.active;
    assert f.requests == e.requests;
    LinkedSame(e, f);
  }

  /** A reserved pool task is always admitted; the dispatcher's answer alone decides. */
  lemma SubmitPool(e: EngineState, i: nat, row: Row, admit: bool)
    requires Inv(e) && i < TASKS && row.id == e.serial
    requires var stage := e.pool.tasks[i].stage;
             && stage < STAGES && e.pool.Eligible(i, stage)
             && row.path == Some(e.pool.tasks[i].path) && row.channel == (if stage < 10 then Child else Rotation)
    requires row.channel == Rotation ==> i in e.limits.rotating
    ensures var stage := e.pool.tasks[i].stage;
            var f, token := e.(pool := e.pool.Taken(i, stage)), Some(e.pool.Token(i, stage));
            var g := f.Submit(row, token, admit);
            && g == (if admit then Opened(f, row, token) else Bounced(f, row, token))
            && Inv(g)
  {
    hide Linked, Owned, Live, PoolOk, Valid, RotatingOk, LimitsState.Tight, Books.Balanced, FirstTimers, Opened;
    hide Bounced;
    hide EngineState.Submit, PoolState.Taken, PoolState.Token, LimitsState.Reason, PoolState.Eligible;
    var stage := e.pool.tasks[i].stage;
    var f, token := e.(pool := e.pool.Taken(i, stage)), Some(e.pool.Token(i, stage));
    assert !e.pool.tasks[i].busy by { EligibleIdle(e.pool, i, stage); }
    NeverRefused(e, i, row.channel);
    assert e.pool.tasks[i].path in e.identities by { PoolIdentity(e, i); }
    assert Linked(f) by { LinkedSame(e, f); }
    SubmitForm(f, row, token, admit);
    if admit { OpenedPool(e, i, row); } else { BouncedPool(e, i, row); }
  }

  lemma EligibleIdle(p: PoolState, i: nat, stage: nat)
    requires i < TASKS && p.Eligible(i, stage)
    ensures !p.tasks[i].busy && !p.tasks[i].unknown && p.tasks[i].stage == stage
  {
  }

  lemma PoolIdentity(e: EngineState, i: nat)
    requires PoolOk(e.pool, e.identities) && i < TASKS
    ensures e.pool.tasks[i].path in e.identities
  {
  }

  lemma TakenFrame(p: PoolState, i: nat, stage: nat)
    requires i < TASKS && stage < STAGES
    ensures forall j | 0 <= j < TASKS && j != i :: p.Taken(i, stage).tasks[j] == p.tasks[j]
    ensures p.Taken(i, stage).tasks[i].unknown == p.tasks[i].unknown
  {
  }

  lemma OpenedPool(e: EngineState, i: nat, row: Row)
    requires Inv(e) && i < TASKS && row.id == e.serial
    requires var stage := e.pool.tasks[i].stage;
             && stage < STAGES && e.pool.Eligible(i, stage)
             && row.path == Some(e.pool.tasks[i].path) && row.channel == (if stage < 10 then Child else Rotation)
    requires row.channel == Rotation ==> i in e.limits.rotating
    requires e.limits.Reason(row.channel, row.path).None?
    ensures var stage := e.pool.tasks[i].stage;
            Inv(Opened(e.(pool := e.pool.Taken(i, stage)), row, Some(e.pool.Token(i, stage))))
  {
    hide Linked, Owned, PoolOk, Valid, RotatingOk, LimitsState.Tight, Books.Balanced, FirstTimers;
    hide PoolState.Taken, PoolState.Token, LimitsState.Reason, LimitsState.Admitted, BooksOpened;
    var stage := e.pool.tasks[i].stage;
    var f, token := e.(pool := e.pool.Taken(i, stage)), Some(e.pool.Token(i, stage));
    var o := Opened(f, row, token);
    FreshId(e);
    assert Linked(f) by { LinkedSame(e, f); }
    OpenedTables(f, row, token);
    OwnedOpen(e, o, row, i, stage);
    TakenPoolOk(e.pool, e.identities, i, stage);
    TakenFrame(e.pool, i, stage);
    OwnedApart(e, i);
    LinkedKeys(e);
    LiveKept(e, o, Some(row.id));
  }

  /** No request's task is an idle one. */
  lemma OwnedApart(e: EngineState, i: nat)
    requires Owned(e) && i < TASKS && !e.pool.tasks[i].busy
    ensures forall r | r in e.requests && e.requests[r].1.Some? ::
              e.requests[r].1.value.task < TASKS && e.requests[r].1.value.task != i
  {
  }

  lemma BouncedPool(e: EngineState, i: nat, row: Row)
    requires Inv(e) && i < TASKS && row.id == e.serial
    requires var stage := e.pool.tasks[i].stage;
             && stage < STAGES && e.pool.Eligible(i, stage)
             && row.path == Some(e.pool.tasks[i].path) && row.channel == (if stage < 10 then Child else Rotation)
    requires e.limits.Reason(row.channel, row.path).None?
    ensures var stage := e.pool.tasks[i].stage;
            var f := Bounced(e.(pool := e.pool.Taken(i, stage)), row, Some(e.pool.Token(i, stage)));
            Inv(f) && f.pool.tasks == e.pool.tasks && f.requests == e.requests
  {
    hide Linked, Owned, Live, Valid, RotatingOk, LimitsState.Tight, Books.Balanced, FirstTimers, PoolState.Sound;
    hide PoolState.Taken, PoolState.Token, LimitsState.Reason, LimitsState.Admitted, BooksOpened, GiveBack;
    hide Books.Withhold;
    var stage := e.pool.tasks[i].stage;
    var f, token := e.(pool := e.pool.Taken(i, stage)), Some(e.pool.Token(i, stage));
    var g := Bounced(f, row, token);
    assert Linked(f) by { LinkedSame(e, f); }
    BouncedTables(f, row, token);
    TakenCancelled(e.pool, i, stage);
    assert g.pool == f.pool.CancelUnsent(token.value).0;
    OwnedSame(e, g);
    LiveSame(e, g);
  }

  /** A request without a pool task: refused by a cap, opened, or turned down by the dispatcher. */
  lemma SubmitPlain(e: EngineState, row: Row, admit: bool)
    requires Inv(e) && row.id == e.serial && !row.channel.Pooled()
    requires row.channel == Detail ==> row.path.Some? && row.path.value in e.identities
    ensures Inv(e.Submit(row, None, admit))
    ensures var g := e.Submit(row, None, admit);
            g.pool == e.pool && (g.requests == e.requests || g.requests == e.requests[row.id := (row, None)])
  {
    hide Linked, Owned, Live, PoolOk, Valid, RotatingOk, LimitsState.Tight, Books.Balanced, FirstTimers;
    hide EngineState.Submit, LimitsState.Reason, LimitsState.Admitted, BooksOpened, GiveBack, Books.Withhold;
    SubmitForm(e, row, None, admit);
    var why := e.limits.Reason(row.channel, None);
    if why.Some? {
      TurnKeeps(e, row, why.value);
    } else if admit {
      FreshId(e);
      var o := Opened(e, row, None);
      OpenedTables(e, row, None);
      OwnedOpenPlain(e, o, row);
      LiveOpenPlain(e, o, row);
    } else {
      BouncedTables(e, row, None);
      var o := Bounced(e, row, None);
      OwnedSame(e, o);
      LiveSame(e, o);
    }
  }

  lemma LiveOpenPlain(e: EngineState, f: EngineState, row: Row)
    requires Live(e) && f.terminal == e.terminal && f.pool == e.pool && row.id !in e.requests
    requires f.requests == e.requests[row.id := (row, None)]
    requires f.books.active == e.books.active[row.id := Entry(row, Dispatched)]
    ensures Live(f)
  {
  }

  // ----- events -----

  /**
   An event that fits the state of its request. `Exchange` shows that every event a worker emits
   fits when it is delivered; events for closed or terminal requests need not.
   */
  ghost predicate Fits(e: EngineState, ev: Event) {
    ev.id in e.requests && ev.id in e.books.active && ev.id !in e.terminal ==>
      var status := e.books.active[ev.id].status;
      var token := e.requests[ev.id].1;
      match ev
      case Info(_, _) => true
      case SentEvent(_, at) => status == Dispatched && at < e.requests[ev.id].0.expires && Holds(e, token)
      case NotSentEvent(_, _) => status == Dispatched && Holds(e, token)
      case CompletedEvent(_, at, outcome, _, _) => status.OnWire? && status.at <= at && outcome != InvalidEffect
      case TransportFailure(_) => status == Dispatched && Holds(e, token)
  }

  ghost predicate Holds(e: EngineState, token: Option<Reservation>) {
    token.Some? ==> e.pool.Current(token.value)
  }

  lemma InfoKeeps(e: EngineState, ev: Event)
    requires Inv(e) && ev.Info?
    ensures Inv(e.Accept(ev))
  {
    hide Linked, Owned, Live, PoolOk, Valid, RotatingOk, LimitsState.Tight, Books.Balanced, FirstTimers;
    hide Books.Bump, EngineState.Completion, EngineState.Failed, EngineState.Close;
    if ev.id in e.requests && ev.id !in e.terminal && ev.rpc.Some? {
      var cell := e.requests[ev.id].0.Own();
      BumpFrame(e.books, RpcCompleted, cell, 1);
      BumpFrame(e.books.Bump(RpcCompleted, cell, 1), RpcFailed, cell, 1);
      BumpOther(e.books, RpcCompleted, cell, 1, None);
      BumpOther(e.books.Bump(RpcCompleted, cell, 1), RpcFailed, cell, 1, None);
      var f := e.Accept(ev);
      LinkedSame(e, f);
      OwnedSame(e, f);
      LiveSame(e, f);
    }
  }

  lemma SendForm(b: Books, rid: nat, at: int)
    requires rid in b.active && b.active[rid].status == Dispatched && at < b.active[rid].row.expires
    ensures b.Send(rid, at).Success?
    ensures b.Send(rid, at).value.active == b.active[rid := Entry(b.active[rid].row, OnWire(at))]
    ensures b.Send(rid, at).value.start == b.start
  {
  }

  lemma SentKeeps(e: EngineState, ev: Event)
    requires Inv(e) && ev.SentEvent? && Fits(e, ev)
    ensures Inv(e.Accept(ev))
  {
    hide Linked, Owned, Live, PoolOk, Valid, RotatingOk, LimitsState.Tight, Books.Balanced, FirstTimers, Books.Send;
    hide EngineState.Completion, EngineState.Close, EngineState.Failed;
    LinkedKeys(e);
    if ev.id in e.requests && ev.id !in e.terminal {
      var f := e.Accept(ev);
      SendForm(e.books, ev.id, ev.at);
      SendBalanced(e.books, ev.id, ev.at);
      LinkedSame(e, f);
      OwnedSame(e, f);
      LiveSent(e, f, ev.id);
    }
  }

  /** A send puts a request on the wire that holds its task. */
  lemma LiveSent(e: EngineState, f: EngineState, rid: nat)
    requires Live(e) && rid in e.requests && rid in e.books.active && Holds(e, e.requests[rid].1)
    requires f.requests == e.requests && f.terminal == e.terminal && f.pool == e.pool
    requires f.books.active.Keys == e.books.active.Keys && rid !in e.terminal
    requires forall r | r in e.books.active && r != rid :: f.books.active[r] == e.books.active[r]
    ensures Live(f)
  {
    forall r | r in f.requests && f.requests[r].1.Some? && r !in f.terminal
               && r in f.books.active && f.books.active[r].status.OnWire?
      ensures f.pool.Current(f.requests[r].1.value)
    {
      assert r != rid ==> e.pool.Current(e.requests[r].1.value);
    }
  }

  /** A request on the wire that has not been given up holds its task. */
  lemma OnWireHolds(e: EngineState, rid: nat)
    requires Live(e) && rid in e.requests && rid !in e.terminal && rid in e.books.active
             && e.books.active[rid].status.OnWire?
    ensures Holds(e, e.requests[rid].1)
  {
  }

  lemma OwnedTasks(e: EngineState)
    requires Owned(e)
    ensures forall r | r in e.requests && e.requests[r].1.Some? :: e.requests[r].1.value.task < TASKS
  {
  }

  /** Tasks other than the closing request's own are not looked at. */
  ghost predicate OnlyTask(p: PoolState, q: PoolState, token: Option<Reservation>) {
    forall i: nat | i < TASKS && (token.Some? ==> i != token.value.task) :: q.tasks[i] == p.tasks[i]
  }

  /** What closing a request leaves: one request fewer in every table, the others untouched. */
  lemma ClosedKeeps(e: EngineState, f: EngineState, rid: nat)
    requires Inv(e) && rid in e.requests && rid !in e.terminal
    requires f.requests == e.requests - {rid} && f.books.active == e.books.active - {rid}
    requires f.limits.active == e.limits.active - {rid}
    requires f.serial == e.serial && f.terminal == e.terminal
    requires OnlyTask(e.pool, f.pool, e.requests[rid].1)
    requires forall i | i in e.limits.rotating && (e.requests[rid].1.Some? ==> i != e.requests[rid].1.value.task) ::
               i in f.limits.rotating
    ensures Linked(f) && Owned(f) && Live(f)
  {
    hide Linked, Owned, PoolOk, Valid, RotatingOk, LimitsState.Tight, Books.Balanced, FirstTimers;
    LinkedKeys(e);
    LinkedClosed(e, f, rid);
    OwnedClosed(e, f, rid);
    OwnedTasks(e);
    OwnedDistinct(e, rid);
    assert forall r | r in f.requests :: r in e.requests && f.requests[r] == e.requests[r];
    assert e.terminal <= f.requests.Keys;
    LiveKept(e, f, None);
  }

  lemma OwnedDistinct(e: EngineState, rid: nat)
    requires Owned(e) && rid in e.requests
    ensures forall r | r in e.requests && r != rid && e.requests[r].1.Some? && e.requests[rid].1.Some? ::
              e.requests[r].1.value.task != e.requests[rid].1.value.task
  {
  }

  lemma CancelPoolOk(p: PoolState, identities: map<string, Identity>, token: Reservation)
    requires PoolOk(p, identities)
    ensures PoolOk(p.CancelUnsent(token).0, identities)
    ensures OnlyTask(p, p.CancelUnsent(token).0, Some(token))
    ensures forall i | 0 <= i < TASKS :: p.CancelUnsent(token).0.tasks[i].unknown == p.tasks[i].unknown
  {
    hide PoolState.Sound;
    CancelSound(p, token);
  }

  /** A request that was not sent leaves every table, and its task is idle again where it was. */
  lemma NotSentKeeps(e: EngineState, ev: Event)
    requires Inv(e) && ev.NotSentEvent? && Fits(e, ev)
    ensures Inv(e.Accept(ev))
    ensures ev.id in e.requests && ev.id !in e.terminal ==>
              var f, token := e.Accept(ev), e.requests[ev.id].1;
              && f.requests == e.requests - {ev.id} && f.limits.active == e.limits.active - {ev.id}
              && f.books.active == e.books.active - {ev.id}
              && (token.Some? ==>
                    token.value.task < TASKS
                    && GivenBack(e.pool.tasks[token.value.task], f.pool.tasks[token.value.task]))
  {
    hide Linked, Owned, Live, PoolOk, Valid, RotatingOk, LimitsState.Tight, Books.Balanced, FirstTimers;
    hide Books.Withhold, GiveBack, PoolState.CancelUnsent, OnlyTask;
    LinkedKeys(e);
    if ev.id in e.requests && ev.id !in e.terminal {
      var (row, token) := e.requests[ev.id];
      var f := e.Accept(ev);
      assert e.books.active[ev.id] == Entry(row, Dispatched);
      WithholdBalanced(e.books, row, ev.why);
      BooksFrame(e.books, row, ev.why);
      GiveBackTight(e.limits, ev.id);
      assert OnlyTask(e.pool, f.pool, token) && PoolOk(f.pool, f.identities) && Calm(f) by {
        if token.Some? { CancelPoolOk(e.pool, e.identities, token.value); } else { SamePool(e.pool, token); }
      }
      if token.Some? { CancelGivesBack(e.pool, token.value); }
      ClosedKeeps(e, f, ev.id);
    }
  }

  predicate GivenBack(before: SlotTask, after: SlotTask) { after == before.(busy := false, reservation := None) }

  /** Unknown from now on, and still busy. */
  predicate GivenUp(before: SlotTask, after: SlotTask) { after == before.(unknown := true, reservation := None) }

  lemma CancelGivesBack(p: PoolState, token: Reservation)
    requires p.Current(token)
    ensures GivenBack(p.tasks[token.task], p.CancelUnsent(token).0.tasks[token.task])
  {
  }

  lemma SamePool(p: PoolState, token: Option<Reservation>)
    ensures OnlyTask(p, p, token)
  {
  }

  /** A failed reservation leaves its task unknown and still busy. */
  lemma FailPoolOk(p: PoolState, identities: map<string, Identity>, token: Reservation)
    requires PoolOk(p, identities) && p.Current(token)
    ensures var r := p.Finish(token, false, None);
            && r.Success? && r.value.1
            && PoolOk(r.value.0, identities) && OnlyTask(p, r.value.0, Some(token))
            && r.value.0.tasks[token.task] == p.tasks[token.task].(unknown := true, reservation := None)
  {
    hide PoolState.Sound, PoolState.Finish;
    FinishMeaning(p, token, false, None);
  }

  /** Ownership and liveness when a kept request's own task becomes unknown. */
  lemma OwnedFailed(e: EngineState, f: EngineState, rid: nat)
    requires Owned(e) && rid in e.requests && e.requests[rid].1.Some? && f.requests == e.requests
    requires f.limits.rotating == e.limits.rotating
    requires var t := e.requests[rid].1.value;
             OnlyTask(e.pool, f.pool, Some(t)) && t.task < TASKS
             && f.pool.tasks[t.task] == e.pool.tasks[t.task].(unknown := true, reservation := None)
    ensures Owned(f)
  {
  }

  /** After a transport failure the request stays open, its task is unknown and the coordinator stops. */
  lemma FailureKeeps(e: EngineState, ev: Event)
    requires Inv(e) && ev.TransportFailure? && Fits(e, ev)
    ensures Inv(e.Accept(ev))
    ensures ev.id in e.requests && ev.id !in e.terminal ==>
              var f, token := e.Accept(ev), e.requests[ev.id].1;
              && f.requests == e.requests && f.books == e.books && f.limits == e.limits && f.stopped.Some?
              && (token.Some? ==>
                    token.value.task < TASKS && GivenUp(e.pool.tasks[token.value.task], f.pool.tasks[token.value.task]))
  {
    hide Linked, Owned, Live, PoolOk, Valid, RotatingOk, LimitsState.Tight, Books.Balanced, FirstTimers;
    hide PoolState.Finish;
    hide EngineState.Accept, Fits, OnlyTask;
    LinkedKeys(e);
    FailureForm(e, ev);
    if ev.id in e.requests && ev.id !in e.terminal {
      var token := e.requests[ev.id].1;
      var f := e.Accept(ev);
      if token.Some? {
        FailPoolOk(e.pool, e.identities, token.value);
        OwnedFailed(e, f, ev.id);
        LiveFailed(e, f, ev.id);
      } else {
        OwnedSame(e, f);
        LiveSame(e, f);
      }
      LinkedSame(e, f);
    }
  }

  lemma FailureForm(e: EngineState, ev: Event)
    requires ev.TransportFailure? && Fits(e, ev) && (ev.id in e.requests ==> ev.id in e.books.active)
    ensures ev.id !in e.requests || ev.id in e.terminal ==> e.Accept(ev) == e
    ensures ev.id in e.requests && ev.id !in e.terminal ==>
              var token := e.requests[ev.id].1;
              && e.Accept(ev) == e.Failed(token).Stop("transport worker failure before confirmed send")
              && e.books.active[ev.id].status == Dispatched && Holds(e, token)
  {
    hide EngineState.Completion, EngineState.Close, EngineState.Failed, EngineState.Stop, Books.Bump, Books.Withhold;
    hide Books.Send;
  }

  /** Giving up the task of a request that was never sent touches no request on the wire. */
  lemma LiveFailed(e: EngineState, f: EngineState, rid: nat)
    requires Live(e) && Owned(e) && rid in e.requests && rid in e.books.active
             && e.books.active[rid].status == Dispatched
    requires f.requests == e.requests && f.books.active == e.books.active && f.terminal == e.terminal
    requires OnlyTask(e.pool, f.pool, e.requests[rid].1) && e.requests[rid].1.Some?
    ensures Live(f)
  {
  }

  lemma CompleteForm(b: Books, rid: nat, at: int, outcome: Outcome, effective: bool)
    requires rid in b.active && b.active[rid].status.OnWire? && b.active[rid].status.at <= at
    ensures b.Complete(rid, at, outcome, effective).Success?
    ensures b.Complete(rid, at, outcome, effective).value.active == b.active - {rid}
    ensures b.Complete(rid, at, outcome, effective).value.start == b.start
  {
  }

  /** A successful reservation leaves its task idle at the next stage, with credentials to match. */
  lemma AdvancePoolOk(p: PoolState, identities: map<string, Identity>, token: Reservation, identity: Option<Identity>)
    requires PoolOk(p, identities) && p.Current(token)
    requires token.stage == 11 ==>
               identity.Some? && !identity.value.attempt.Empty() && identity.value.attempt != token.attempt
    ensures var attempt := if token.stage == 11 then Some(identity.value.attempt) else None;
            var r := p.Finish(token, true, attempt);
            && r.Success? && r.value.1 && OnlyTask(p, r.value.0, Some(token))
            && PoolOk(r.value.0, if token.stage == 11 then identities[p.tasks[token.task].path := identity.value]
                                 else identities)
            && (forall i | 0 <= i < TASKS && r.value.0.tasks[i].unknown :: p.tasks[i].unknown)
  {
    hide PoolState.Sound, PoolState.Finish;
    var attempt := if token.stage == 11 then Some(identity.value.attempt) else None;
    FinishMeaning(p, token, true, attempt);
    assert token.stage < STAGES by { CurrentStage(p, token); }
    var q := p.Finish(token, true, attempt).value.0;
    var after := if token.stage == 11 then identities[p.tasks[token.task].path := identity.value] else identities;
    forall i | 0 <= i < TASKS
      ensures q.tasks[i].path == p.tasks[i].path && q.tasks[i].path in after
              && after[q.tasks[i].path].attempt == q.tasks[i].attempt
    {
    }
  }

  lemma RotatingFree(l: LimitsState, rotating: set<nat>)
    requires l.Tight()
    ensures l.(rotating := rotating).Tight()
  {
  }

  /** After a completion the pool has answered; what is left is bookkeeping and closing. */
  ghost predicate Resolved(e: EngineState, f: EngineState, rid: nat, stops: bool) {
    && rid in e.requests && f.fault.None?
    && f.requests == e.requests && f.terminal == e.terminal && f.serial == e.serial
    && f.stopped == e.stopped && f.grid == e.grid && f.cursor == e.cursor && f.timers == e.timers
    && f.limits.active == e.limits.active && f.limits.Tight() && RotatingOk(f.limits.rotating)
    && f.books.active == e.books.active - {rid} && f.books.Balanced(None) && f.books.start == e.books.start
    && OnlyTask(e.pool, f.pool, e.requests[rid].1) && PoolOk(f.pool, f.identities)
    && (forall i | i in e.limits.rotating && (e.requests[rid].1.Some? ==> i != e.requests[rid].1.value.task) ::
          i in f.limits.rotating)
    && (!stops && e.stopped.None? ==> forall i | 0 <= i < TASKS :: !f.pool.tasks[i].unknown)
  }

  lemma ResolveFailed(e: EngineState, row: Row, token: Reservation, ev: Event, outcome: Outcome, closed: Books)
    requires Inv(e) && ev.CompletedEvent? && ev.id in e.requests && e.requests[ev.id] == (row, Some(token))
    requires e.pool.Current(token) && outcome != Succeeded
    requires closed.active == e.books.active - {ev.id} && closed.Balanced(None) && closed.start == e.books.start
    ensures Resolved(e, e.(books := closed).Resolve(row, token, ev, outcome), ev.id, true)
  {
    hide Linked, Owned, Live, PoolOk, Valid, RotatingOk, LimitsState.Tight, Books.Balanced, FirstTimers, OnlyTask;
    hide PoolState.Finish, Books.Bump;
    FailPoolOk(e.pool, e.identities, token);
    BumpOther(closed, Unknown, row.Own(), 1, None);
    BumpFrame(closed, Unknown, row.Own(), 1);
  }

  lemma ResolveAdvanced(e: EngineState, row: Row, token: Reservation, ev: Event, closed: Books)
    requires Inv(e) && ev.CompletedEvent? && ev.id in e.requests && e.requests[ev.id] == (row, Some(token))
    requires e.pool.Current(token) && e.Matches(row, token, ev) && row.path == Some(e.pool.tasks[token.task].path)
    requires closed.active == e.books.active - {ev.id} && closed.Balanced(None) && closed.start == e.books.start
    ensures Resolved(e, e.(books := closed).Resolve(row, token, ev, Succeeded), ev.id, false)
  {
    hide Linked, Owned, Live, PoolOk, Valid, LimitsState.Tight, Books.Balanced, FirstTimers, OnlyTask;
    hide PoolState.Finish, Books.Bump;
    AdvancePoolOk(e.pool, e.identities, token, ev.identity);
    RotatingFree(e.limits, e.limits.rotating - {token.task});
    SubsetSize(e.limits.rotating - {token.task}, e.limits.rotating);
    var f := e.(books := closed).Resolve(row, token, ev, Succeeded);
    if e.stopped.None? {
      forall i | 0 <= i < TASKS ensures !f.pool.tasks[i].unknown {
        assert !e.pool.tasks[i].unknown;
      }
    }
  }

  lemma CompletedKeeps(e: EngineState, ev: Event)
    requires Inv(e) && ev.CompletedEvent? && Fits(e, ev)
    ensures Inv(e.Accept(ev))
  {
    hide Linked, Owned, Live, PoolOk, Valid, RotatingOk, LimitsState.Tight, Books.Balanced, FirstTimers, OnlyTask;
    hide Books.Complete, EngineState.Resolve, Books.Bump, GiveBack, EngineState.Matches, Books.Withhold, Books.Send;
    hide EngineState.Close;
    LinkedKeys(e);
    if ev.id in e.requests && ev.id !in e.terminal {
      OnWireHolds(e, ev.id);
      var (row, token) := e.requests[ev.id];
      var (outcome, effective) := e.Judge(row, token, ev);
      CompleteForm(e.books, ev.id, ev.at, outcome, effective);
      CompleteBalanced(e.books, ev.id, ev.at, outcome, effective);
      var closed := e.books.Complete(ev.id, ev.at, outcome, effective).value;
      var a := e.(books := closed);
      var b := if token.Some? then a.Resolve(row, token.value, ev, outcome) else a;
      assert Resolved(e, b, ev.id, outcome != Succeeded) by {
        if token.None? {
          SamePool(e.pool, token);
        } else {
          assert OwnedAt(row, token.value, e.pool, e.limits.rotating) by { OwnedOne(e, ev.id); }
          if outcome != Succeeded {
            ResolveFailed(e, row, token.value, ev, outcome, closed);
          } else {
            ResolveAdvanced(e, row, token.value, ev, closed);
          }
        }
      }
      FinishCompletion(e, b, ev.id, outcome);
    }
  }

  lemma OwnedOne(e: EngineState, rid: nat)
    requires Owned(e) && rid in e.requests && e.requests[rid].1.Some?
    ensures OwnedAt(e.requests[rid].0, e.requests[rid].1.value, e.pool, e.limits.rotating)
  {
  }

  /** The bookkeeping after the pool's answer, and the closing of the request. */
  lemma FinishCompletion(e: EngineState, b: EngineState, rid: nat, outcome: Outcome)
    requires Inv(e) && rid !in e.terminal && Resolved(e, b, rid, outcome != Succeeded)
    ensures var row := e.requests[rid].0;
            var c := b.(books := b.books.Bump(Unknown, row.Own(), 1));
            && Inv((if outcome != Succeeded then b.Stop("request") else b).Close(rid))
            && Inv((if outcome != Succeeded then c.Stop("request") else c).Close(rid))
  {
    hide Linked, Owned, Live, PoolOk, Valid, RotatingOk, LimitsState.Tight, Books.Balanced, FirstTimers, OnlyTask;
    hide Books.Bump, GiveBack;
    var row := e.requests[rid].0;
    var c := b.(books := b.books.Bump(Unknown, row.Own(), 1));
    BumpFrame(b.books, Unknown, row.Own(), 1);
    BumpOther(b.books, Unknown, row.Own(), 1, None);
    assert rid in b.limits.active by { LinkedKeys(e); }
    GiveBackTight(b.limits, rid);
    ClosedKeeps(e, (if outcome != Succeeded then b.Stop("request") else b).Close(rid), rid);
    ClosedKeeps(e, (if outcome != Succeeded then c.Stop("request") else c).Close(rid), rid);
  }

  /** Every fitting event keeps the invariant; in particular it never raises. */
  lemma AcceptKeeps(e: EngineState, ev: Event)
    requires Inv(e) && Fits(e, ev)
    ensures Inv(e.Accept(ev))
  {
    hide Inv, Fits, EngineState.Accept;
    match ev
    case Info(_, _) => InfoKeeps(e, ev);
    case SentEvent(_, _) => SentKeeps(e, ev);
    case NotSentEvent(_, _) => NotSentKeeps(e, ev);
    case CompletedEvent(_, _, _, _, _) => CompletedKeeps(e, ev);
    case TransportFailure(_) => FailureKeeps(e, ev);
  }
}
