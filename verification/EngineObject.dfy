/** The coordinator as the program has it: one object that updates its tables, pool, limiter and ledger in place. */
module EngineObject {
  import opened Common
  import opened Channels
  import opened ArrivalGrid
  import opened ReservationPool
  import opened ConcurrencyLimits
  import opened AccountingLedger
  import opened EngineModel
  import opened EngineInvariant
  import opened EngineTick

  lemma RefusalKeeps(l: LimitsState, rid: nat, channel: Channel, path: Option<string>)
    ensures var r := l.Acquire(rid, channel, path);
            r.Success? && r.value.1.Some? ==> r.value.0 == l
  {
  }

  lemma GiveBackSame(l: LimitsState, rid: nat)
    requires !l.Releasable(rid)
    ensures GiveBack(l, rid) == l
  {
  }

  /** The settings of every variant describe a grid. */
  lemma SettingsAccepted(v: Variant)
    ensures forall w | w in Windows(v.Seconds(), v.Rate(), v.Burst()) :: Accepted(w)
  {
  }

  lemma ReserveNone(p: PoolState, stage: nat)
    requires stage < STAGES && p.Reserve(stage).1.None?
    ensures p.Reserve(stage).0 == p
  {
  }

  class Engine {
    const variant: Variant
    const grid: Grid
    const pool: Pool
    const limits: Limits
    const ledger: Ledger
    var identities: map<string, Identity>
    var requests: map<nat, Request>
    var terminal: set<nat>
    var serial: nat
    var stopped: Option<string>
    var lastChild: int
    var timers: map<Channel, nat>
    var fault: Option<string>

    ghost function Parts(): set<object> { {this, grid, pool, limits, ledger} }

    function State(): EngineState
      reads this, grid, pool, limits, ledger
    {
      EngineState(variant, grid.table, grid.cursor, pool.State(), limits.State(), ledger.State(), identities,
                  requests, terminal, serial, stopped, lastChild, timers, fault)
    }

    /** The grid follows from the variant: its length, its rate and whether it has a burst. */
    constructor (variant: Variant, start: int, initial: PoolState, identities: map<string, Identity>)
      ensures State() == Start(variant, grid.table, initial, identities) && grid.Ok()
      ensures grid.table.start == start && grid.table.end == start + variant.Seconds() * NS
      ensures grid.table.total == if variant.Burst() then 27000 else 600
      ensures fresh(grid) && fresh(pool) && fresh(limits) && fresh(ledger)
    {
      SettingsAccepted(variant);
      var built := Build(start, variant.Seconds(), variant.Rate(), variant.Burst());
      this.variant := variant;
      grid := new Grid(built.value);
      pool := new Pool(initial);
      limits := new Limits();
      ledger := new Ledger(start);
      this.identities, requests, terminal, serial := identities, map[], {}, 1;
      stopped, lastChild, timers, fault := None, start, FirstTimers(), None;
    }

    method Halt(why: string)
      modifies this
      ensures State() == old(State()).Stop(why)
    {
      if stopped.None? {
        stopped := Some(why);
      }
    }

    /** The next identity is taken when the row is made. */
    method NewRow(operation: string, channel: Channel, scheduled: int, expires: int, now: int,
                  token: Option<Reservation>, path: Option<string>) returns (row: Row)
      modifies this`serial
      ensures row == old(State()).MakeRow(operation, channel, scheduled, expires, now, token, path)
      ensures serial == old(serial) + 1 && row.id == old(serial)
    {
      row := State().MakeRow(operation, channel, scheduled, expires, now, token, path);
      serial := serial + 1;
    }

    method GiveSlotBack(rid: nat)
      modifies this`fault, limits
      ensures limits.State() == GiveBack(old(limits.State()), rid)
      ensures fault == if old(limits.State()).Releasable(rid) then old(fault) else Some("key")
    {
      if limits.State().Releasable(rid) {
        limits.Release(rid);
      } else {
        fault := Some("key");
      }
    }

    method CancelToken(token: Option<Reservation>)
      modifies pool
      ensures pool.State() == if token.Some? then old(pool.State()).CancelUnsent(token.value).0 else old(pool.State())
    {
      if token.Some? {
        var _ := pool.CancelUnsent(token.value);
      }
    }

    method Refuse(row: Row, why: Refusal)
      requires serial == row.id + 1
      modifies ledger
      ensures State() == old(State()).(serial := row.id).Turn(row, why)
    {
      hide Books.Offer, Books.Withhold;
      ledger.Offer(row);
      ledger.Withhold(row, why);
    }

    method Submit(row: Row, token: Option<Reservation>, admit: bool)
      requires serial == row.id + 1
      modifies this`requests, this`fault, pool, limits, ledger
      ensures State() == old(State()).(serial := row.id).Submit(row, token, admit)
    {
      hide Books.Offer, Books.Withhold, LimitsState.Acquire, Books.Dispatch, GiveBack, PoolState.CancelUnsent;
      ledger.Offer(row);
      var refused := limits.Acquire(row.id, row.channel, if token.Some? then row.path else None);
      if refused.Failure? {
        fault := Some(refused.error);
        return;
      }
      if refused.value.Some? {
        RefusalKeeps(old(limits.State()), row.id, row.channel, if token.Some? then row.path else None);
        CancelToken(token);
        ledger.Withhold(row, refused.value.value);
        return;
      }
      Dispatch(row, token, admit);
    }

    /** The second half of `_submit`: the limiter has taken the request. */
    method Dispatch(row: Row, token: Option<Reservation>, admit: bool)
      modifies this`requests, this`fault, pool, limits, ledger
      ensures State() ==
              match old(ledger.State()).Dispatch(row)
              case Failure(why) => old(State()).Fault(why)
              case Success(open) =>
                if (token.Some? || row.channel == Detail) && (row.path.None? || row.path.value !in identities) then
                  old(State()).(books := open).Fault("key")
                else if admit then
                  old(State()).(books := open, requests := old(requests)[row.id := (row, token)])
                else if !old(limits.State()).Releasable(row.id) then
                  old(State()).(books := open, requests := old(requests)[row.id := (row, token)]).Fault("key")
                else
                  old(State()).(books := open.Withhold(row, DispatchBusy),
                                limits := GiveBack(old(limits.State()), row.id),
                                pool := old(State()).Cancelled(token), requests := old(requests) - {row.id})
    {
      hide Books.Withhold, Books.Dispatch, GiveBack, PoolState.CancelUnsent;
      var open := ledger.Dispatch(row);
      if open.Failure? {
        fault := Some(open.error);
        return;
      }
      if (token.Some? || row.channel == Detail) && (row.path.None? || row.path.value !in identities) {
        fault := Some("key");
        return;
      }
      requests := requests[row.id := (row, token)];
      if !admit {
        var held := limits.State().Releasable(row.id);
        GiveSlotBack(row.id);
        if !held {
          GiveBackSame(old(limits.State()), row.id);
          return;
        }
        assert requests - {row.id} == old(requests) - {row.id};
        requests := requests - {row.id};
        CancelToken(token);
        ledger.Withhold(row, DispatchBusy);
      }
    }

    method SubmitPoolJob(token: Reservation, scheduled: int, expires: int, now: int, admit: nat -> bool)
      requires token.task < TASKS
      modifies this, pool, limits, ledger
      ensures State() ==
                old(State()).Submit(old(State()).PoolRow(token, scheduled, expires, now), Some(token),
                                    admit(old(serial)))
    {
      var path := pool.tasks[token.task].path;
      var row;
      if token.stage < 10 {
        row := NewRow(CommandAt(token.stage).Name(), Child, scheduled, expires, now, Some(token), Some(path));
      } else {
        row := NewRow(token.operation, Rotation, scheduled, expires, now, Some(token), Some(path));
      }
      Submit(row, Some(token), admit(row.id));
    }

    // ----- events -----

    method FailToken(token: Option<Reservation>)
      modifies this`fault, pool
      ensures State() == old(State()).Failed(token)
    {
      hide PoolState.Finish;
      if token.Some? {
        var r := pool.Finish(token.value, false, None);
        if r.Failure? {
          fault := Some(r.error);
        }
      }
    }

    method Resolve(row: Row, token: Reservation, ev: Event, outcome: Outcome)
      requires ev.CompletedEvent?
      modifies this, pool, limits, ledger
      ensures State() == old(State()).Resolve(row, token, ev, outcome)
    {
      hide PoolState.Finish, Books.Bump;
      if outcome != Succeeded {
        var r := pool.Finish(token, false, None);
        if r.Failure? {
          fault := Some(r.error);
          return;
        }
        ledger.Bump(Unknown, row.Own(), 1);
        return;
      }
      var attempt := if token.stage == 11 && ev.identity.Some? then Some(ev.identity.value.attempt) else None;
      var r := pool.Finish(token, true, attempt);
      if r.Failure? {
        fault := Some(r.error);
        return;
      }
      if token.stage == 11 {
        if ev.identity.None? || row.path.None? {
          fault := Some("identity");
          return;
        }
        identities := identities[row.path.value := ev.identity.value];
        limits.rotating := limits.rotating - {token.task};
      } else if token.stage < 10 {
        lastChild := Max(lastChild, ev.at);
      }
    }

    method Complete(row: Row, token: Option<Reservation>, ev: Event)
      requires ev.CompletedEvent?
      modifies this, pool, limits, ledger
      ensures State() == old(State()).Completion(row, token, ev)
    {
      hide Books.Complete, Books.Bump, GiveBack, EngineState.Judge, EngineState.Resolve, EngineState.Close;
      hide EngineState.Stop, Row.Own;
      var (outcome, effective) := State().Judge(row, token, ev);
      var closed := ledger.Complete(ev.id, ev.at, outcome, effective);
      if closed.Failure? {
        fault := Some(closed.error);
        return;
      }
      if token.Some? {
        Resolve(row, token.value, ev, outcome);
      }
      if fault.Some? {
        return;
      }
      SettleRequest(row, ev.id, outcome);
    }

    /** The counters and the stop flag after a completion, and the closing of the request. */
    method SettleRequest(row: Row, rid: nat, outcome: Outcome)
      modifies this, limits, ledger
      ensures State() ==
              var f := old(State());
              var g := if (row.channel == Batch || row.channel == Structure)
                          && (outcome == Lost || outcome == TimedOut || outcome == InvalidEffect)
                       then f.(books := f.books.Bump(Unknown, row.Own(), 1)) else f;
              (if outcome != Succeeded then g.Stop("request") else g).Close(rid)
    {
      hide Books.Bump, EngineState.Close, Row.Own;
      if (row.channel == Batch || row.channel == Structure)
         && (outcome == Lost || outcome == TimedOut || outcome == InvalidEffect) {
        ledger.Bump(Unknown, row.Own(), 1);
      }
      if outcome != Succeeded {
        Halt("request");
      }
      CloseRequest(rid);
    }

    method CloseRequest(rid: nat)
      modifies this`requests, this`fault, limits
      ensures State() == old(State()).Close(rid)
    {
      requests := requests - {rid};
      GiveSlotBack(rid);
    }

    method Accept(ev: Event)
      modifies this, pool, limits, ledger
      ensures State() == old(State()).Accept(ev)
    {
      hide Books.Bump, Books.Send, Books.Withhold, EngineState.Completion, EngineState.Failed, EngineState.Close;
      if ev.id in terminal || ev.id !in requests {
        return;
      }
      var (row, token) := requests[ev.id];
      match ev
      case Info(_, rpc) =>
        if rpc.Some? {
          ledger.Bump(RpcCompleted, row.Own(), 1);
          if rpc.value {
            ledger.Bump(RpcFailed, row.Own(), 1);
          }
        }
      case SentEvent(_, at) =>
        var r := ledger.Send(ev.id, at);
        if r.Failure? {
          fault := Some(r.error);
        }
      case NotSentEvent(_, why) =>
        ledger.Withhold(row, why);
        CancelToken(token);
        CloseRequest(ev.id);
      case CompletedEvent(_, _, _, _, _) =>
        Complete(row, token, ev);
      case TransportFailure(_) =>
        FailToken(token);
        Halt("transport worker failure before confirmed send");
    }

    // ----- deadlines -----

    method CheckDeadline(rid: nat, now: int)
      modifies this, pool, ledger
      ensures State() == old(State()).Expiry(rid, now)
    {
      hide Books.Bump, EngineState.Failed;
      if rid in requests && rid !in ledger.active {
        fault := Some("key");
        return;
      }
      if !State().Overdue(rid, now) {
        return;
      }
      var (row, token) := requests[rid];
      terminal := terminal + {rid};
      ledger.Bump(Timeout, row.Own(), 1);
      ledger.Bump(Unknown, row.Own(), 1);
      FailToken(token);
      Halt("RPC deadline; completion unknown");
    }

    method CheckDeadlines(now: int)
      modifies this, pool, ledger
      ensures State() == Expiries(old(State()), now, old(serial))
    {
      hide EngineState.Expiry;
      ghost var before := State();
      var bound := serial;
      for rid := 0 to bound
        invariant State() == Expiries(before, now, rid)
      {
        if fault.None? {
          CheckDeadline(rid, now);
        }
      }
    }

    // ----- new requests -----

    method PollGrid(now: int, admit: nat -> bool)
      requires grid.Ok()
      modifies Parts()
      ensures State() == GridStep(old(State()), now, admit) && grid.Ok()
    {
      hide Poll, ExpireSlots, LiveSlot, Valid;
      var p := grid.PollAt(now);
      ledger.ExpiredRange(grid.table, p.expiredLo, p.expiredHi);
      if p.live.Some? {
        SubmitLive(p.live.value, now, admit);
      }
    }

    method SubmitLive(index: nat, now: int, admit: nat -> bool)
      modifies this, pool, limits, ledger
      ensures State() == LiveSlot(old(State()), index, now, admit)
    {
      hide Time, LimitsState.Reason, PoolState.Reserve, EngineState.Submit, EngineState.Turn, EngineState.PoolRow;
      hide EngineState.MakeRow;
      var stage := index % 10;
      var at, next := Time(grid.table, index), Time(grid.table, index + 1);
      var reason := limits.State().Reason(Child, None);
      var token := None;
      if reason.None? {
        token := pool.Reserve(stage);
      }
      if token.None? {
        if reason.None? { ReserveNone(old(pool.State()), stage); }
        var row := NewRow(CommandAt(stage).Name(), Child, at, next, now, None, None);
        row := row.(stage := StageNo(stage));
        Refuse(row, if reason.Some? then reason.value else StageBusy);
      } else if token.value.task >= TASKS {
        fault := Some("index");
      } else {
        SubmitPoolJob(token.value, at, next, now, admit);
      }
    }

    method RotateTasks(now: int, admit: nat -> bool)
      modifies this, pool, limits, ledger
      ensures State() == Rotations(old(State()), now, admit, TASKS)
    {
      hide Rotate;
      ghost var before := State();
      for i := 0 to TASKS
        invariant State() == Rotations(before, now, admit, i)
      {
        if fault.None? {
          RotateTask(i, now, admit);
        }
      }
    }

    method RotateTask(i: nat, now: int, admit: nat -> bool)
      requires i < TASKS
      modifies this, pool, limits, ledger
      ensures State() == Rotate(old(State()), i, now, admit)
    {
      hide PoolState.Reserve, EngineState.Submit, EngineState.PoolRow;
      var task := pool.tasks[i];
      if (task.stage != 10 && task.stage != 11) || task.busy || task.unknown {
        return;
      }
      if i !in limits.rotating && |limits.rotating| >= PIPELINES {
        return;
      }
      limits.rotating := limits.rotating + {i};
      pool.next := pool.next[task.stage := i];
      var token := pool.Reserve(task.stage);
      if token.None? || token.value.task >= TASKS {
        fault := Some("token");
        return;
      }
      SubmitPoolJob(token.value, now, Min(grid.table.end, now + RPC_LIMIT), now, admit);
    }

    method RunTimers(now: int, admit: nat -> bool)
      modifies this, pool, limits, ledger
      ensures State() == Timers(old(State()), now, admit, |TIMERS|)
    {
      hide Timer;
      ghost var before := State();
      for k := 0 to |TIMERS|
        invariant State() == Timers(before, now, admit, k)
      {
        if fault.None? {
          RunTimer(TIMERS[k], now, admit);
        }
      }
    }

    method RunTimer(c: Channel, now: int, admit: nat -> bool)
      modifies this, pool, limits, ledger
      ensures State() == Timer(old(State()), c, now, admit)
    {
      hide TimerSlot, Timed;
      if !Timed(variant, c) {
        return;
      }
      if c !in timers {
        fault := Some("key");
        return;
      }
      var target := timers[c];
      ghost var before := State();
      while fault.None? && grid.table.start + target * NS <= now && target < variant.Seconds()
        invariant TimerSlots(State(), c, target, now, admit) == TimerSlots(before, c, before.timers[c], now, admit)
        decreases variant.Seconds() - target
      {
        RunTimerSlot(c, target, now, admit);
        target := target + Interval(c);
      }
    }

    method RunTimerSlot(c: Channel, target: nat, now: int, admit: nat -> bool)
      modifies this, pool, limits, ledger
      ensures State() == TimerSlot(old(State()), c, target, now, admit)
    {
      hide EngineState.Submit, EngineState.Turn, EngineState.MakeRow, ControlName, ControlPath, Min;
      var scheduled := grid.table.start + target * NS;
      var path := ControlPath(State(), c, target);
      timers := timers[c := target + Interval(c)];
      var expires := Min(grid.table.end, scheduled + Interval(c) * NS);
      var row := NewRow(ControlName(variant, c), c, scheduled, expires, now, None, path);
      if now >= expires {
        Refuse(row, Expired);
      } else {
        Submit(row, None, admit(row.id));
      }
    }

    // ----- the tick -----

    method AcceptEvents(events: seq<Event>)
      modifies this, pool, limits, ledger
      ensures State() == AcceptAll(old(State()), events)
    {
      hide EngineState.Accept;
      ghost var before := State();
      for k := 0 to |events|
        invariant State() == AcceptAll(before, events[..k])
      {
        if fault.None? {
          Accept(events[k]);
        }
        assert events[..k+1][..k] == events[..k];
      }
      assert events[..|events|] == events;
    }

    method Advance(now: int, events: seq<Event>, guardPasses: bool, admit: nat -> bool)
      requires grid.Ok()
      modifies Parts()
      ensures State() == Tick(old(State()), now, events, guardPasses, admit) && grid.Ok()
    {
      hide AcceptAll, Expiries, GridStep, Rotations, Timers, Valid;
      AcceptEvents(events);
      if fault.Some? { return; }
      CheckDeadlines(now);
      if fault.Some? { return; }
      if !guardPasses {
        fault := Some("guard");
        return;
      }
      if stopped.Some? { return; }
      PollGrid(now, admit);
      if fault.Some? || now >= grid.table.end { return; }
      RotateTasks(now, admit);
      if fault.Some? { return; }
      RunTimers(now, admit);
    }

    method Verification(now: int, deadline: int, admit: bool)
      modifies this, pool, limits, ledger
      ensures State() == SubmitVerification(old(State()), now, deadline, admit)
    {
      hide EngineState.Submit;
      if grid.table.start <= now < grid.table.end {
        fault := Some("full verification forbidden during measurement");
        return;
      }
      var row := NewRow("full_verify", Verify, now, Min(deadline, now + 60 * NS), now, None, None);
      Submit(row, None, admit);
    }
  }
}
