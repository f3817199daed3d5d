/**
 The workload coordinator: it turns grid slots, rotations and control timers into requests,
 follows each request through the limiter, the ledger and the pool, and reacts to worker events.
 Transitions are functions of the whole coordinator state. An exception is recorded in `fault`
 and ends the call, leaving the state as it was at that point.
 */
module EngineModel {
  import opened Common
  import opened Channels
  import opened ArrivalGrid
  import opened ReservationPool
  import opened ConcurrencyLimits
  import opened AccountingLedger

  const PIPELINES: nat := 16
  const RPC_LIMIT: int := 10 * NS

  datatype Variant = RunS | RunV | RunH | RunD | RunL | RunR {

    predicate Large() { !RunS? && !RunV? }

    function Seconds(): nat { if RunS? then 60 else 180 }

    function Rate(): nat { if RunS? then 10 else 100 }

    predicate Burst() { !RunS? }
  }

  datatype Identity = Identity(attempt: Attempt, password: string, generation: string)

  /** Evidence of a write; control writes carry no path, stage or attempt. */
  datatype Proof = Proof(effective: bool, path: Option<string>, stage: Option<nat>, attempt: Option<Attempt>)

  datatype Event =
    | Info(id: nat, rpc: Option<bool>)
    | SentEvent(id: nat, at: int)
    | NotSentEvent(id: nat, why: Refusal)
    | CompletedEvent(id: nat, at: int, outcome: Outcome, proof: Option<Proof>, identity: Option<Identity>)
    | TransportFailure(id: nat)

  type Request = (Row, Option<Reservation>)

  datatype EngineState = EngineState(
      variant: Variant, grid: Timetable, cursor: nat, pool: PoolState, limits: LimitsState, books: Books,
      identities: map<string, Identity>, requests: map<nat, Request>, terminal: set<nat>, serial: nat,
      stopped: Option<string>, lastChild: int, timers: map<Channel, nat>, fault: Option<string>) {

    function Fault(why: string): EngineState { this.(fault := Some(why)) }

    /** Only the first reason is kept. */
    function Stop(why: string): EngineState {
      if stopped.None? then this.(stopped := Some(why)) else this
    }

    function MakeRow(operation: string, channel: Channel, scheduled: int, expires: int, now: int,
                     token: Option<Reservation>, path: Option<string>): Row {
      Row(serial, operation, channel, scheduled, expires, now, (scheduled - grid.start) / NS,
          if token.Some? then StageNo(token.value.stage) else StageName(operation),
          path, if path.Some? then FlowOf(path.value) else "unassigned",
          if token.Some? then Some(token.value.attempt) else None)
    }

    function Cancelled(token: Option<Reservation>): PoolState
    {
      if token.Some? then pool.CancelUnsent(token.value).0 else pool
    }

    /** Offered and refused at once. */
    function Turn(row: Row, why: Refusal): EngineState {
      this.(books := books.Offer(row).Withhold(row, why), serial := serial + 1)
    }

    /** `_submit`; `admit` is the dispatcher's answer. */
    function Submit(row: Row, token: Option<Reservation>, admit: bool): (r: EngineState)
      ensures r.variant == variant
    {
      var path := if token.Some? then row.path else None;
      match limits.Acquire(row.id, row.channel, path)
      case Failure(why) => this.(books := books.Offer(row), serial := serial + 1).Fault(why)
      case Success((_, Some(why))) => Turn(row, why).(pool := Cancelled(token))
      case Success((taken, None)) =>
        match books.Offer(row).Dispatch(row)
        case Failure(why) => this.(books := books.Offer(row), limits := taken, serial := serial + 1).Fault(why)
        case Success(open) =>
          if (token.Some? || row.channel == Detail) && (row.path.None? || row.path.value !in identities) then
            this.(books := open, limits := taken, serial := serial + 1).Fault("key")
          else if admit then
            this.(books := open, limits := taken, requests := requests[row.id := (row, token)], serial := serial + 1)
          else if !taken.Releasable(row.id) then
            this.(books := open, limits := taken, requests := requests[row.id := (row, token)], serial := serial + 1)
                .Fault("key")
          else
            this.(books := open.Withhold(row, DispatchBusy), limits := GiveBack(taken, row.id),
                  pool := Cancelled(token), requests := requests - {row.id}, serial := serial + 1)
    }

    /** The row of a pool request. */
    function PoolRow(token: Reservation, scheduled: int, expires: int, now: int): Row
      requires token.task < TASKS
    {
      MakeRow(if token.stage < 10 then CommandAt(token.stage).Name() else token.operation,
              if token.stage < 10 then Child else Rotation, scheduled, expires, now,
              Some(token), Some(pool.tasks[token.task].path))
    }

    // ----- events -----

    /** What a completion amounts to, after the proof and the new identity have been checked. */
    function Judge(row: Row, token: Option<Reservation>, ev: Event): (r: (Outcome, bool))
      requires ev.CompletedEvent?
    {
      var proven := !(row.channel.Pooled() || row.channel == Batch || row.channel == Structure)
                    || (ev.proof.Some? && ev.proof.value.effective);
      var effective := ev.outcome == Succeeded && proven && (token.None? || Matches(row, token.value, ev));
      (if ev.outcome == Succeeded && !effective then InvalidEffect else ev.outcome, effective)
    }

    /** The proof is about this very write, and a RUN brought a usable new identity. */
    predicate Matches(row: Row, token: Reservation, ev: Event)
      requires ev.CompletedEvent?
    {
      && ev.proof.Some? && row.path.Some? && ev.proof.value.path == row.path
      && ev.proof.value.stage == Some(token.stage) && ev.proof.value.attempt == Some(token.attempt)
      && (token.stage == 11 ==>
            && ev.identity.Some? && ev.identity.value.password != "" && !ev.identity.value.attempt.Empty()
            && ev.identity.value.attempt != token.attempt
            && row.path.value in identities
            && ev.identity.value.generation == identities[row.path.value].generation)
    }

    /** The pool's answer to a completion. */
    function Resolve(row: Row, token: Reservation, ev: Event, outcome: Outcome): EngineState
      requires ev.CompletedEvent?
    {
      if outcome != Succeeded then
        match pool.Finish(token, false, None)
        case Failure(why) => Fault(why)
        case Success((p, _)) => this.(pool := p, books := books.Bump(Unknown, row.Own(), 1))
      else
        var attempt := if token.stage == 11 && ev.identity.Some? then Some(ev.identity.value.attempt) else None;
        match pool.Finish(token, true, attempt)
        case Failure(why) => Fault(why)
        case Success((p, _)) =>
          if token.stage == 11 then
            if ev.identity.None? || row.path.None? then this.(pool := p).Fault("identity")
            else
              this.(pool := p, identities := identities[row.path.value := ev.identity.value],
                    limits := limits.(rotating := limits.rotating - {token.task}))
          else
            this.(pool := p, lastChild := if token.stage < 10 then Max(lastChild, ev.at) else lastChild)
    }

    function Completion(row: Row, token: Option<Reservation>, ev: Event): EngineState
      requires ev.CompletedEvent?
    {
      var (outcome, effective) := Judge(row, token, ev);
      match books.Complete(ev.id, ev.at, outcome, effective)
      case Failure(why) => this.(books := books.(active := books.active - {ev.id})).Fault(why)
      case Success(closed) =>
        var e := this.(books := closed);
        var f := if token.Some? then e.Resolve(row, token.value, ev, outcome) else e;
        if f.fault.Some? then f
        else
          var g := if (row.channel == Batch || row.channel == Structure)
                      && (outcome == Lost || outcome == TimedOut || outcome == InvalidEffect)
                   then f.(books := f.books.Bump(Unknown, row.Own(), 1)) else f;
          (if outcome != Succeeded then g.Stop("request") else g).Close(ev.id)
    }

    /** The request leaves the table and gives its slot back; a slot that is not held raises. */
    function Close(rid: nat): EngineState {
      var f := this.(requests := requests - {rid}, limits := GiveBack(limits, rid));
      if limits.Releasable(rid) then f else f.Fault("key")
    }

    /** `accept`: events of terminal or unknown requests change nothing. */
    function Accept(ev: Event): EngineState
    {
      if ev.id in terminal || ev.id !in requests then this
      else
        var (row, token) := requests[ev.id];
        match ev
        case Info(_, None) => this
        case Info(_, Some(failed)) =>
          var counted := books.Bump(RpcCompleted, row.Own(), 1);
          this.(books := if failed then counted.Bump(RpcFailed, row.Own(), 1) else counted)
        case SentEvent(_, at) =>
          (match books.Send(ev.id, at)
           case Failure(why) => Fault(why)
           case Success(sent) => this.(books := sent))
        case NotSentEvent(_, why) =>
          this.(books := books.Withhold(row, why), pool := Cancelled(token)).Close(ev.id)
        case CompletedEvent(_, _, _, _, _) => Completion(row, token, ev)
        case TransportFailure(_) => Failed(token).Stop("transport worker failure before confirmed send")
    }

    /** The reservation, if any, ends unknown. */
    function Failed(token: Option<Reservation>): EngineState
    {
      if token.None? then this
      else match pool.Finish(token.value, false, None)
           case Failure(why) => Fault(why)
           case Success((p, _)) => this.(pool := p)
    }

    // ----- deadlines -----

    predicate Overdue(rid: nat, now: int) {
      && rid in requests && rid !in terminal && rid in books.active
      && books.active[rid].status.OnWire? && now - books.active[rid].status.at >= RPC_LIMIT
      && requests[rid].0.channel != Verify
    }

    /** A request on the wire for ten seconds is unknown from then on. */
    function Expiry(rid: nat, now: int): EngineState
    {
      if rid in requests && rid !in books.active then Fault("key")
      else if !Overdue(rid, now) then this
      else
        var (row, token) := requests[rid];
        this.(terminal := terminal + {rid},
              books := books.Bump(Timeout, row.Own(), 1).Bump(Unknown, row.Own(), 1))
            .Failed(token).Stop("RPC deadline; completion unknown")
    }
  }

  /** The second component of a slash-separated path. */
  function FlowOf(path: string): string { Until(After(path)) }

  function After(path: string): string {
    if path == "" then "" else if path[0] == '/' then path[1..] else After(path[1..])
  }

  function Until(path: string): string {
    if path == "" || path[0] == '/' then "" else [path[0]] + Until(path[1..])
  }

  /** `Limits.release`; nothing changes for a slot that is not held, and the caller raises. */
  function GiveBack(l: LimitsState, rid: nat): LimitsState {
    if l.Releasable(rid) then l.Released(rid) else l
  }

  // ----- tick -----

  function AcceptAll(e: EngineState, events: seq<Event>): EngineState
  {
    if events == [] then e
    else
      var before := AcceptAll(e, events[..|events|-1]);
      if before.fault.Some? then before else before.Accept(events[|events|-1])
  }

  /** The deadline scan over identities below `bound`, oldest first. */
  function Expiries(e: EngineState, now: int, bound: nat): EngineState
  {
    if bound == 0 then e
    else
      var before := Expiries(e, now, bound - 1);
      if before.fault.Some? then before else before.Expiry(bound - 1, now)
  }

  /** Expired slots are counted; the live slot becomes a child request or is refused. */
  function GridStep(e: EngineState, now: int, admit: nat -> bool): EngineState {
    if e.cursor > e.grid.total then e.Fault("grid")
    else
      var (next, p) := Poll(e.grid, e.cursor, now);
      var f := e.(cursor := next, books := ExpireSlots(e.books, e.grid, p.expiredLo, p.expiredHi));
      if p.live.None? then f else LiveSlot(f, p.live.value, now, admit)
  }

  function LiveSlot(e: EngineState, index: nat, now: int, admit: nat -> bool): EngineState
  {
    var stage := index % 10;
    var at, next := Time(e.grid, index), Time(e.grid, index + 1);
    var reason := e.limits.Reason(Child, None);
    var (p, token) := if reason.Some? then (e.pool, None) else e.pool.Reserve(stage);
    if token.None? then
      var row := e.MakeRow(CommandAt(stage).Name(), Child, at, next, now, None, None).(stage := StageNo(stage));
      e.Turn(row, if reason.Some? then reason.value else StageBusy)
    else if token.value.task >= TASKS then e.(pool := p).Fault("index")
    else
      var f := e.(pool := p);
      f.Submit(f.PoolRow(token.value, at, next, now), token, admit(f.serial))
  }

  /** One turn of the rotation loop, for task i. */
  function Rotate(e: EngineState, i: nat, now: int, admit: nat -> bool): EngineState
    requires i < TASKS
  {
    var task := e.pool.tasks[i];
    if (task.stage != 10 && task.stage != 11) || task.busy || task.unknown then e
    else if i !in e.limits.rotating && |e.limits.rotating| >= PIPELINES then e
    else
      var (p, token) := e.pool.(next := e.pool.next[task.stage := i]).Reserve(task.stage);
      var f := e.(limits := e.limits.(rotating := e.limits.rotating + {i}), pool := p);
      if token.None? || token.value.task >= TASKS then f.Fault("token")
      else f.Submit(f.PoolRow(token.value, now, Min(e.grid.end, now + RPC_LIMIT), now), token, admit(f.serial))
  }

  function Rotations(e: EngineState, now: int, admit: nat -> bool, bound: nat): EngineState
    requires bound <= TASKS
  {
    if bound == 0 then e
    else
      var before := Rotations(e, now, admit, bound - 1);
      if before.fault.Some? then before else Rotate(before, bound - 1, now, admit)
  }

  // ----- control and query timers -----

  function Interval(c: Channel): nat {
    match c case Batch => 10 case Structure => 60 case _ => 1
  }

  const TIMERS: seq<Channel> := [Batch, Structure, Since, Detail, Status]

  function FirstTimers(): map<Channel, nat> {
    map[Batch := 10, Structure := 60, Since := 0, Detail := 0, Status := 0]
  }

  /** Batches need the large tree, structure changes the two structural variants. */
  predicate Timed(v: Variant, c: Channel) {
    (c == Batch ==> v.Large()) && (c == Structure ==> v.RunL? || v.RunR?)
  }

  function ControlName(v: Variant, c: Channel): string {
    match c
    case Batch => "force"
    case Structure => if v.RunL? then "load" else "replace"
    case Since => "since"
    case Detail => "detail"
    case _ => "status"
  }

  function ControlPath(e: EngineState, c: Channel, target: nat): Option<string> {
    match c
    case Batch => Some("/flow008")
    case Structure => Some(if e.variant.RunR? then "/flow009" else if target == 60 then "/flow010" else "/flow011")
    case Detail => Some(e.pool.tasks[target % TASKS].path)
    case _ => None
  }

  /** One due timer slot: refused as expired, or submitted. */
  function TimerSlot(e: EngineState, c: Channel, target: nat, now: int, admit: nat -> bool): (r: EngineState)
    ensures r.variant == e.variant
  {
    var scheduled := e.grid.start + target * NS;
    var expires := Min(e.grid.end, scheduled + Interval(c) * NS);
    var f := e.(timers := e.timers[c := target + Interval(c)]);
    var row := f.MakeRow(ControlName(e.variant, c), c, scheduled, expires, now, None, ControlPath(e, c, target));
    if now >= expires then f.Turn(row, Expired) else f.Submit(row, None, admit(f.serial))
  }

  function TimerSlots(e: EngineState, c: Channel, target: nat, now: int, admit: nat -> bool): EngineState
    decreases e.variant.Seconds() - target
  {
    if e.fault.Some? || now < e.grid.start + target * NS || target >= e.variant.Seconds() then e
    else TimerSlots(TimerSlot(e, c, target, now, admit), c, target + Interval(c), now, admit)
  }

  function Timer(e: EngineState, c: Channel, now: int, admit: nat -> bool): EngineState {
    if !Timed(e.variant, c) then e
    else if c !in e.timers then e.Fault("key")
    else TimerSlots(e, c, e.timers[c], now, admit)
  }

  function Timers(e: EngineState, now: int, admit: nat -> bool, bound: nat): EngineState
    requires bound <= |TIMERS|
  {
    if bound == 0 then e
    else
      var before := Timers(e, now, admit, bound - 1);
      if before.fault.Some? then before else Timer(before, TIMERS[bound-1], now, admit)
  }

  /** The part of a tick that makes new requests. */
  function Produce(e: EngineState, now: int, admit: nat -> bool): EngineState {
    var a := GridStep(e, now, admit);
    if a.fault.Some? || now >= a.grid.end then a
    else
      var b := Rotations(a, now, admit, TASKS);
      if b.fault.Some? then b else Timers(b, now, admit, |TIMERS|)
  }

  /** `tick`: events, deadlines, the caller's guard, then new requests unless stopped. */
  function Tick(e: EngineState, now: int, events: seq<Event>, guardPasses: bool, admit: nat -> bool): EngineState {
    var a := AcceptAll(e, events);
    if a.fault.Some? then a
    else
      var b := Expiries(a, now, a.serial);
      if b.fault.Some? then b
      else if !guardPasses then b.Fault("guard")
      else if b.stopped.Some? then b
      else Produce(b, now, admit)
  }

  /** `submit_verification`: refused while the grid is running. */
  function SubmitVerification(e: EngineState, now: int, deadline: int, admit: bool): EngineState {
    if e.grid.start <= now < e.grid.end then e.Fault("full verification forbidden during measurement")
    else
      e.Submit(e.MakeRow("full_verify", Verify, now, Min(deadline, now + 60 * NS), now, None, None), None, admit)
  }

  /** A new coordinator over a valid grid and a fresh pool. */
  function Start(variant: Variant, grid: Timetable, pool: PoolState, identities: map<string, Identity>): EngineState {
    EngineState(variant, grid, 0, pool, EMPTY, NewBooks(grid.start), identities, map[], {}, 1,
                None, grid.start, FirstTimers(), None)
  }
}
