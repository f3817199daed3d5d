/** The clock of the virtual-time run: when it wakes, what it misses, and which requests have been answered. */
module VirtualClock {
  import opened Common
  import opened ArrivalGrid

  const SLOTS: nat := 27_000

  type Pauses = seq<(int, int)>

  /** The times of the 27000 slots, and of the end. */
  function SlotAt(i: nat): int { if i < SLOTS then SlotTime(0, 100, true, i) else 180 * NS }

  ghost predicate Standard(g: Timetable) {
    Valid(g) && g.total == SLOTS && forall i: nat | i <= SLOTS :: Time(g, i) == SlotAt(i)
  }

  /** The first slot from the cursor on whose time is at or after the given moment. */
  ghost function Wake(g: Timetable, cursor: nat, at: int): (w: nat)
    requires cursor <= g.total
    ensures cursor <= w <= g.total && (w < g.total ==> Time(g, w) >= at)
    ensures forall i: nat | cursor <= i < w :: Time(g, i) < at
    decreases g.total - cursor
  {
    if cursor == g.total || Time(g, cursor) >= at then cursor else Wake(g, cursor + 1, at)
  }

  /** A turn's moment is the next slot's time, unless a pause has begun by then: that moves it to the pause's end. */
  function Moment(g: Timetable, cursor: nat, pauses: Pauses): (int, Pauses) {
    if pauses != [] && Time(g, cursor) >= pauses[0].0 then (pauses[0].1, pauses[1..]) else (Time(g, cursor), pauses)
  }

  /** A poll never moves the cursor back, and at the time of the next slot it moves on by one, missing nothing. */
  lemma PollMoves(g: Timetable, cursor: nat, now: int)
    requires Valid(g) && cursor < g.total
    ensures Poll(g, cursor, now).0 >= cursor
    ensures now == Time(g, cursor) ==> Poll(g, cursor, now) == (cursor + 1, PollResult(cursor, cursor, Some(cursor)))
  {
    hide Poll, Time;
    PollMeaning(g, cursor, now);
    SlotTimes(g, cursor);
    if now == Time(g, cursor) { PollLive(g, cursor, now, cursor); }
  }

  /** The moments of all turns from the cursor on. */
  ghost function Turns(g: Timetable, cursor: nat, pauses: Pauses): seq<int>
    requires Valid(g) && cursor <= g.total
    decreases |pauses| + g.total - cursor
  {
    if cursor == g.total then []
    else
      var (now, rest) := Moment(g, cursor, pauses);
      PollMoves(g, cursor, now);
      [now] + Turns(g, Poll(g, cursor, now).0, rest)
  }

  /** The slots missed by the polls at the ends of the pauses, added up pause by pause. */
  ghost function Missed(g: Timetable, cursor: nat, pauses: Pauses): nat
    requires cursor <= g.total
    decreases |pauses|
  {
    if pauses == [] then 0
    else
      var w := Wake(g, cursor, pauses[0].0);
      if w == g.total then 0
      else
        var (next, p) := Poll(g, w, pauses[0].1);
        (p.expiredHi - p.expiredLo) + Missed(g, next, pauses[1..])
  }

  /** One turn's share of the missed slots. */
  lemma MissedTurn(g: Timetable, cursor: nat, pauses: Pauses)
    requires Valid(g) && cursor < g.total
    ensures var (now, rest) := Moment(g, cursor, pauses);
            var (next, p) := Poll(g, cursor, now);
            Missed(g, cursor, pauses) == (p.expiredHi - p.expiredLo) + Missed(g, next, rest)
  {
    hide Poll, Time, Valid;
    var (now, rest) := Moment(g, cursor, pauses);
    PollMoves(g, cursor, now);
    if pauses != [] { assert Wake(g, cursor, pauses[0].0) >= cursor; }
  }

  /** The slot's whole window, up to the next slot, lies between the two moments. */
  predicate Inside(i: nat, a: int, b: int) { a <= SlotAt(i) && SlotAt(i + 1) <= b }

  /** A slot's window lies inside a pause exactly if it is between the wake-up slot and what the poll then passes. */
  lemma InsidePause(g: Timetable, a: int, b: int, i: nat)
    requires Standard(g) && i < SLOTS
    ensures var w := Wake(g, 0, a);
            Inside(i, a, b) <==> w < SLOTS && w <= i < Poll(g, w, b).1.expiredHi
  {
    hide Poll, Time, Valid, SlotAt;
    var w := Wake(g, 0, a);
    assert Time(g, i) == SlotAt(i) && Time(g, i + 1) == SlotAt(i + 1);
    if w <= i {
      Increasing(g, w, i);
      PollMeaning(g, w, b);
      if Poll(g, w, b).1.expiredHi <= i { PastPoll(g, w, b, i); }
    }
  }

  /** For one pause, the missed slots are those whose whole window lies inside it. */
  lemma OnePause(g: Timetable, a: int, b: int)
    requires Standard(g)
    ensures Missed(g, 0, [(a, b)]) == |set i: nat | i < SLOTS && Inside(i, a, b)|
  {
    hide Poll, Time, Valid, SlotAt, Inside, Below;
    var inside := set i: nat | i < SLOTS && Inside(i, a, b);
    var w := Wake(g, 0, a);
    assert [(a, b)][1..] == [];
    forall i: nat | i < SLOTS
      ensures Inside(i, a, b) <==> w < SLOTS && w <= i < Poll(g, w, b).1.expiredHi
    {
      InsidePause(g, a, b, i);
    }
    if w == SLOTS {
      assert inside == {};
    } else {
      PollMeaning(g, w, b);
      var hi := Poll(g, w, b).1.expiredHi;
      assert inside == Below(hi) - Below(w);
      RangeSize(w, hi);
    }
  }

  /** What a poll has not passed is not over. */
  lemma PastPoll(g: Timetable, cursor: nat, now: int, i: nat)
    requires Standard(g) && cursor < SLOTS && Poll(g, cursor, now).1.expiredHi <= i < SLOTS
    ensures now < SlotAt(i + 1)
  {
    hide Poll, Time, Valid, SlotAt;
    PollMeaning(g, cursor, now);
    var (next, p) := Poll(g, cursor, now);
    Increasing(g, p.expiredHi, i + 1);
    Increasing(g, p.expiredHi + 1, i + 1);
  }

  lemma RangeSize(lo: nat, hi: nat)
    requires lo <= hi
    ensures |Below(hi) - Below(lo)| == hi - lo
  {
    hide Below;
    BelowSize(lo);
    BelowSize(hi);
    Minus(Below(hi), Below(lo));
  }

  /** A pause from 59 s to 71 s misses 10200 slots: 100, then 10000, then 100. */
  lemma LongPause(g: Timetable)
    requires Standard(g)
    ensures Missed(g, 0, [(59 * NS, 71 * NS)]) == 10_200
  {
    hide Below, Missed;
    OnePause(g, 59 * NS, 71 * NS);
    assert (set i: nat | i < SLOTS && Inside(i, 59 * NS, 71 * NS)) == Below(16_100) - Below(5_900);
    RangeSize(5_900, 16_100);
  }
}

/** The virtual-time run: child requests and their rotations against a simulated clock. */
module VirtualRun {
  import opened Common
  import opened ArrivalGrid
  import opened ReservationPool
  import opened VirtualClock

  /** A request that will be answered at `time`; `number` breaks ties. */
  datatype Entry = Entry(time: int, number: nat, token: Reservation, control: bool)

  datatype Counts = Counts(offered: nat, expired: nat, busy: nat, sent: nat, completed: nat,
                           controlCompleted: nat, notSent: nat, pending: nat)

  // ----- the queue of pending answers, earliest first -----

  predicate Before(a: Entry, b: Entry) { a.time < b.time || (a.time == b.time && a.number < b.number) }

  ghost predicate Sorted(q: seq<Entry>) { forall i, j | 0 <= i < j < |q| :: Before(q[i], q[j]) }

  function Insert(q: seq<Entry>, x: Entry): seq<Entry> {
    if q == [] || Before(x, q[0]) then [x] + q else [q[0]] + Insert(q[1..], x)
  }

  /** How many answers a pending request still stands for: a `complete` is followed by two rotations. */
  function Rank(stage: nat): nat { if stage == 9 then 3 else if stage == 10 then 2 else 1 }

  function Work(q: seq<Entry>): nat { if q == [] then 0 else Rank(q[0].token.stage) + Work(q[1..]) }

  function Children(q: seq<Entry>): nat { if q == [] then 0 else (if q[0].control then 0 else 1) + Children(q[1..]) }

  lemma {:induction false} InsertMeaning(q: seq<Entry>, x: Entry)
    ensures forall e :: e in Insert(q, x) <==> e in q || e == x
    ensures Work(Insert(q, x)) == Work(q) + Rank(x.token.stage)
    ensures Children(Insert(q, x)) == Children(q) + (if x.control then 0 else 1)
  {
    hide Rank;
    if q == [] || Before(x, q[0]) {
      assert ([x] + q)[1..] == q;
    } else {
      InsertMeaning(q[1..], x);
      var rest := Insert(q[1..], x);
      assert ([q[0]] + rest)[1..] == rest;
      assert q == [q[0]] + q[1..];
    }
  }

  lemma {:induction false} InsertSorted(q: seq<Entry>, x: Entry)
    requires Sorted(q) && forall e | e in q :: e.number != x.number
    ensures Sorted(Insert(q, x))
  {
    if q != [] && !Before(x, q[0]) {
      InsertSorted(q[1..], x);
      InsertMeaning(q[1..], x);
      var rest := Insert(q[1..], x);
      forall j | 0 <= j < |rest| ensures Before(q[0], rest[j]) {
        assert rest[j] in rest;
      }
    }
  }

  /** The numbers of the child requests among the entries. */
  ghost function ChildNumbers(q: seq<Entry>): set<nat> { set e | e in q && !e.control :: e.number }

  lemma {:induction false} ChildrenCounted(q: seq<Entry>)
    requires forall i, j | 0 <= i < j < |q| :: q[i].number != q[j].number
    ensures Children(q) == |ChildNumbers(q)|
  {
    if q != [] {
      ChildrenCounted(q[1..]);
      assert q == [q[0]] + q[1..];
      if q[0].control {
        assert ChildNumbers(q) == ChildNumbers(q[1..]);
      } else {
        assert ChildNumbers(q) == ChildNumbers(q[1..]) + {q[0].number};
      }
    }
  }

  // ----- pending requests and the pool -----

  /** Every pending request holds its own task, every busy task is held, and ties are decided by the number. */
  ghost predicate Held(p: PoolState, q: seq<Entry>, number: nat) {
    && p.Sound() && Sorted(q)
    && (forall e | e in q :: p.Current(e.token) && e.number <= number && (e.control <==> e.token.stage >= 10))
    && (forall a, b | a in q && b in q && a.token.task == b.token.task :: a == b)
    && (forall i, j | 0 <= i < j < |q| :: q[i].number != q[j].number)
    && (forall i: nat | i < TASKS ::
          !p.tasks[i].unknown && (p.tasks[i].busy ==> exists e :: e in q && e.token.task == i))
    && (forall i: nat | i < TASKS && p.tasks[i].attempt.Rotated? :: p.tasks[i].attempt.number < number)
    && (forall i: nat | i < TASKS :: !p.tasks[i].attempt.Given?)
  }

  /** No idle task waits for a rotation. */
  ghost predicate Rested(p: PoolState) { forall i: nat | i < TASKS && !p.tasks[i].busy :: p.tasks[i].stage < 10 }

  /** The child stage a task will next be idle at, once its pending requests and rotations are answered. */
  function Ahead(t: SlotTask): nat {
    if t.busy then (if t.stage < 9 then t.stage + 1 else 0) else if t.stage < 10 then t.stage else 0
  }

  ghost predicate SameAhead(p: PoolState, q: PoolState) {
    forall i: nat | i < TASKS :: Ahead(q.tasks[i]) == Ahead(p.tasks[i])
  }

  lemma PopHeld(p: PoolState, q: seq<Entry>, number: nat)
    requires Held(p, q, number) && q != []
    ensures Sorted(q[1..]) && q[0] !in q[1..] && forall e | e in q[1..] :: e in q && e.token.task != q[0].token.task
    ensures forall i, j | 0 <= i < j < |q[1..]| :: q[1..][i].number != q[1..][j].number
  {
    forall k | 1 <= k < |q| ensures q[k].token.task != q[0].token.task && q[k] != q[0] {
      assert q[k].number != q[0].number;
    }
  }

  /** The answer to the earliest request never raises and leaves its task idle at the next stage. */
  lemma AnswerHeld(p: PoolState, q: seq<Entry>, number: nat)
    requires Held(p, q, number) && q != []
    ensures var token := q[0].token;
            var r := p.Finish(token, true, if token.stage == 11 then Some(Rotated(number)) else None);
            && r.Success? && Held(r.value.0, q[1..], number + 1) && token.task < TASKS && token.stage < STAGES
            && r.value.0.tasks[token.task].stage == (token.stage + 1) % STAGES
            && !r.value.0.tasks[token.task].busy && !r.value.0.tasks[token.task].unknown
            && SameAhead(p, r.value.0)
            && (forall i: nat | i < TASKS && i != token.task :: r.value.0.tasks[i] == p.tasks[i])
  {
    hide PoolState.Finish, PoolState.Sound;
    var token := q[0].token;
    var attempt := if token.stage == 11 then Some(Rotated(number)) else None;
    assert q[0] in q;
    CurrentStage(p, token);
    FinishMeaning(p, token, true, attempt);
    PopHeld(p, q, number);
    var after := p.Finish(token, true, attempt).value.0;
    forall e | e in q[1..] ensures after.Current(e.token) {
      assert p.Current(e.token);
    }
    forall i: nat | i < TASKS && after.tasks[i].busy ensures exists e :: e in q[1..] && e.token.task == i {
      var e :| e in q && e.token.task == i;
      assert e != q[0];
      assert e in q[1..];
    }
  }

  /** Reserving an idle task for a new request keeps the pending requests apart. */
  lemma TakenHeld(p: PoolState, q: seq<Entry>, number: nat, i: nat, time: int)
    requires Held(p, q, number) && i < TASKS && p.tasks[i].stage < STAGES && p.Eligible(i, p.tasks[i].stage)
    requires forall e | e in q :: e.number < number
    ensures var stage := p.tasks[i].stage;
            Held(p.Taken(i, stage), Insert(q, Entry(time, number, p.Token(i, stage), stage >= 10)), number)
  {
    hide PoolState.Sound, Insert, Sorted, PoolState.Taken, PoolState.Token, PoolState.Current;
    var stage := p.tasks[i].stage;
    var after := p.Taken(i, stage);
    TakenTask(p, i);
    var x := Entry(time, number, p.Token(i, stage), stage >= 10);
    var rest := Insert(q, x);
    TakenSound(p, i, stage);
    InsertMeaning(q, x);
    InsertSorted(q, x);
    InsertNumbers(q, x);
    forall e | e in q ensures after.Current(e.token) && e.token.task != i {
      StillCurrent(p, e.token, i);
    }
    forall j: nat | j < TASKS && after.tasks[j].busy ensures exists e :: e in rest && e.token.task == j {
      StillHeld(p, q, number, rest, x, j);
    }
  }

  lemma StillCurrent(p: PoolState, token: Reservation, i: nat)
    requires i < TASKS && p.tasks[i].stage < STAGES && p.Eligible(i, p.tasks[i].stage) && p.Current(token) && p.Sound()
    ensures p.Taken(i, p.tasks[i].stage).Current(token) && token.task != i
  {
    TakenTask(p, i);
  }

  lemma TakenTask(p: PoolState, i: nat)
    requires i < TASKS && p.tasks[i].stage < STAGES && p.Eligible(i, p.tasks[i].stage)
    ensures var stage := p.tasks[i].stage;
            var q, token := p.Taken(i, stage), p.Token(i, stage);
            && q.tasks[i] == p.tasks[i].(busy := true, reservation := Some(token)) && q.Current(token)
            && token.task == i && token.stage == stage
            && (forall j: nat | j < TASKS && j != i :: q.tasks[j] == p.tasks[j])
  {
  }

  lemma StillHeld(p: PoolState, q: seq<Entry>, number: nat, rest: seq<Entry>, x: Entry, j: nat)
    requires Held(p, q, number) && (forall e :: e in rest <==> e in q || e == x)
    requires j < TASKS && (j == x.token.task || p.tasks[j].busy)
    ensures exists e :: e in rest && e.token.task == j
  {
    hide PoolState.Sound, Sorted;
    if j == x.token.task {
      assert x in rest;
    } else {
      var e :| e in q && e.token.task == j;
      assert e in rest;
    }
  }

  lemma {:induction false} InsertNumbers(q: seq<Entry>, x: Entry)
    requires forall i, j | 0 <= i < j < |q| :: q[i].number != q[j].number
    requires forall e | e in q :: e.number < x.number
    ensures var r := Insert(q, x);
            forall i, j | 0 <= i < j < |r| :: r[i].number != r[j].number
  {
    if q != [] && !Before(x, q[0]) {
      InsertNumbers(q[1..], x);
      InsertMeaning(q[1..], x);
      var rest := Insert(q[1..], x);
      forall j | 0 <= j < |rest| ensures rest[j].number != q[0].number {
        assert rest[j] in rest;
        assert q[0] in q;
      }
    }
  }

  lemma TakenAhead(p: PoolState, i: nat)
    requires i < TASKS && p.tasks[i].stage < STAGES && p.Eligible(i, p.tasks[i].stage)
    ensures var q, stage := p.Taken(i, p.tasks[i].stage), p.tasks[i].stage;
            && (forall j: nat | j < TASKS && j != i :: q.tasks[j] == p.tasks[j]) && q.tasks[i].busy
            && Ahead(p.tasks[i]) == (if stage < 10 then stage else 0)
            && Ahead(q.tasks[i]) == (if stage < 10 then (stage + 1) % 10 else 0)
  {
  }

  /** One turn of the answering loop: the earliest request is answered and may start a rotation. */
  method Answer(pool: Pool, queue: seq<Entry>, number: nat, now: int, delay: int) returns (rest: seq<Entry>)
    requires queue != [] && Held(pool.State(), queue, number) && Rested(pool.State())
    modifies pool
    ensures Held(pool.State(), rest, number + 1) && Rested(pool.State()) && SameAhead(old(pool.State()), pool.State())
    ensures Work(queue) == Work(rest) + 1
    ensures Children(queue) == Children(rest) + (if queue[0].control then 0 else 1)
    ensures forall e: Entry | !e.control :: e in rest <==> e in queue && e != queue[0]
    ensures forall e | e in rest :: e in queue || e.time == now + delay
  {
    hide Held, PoolState.Finish, PoolState.Eligible, Ahead;
    var token := queue[0].token;
    ghost var before := pool.State();
    AnswerHeld(before, queue, number);
    Earlier(before, queue, number);
    var done := pool.Finish(token, true, if token.stage == 11 then Some(Rotated(number)) else None);
    rest := queue[1..];
    ghost var between := pool.State();
    var stage := pool.tasks[token.task].stage;
    if stage == 10 || stage == 11 {
      rest := StartRotation(pool, rest, number + 1, token.task, now + delay);
    }
    assert queue == [queue[0]] + queue[1..];
  }

  /** The task just answered goes straight on to its next rotation stage. */
  method StartRotation(pool: Pool, queue: seq<Entry>, number: nat, i: nat, time: int) returns (rest: seq<Entry>)
    requires Held(pool.State(), queue, number) && forall e | e in queue :: e.number < number
    requires i < TASKS && 10 <= pool.tasks[i].stage < STAGES && !pool.tasks[i].busy && !pool.tasks[i].unknown
    modifies pool
    ensures Held(pool.State(), rest, number) && SameAhead(old(pool.State()), pool.State()) && pool.tasks[i].busy
    ensures forall j: nat | j < TASKS && j != i :: pool.tasks[j] == old(pool.tasks[j])
    ensures Work(rest) == Work(queue) + Rank(old(pool.tasks[i].stage)) && Children(rest) == Children(queue)
    ensures forall e: Entry | !e.control :: e in rest <==> e in queue
    ensures forall e | e in rest && e.control :: e in queue || e.time == time
  {
    hide Held, PoolState.Reserve, Insert, PoolState.Taken, PoolState.Token, Ahead;
    ghost var before := pool.State();
    var stage := pool.tasks[i].stage;
    ReserveAimed(before, i);
    TakenHeld(before, queue, number, i, time);
    TakenAhead(before, i);
    pool.next := pool.next[stage := i];
    var rotation := pool.Reserve(stage);
    var x := Entry(time, number, rotation.value, true);
    InsertMeaning(queue, x);
    assert rotation.value.stage == stage by { TokenStage(before, i, stage); }
    return Insert(queue, x);
  }

  lemma TokenStage(p: PoolState, i: nat, stage: nat)
    requires i < TASKS
    ensures p.Token(i, stage).stage == stage && p.Token(i, stage).task == i
  {
  }

  lemma Earlier(p: PoolState, q: seq<Entry>, number: nat)
    requires Held(p, q, number) && q != []
    ensures forall e | e in q[1..] :: e.number < number + 1
    ensures q[0].control <==> q[0].token.stage >= 10
    ensures q[0] !in q[1..] && forall i: nat | i < TASKS :: !p.tasks[i].unknown
  {
    PopHeld(p, q, number);
  }

  /**
   Answers everything that is due, including rotations that become due at once: of the child requests
   exactly those stay whose time has not come.
   */
  method AnswerDue(pool: Pool, queue: seq<Entry>, number: nat, now: int, delay: int)
    returns (rest: seq<Entry>, next: nat, children: nat, controls: nat)
    requires Held(pool.State(), queue, number) && Rested(pool.State())
    modifies pool
    ensures Held(pool.State(), rest, next) && Rested(pool.State()) && SameAhead(old(pool.State()), pool.State())
    ensures number <= next
    ensures forall e | e in rest :: e.time > now && (e in queue || e.time == now + delay)
    ensures forall e: Entry | !e.control :: e in rest <==> e in queue && e.time > now
    ensures Children(queue) == Children(rest) + children && Work(queue) == Work(rest) + children + controls
    ensures delay <= 0 && (forall e | e in queue :: e.time <= now) ==> rest == []
  {
    hide Held, Rested, Ahead;
    rest, next, children, controls := queue, number, 0, 0;
    while rest != [] && rest[0].time <= now
      invariant Held(pool.State(), rest, next) && Rested(pool.State()) && number <= next
      invariant SameAhead(old(pool.State()), pool.State())
      invariant Children(queue) == Children(rest) + children && Work(queue) == Work(rest) + children + controls
      invariant forall e | e in rest && !e.control :: e in queue
      invariant forall e | e in rest :: e in queue || e.time == now + delay
      invariant rest != [] ==> rest[0] in rest
      invariant forall e | e in queue && !e.control && e.time > now :: e in rest
      decreases Work(rest)
    {
      var control := rest[0].control;
      rest := Answer(pool, rest, next, now, delay);
      next := next + 1;
      if control {
        controls := controls + 1;
      } else {
        children := children + 1;
      }
    }
    AllLater(pool.State(), rest, next, now);
  }

  lemma AllLater(p: PoolState, q: seq<Entry>, number: nat, now: int)
    requires Held(p, q, number) && (q == [] || q[0].time > now)
    ensures forall e | e in q :: e.time > now
  {
    forall e | e in q ensures e.time > now {
      var k :| 0 <= k < |q| && q[k] == e;
      if k > 0 { assert Before(q[0], q[k]); }
    }
  }

  /** A live slot reserves a task of its stage, or finds none. */
  method SendChild(pool: Pool, queue: seq<Entry>, number: nat, stage: nat, time: int)
    returns (rest: seq<Entry>, next: nat, sent: bool, ghost x: Entry)
    requires Held(pool.State(), queue, number) && Rested(pool.State()) && stage < 10
    modifies pool
    ensures Held(pool.State(), rest, next) && Rested(pool.State()) && next == if sent then number + 1 else number
    ensures sent <==> exists i: nat | i < TASKS :: old(pool.State()).Eligible(i, stage)
    ensures !sent ==> rest == queue && pool.State() == old(pool.State())
    ensures sent ==>
              && x.time == time && x.number == number + 1 && !x.control && x.token.stage == stage
              && x.token.task < TASKS && forall e :: e in rest <==> e in queue || e == x
    ensures sent ==> Children(rest) == Children(queue) + 1 && Work(rest) == Work(queue) + Rank(stage)
    ensures sent ==> Moved(old(pool.State()), pool.State(), x.token.task, stage)
  {
    hide Held, PoolState.Reserve, Insert, PoolState.Taken, PoolState.Token, Rested, Ahead;
    ghost var before := pool.State();
    ReserveMeaning(before, stage);
    var token := pool.Reserve(stage);
    if token.None? {
      return queue, number, false, Entry(0, 0, Reservation(0, 0, 0, Initial(0), ""), true);
    }
    HeldLater(before, queue, number);
    x := Entry(time, number + 1, token.value, false);
    var entry := Entry(time, number + 1, token.value, false);
    assert forall e | e in queue :: e.number < number + 1 by { NumbersBelow(before, queue, number); }
    TakenHeld(before, queue, number + 1, token.value.task, time);
    TakenAhead(before, token.value.task);
    TokenStage(before, token.value.task, stage);
    InsertMeaning(queue, entry);
    assert Rested(pool.State()) by { TakenRested(before, pool.State(), token.value.task); }
    return Insert(queue, entry), number + 1, true, x;
  }

  /** One task's next child stage has moved on by one modulo ten; the others' are as before. */
  ghost predicate Moved(p: PoolState, q: PoolState, i: nat, stage: nat) {
    && i < TASKS && Ahead(p.tasks[i]) == stage && Ahead(q.tasks[i]) == (stage + 1) % 10
    && forall j: nat | j < TASKS && j != i :: Ahead(q.tasks[j]) == Ahead(p.tasks[j])
  }

  lemma TakenRested(p: PoolState, q: PoolState, i: nat)
    requires i < TASKS && Rested(p) && q.tasks[i].busy
    requires forall j: nat | j < TASKS && j != i :: q.tasks[j] == p.tasks[j]
    ensures Rested(q)
  {
  }

  lemma HeldLater(p: PoolState, q: seq<Entry>, number: nat)
    requires Held(p, q, number)
    ensures Held(p, q, number + 1)
  {
    hide PoolState.Sound, Sorted;
  }

  lemma NumbersBelow(p: PoolState, q: seq<Entry>, number: nat)
    requires Held(p, q, number)
    ensures forall e | e in q :: e.number < number + 1
  {
  }

  // ----- the log of a run -----

  /** A child request: the turn that sent it, and its slot. */
  datatype Call = Call(turn: nat, slot: nat)

  /** The moments of the turns so far, and the child requests by number. */
  datatype Log = Log(turns: seq<int>, calls: map<nat, Call>) {

    /** Some turn after the sending one came at or after the answer's time. */
    ghost predicate Replied(n: nat, delay: int)
      requires n in calls
    {
      exists j :: calls[n].turn < j < |turns| && turns[j] >= turns[calls[n].turn] + delay
    }

    /** The requests that are still unanswered. */
    ghost function Open(delay: int): set<nat> { set n | n in calls && !Replied(n, delay) }

    /** The requests of one stage. */
    ghost function Sends(stage: nat): set<nat> { set n | n in calls && calls[n].slot % 10 == stage }
  }

  /** The queue holds exactly the unanswered requests, each with its due time. */
  ghost predicate Tracks(q: seq<Entry>, log: Log, delay: int, number: nat) {
    && (forall n | n in log.calls :: n <= number && log.calls[n].turn < |log.turns|)
    && (forall e | e in q && !e.control ::
          e.number in log.calls && e.time == log.turns[log.calls[e.number].turn] + delay)
    && ChildNumbers(q) == log.Open(delay)
  }

  /** The tasks whose next child stage is the given one. */
  ghost function AheadSet(p: PoolState, stage: nat): set<nat> { set i: nat | i < TASKS && Ahead(p.tasks[i]) == stage }

  /** What a stage has given away and what it has received add up. */
  ghost predicate Even(p: PoolState, log: Log, s: nat) {
    |AheadSet(p, s)| + |log.Sends(s)| == 25 + |log.Sends((s + 9) % 10)|
  }

  ghost predicate Balance(p: PoolState, log: Log) { forall s: nat | s < 10 :: Even(p, log, s) }

  ghost predicate Logged(p: PoolState, q: seq<Entry>, number: nat, log: Log, delay: int) {
    Held(p, q, number) && Rested(p) && Tracks(q, log, delay, number) && Balance(p, log)
  }

  lemma RepliedNext(log: Log, now: int, n: nat, delay: int)
    requires n in log.calls && log.calls[n].turn < |log.turns|
    ensures var after := log.(turns := log.turns + [now]);
            after.Replied(n, delay) <==> log.Replied(n, delay) || now >= log.turns[log.calls[n].turn] + delay
  {
    var after, k := log.(turns := log.turns + [now]), log.calls[n].turn;
    if now >= log.turns[k] + delay {
      assert after.turns[|log.turns|] >= after.turns[k] + delay;
    }
    if log.Replied(n, delay) {
      var j :| k < j < |log.turns| && log.turns[j] >= log.turns[k] + delay;
      assert after.turns[j] >= after.turns[k] + delay;
    }
  }

  /** A turn's answers: what stays in the queue is what has not been answered by this turn. */
  lemma TracksTurn(q: seq<Entry>, rest: seq<Entry>, log: Log, now: int, delay: int, number: nat, next: nat)
    requires Tracks(q, log, delay, number) && number <= next
    requires forall e: Entry | !e.control :: e in rest <==> e in q && e.time > now
    ensures Tracks(rest, log.(turns := log.turns + [now]), delay, next)
  {
    hide Log.Replied;
    var after := log.(turns := log.turns + [now]);
    forall n | n in log.calls ensures n in ChildNumbers(rest) <==> n in after.Open(delay) {
      RepliedNext(log, now, n, delay);
      assert n in ChildNumbers(q) <==> n in log.Open(delay);
      if n in ChildNumbers(q) {
        var e :| e in q && !e.control && e.number == n;
        if e.time > now { assert e in rest; }
      }
    }
    assert ChildNumbers(rest) == after.Open(delay);
  }

  /** A new request joins the queue and the log. */
  lemma TracksSend(q: seq<Entry>, rest: seq<Entry>, log: Log, delay: int, number: nat, x: Entry, slot: nat)
    requires Tracks(q, log, delay, number) && log.turns != []
    requires x.number == number + 1 && !x.control && x.time == log.turns[|log.turns|-1] + delay
    requires forall e :: e in rest <==> e in q || e == x
    ensures Tracks(rest, log.(calls := log.calls[x.number := Call(|log.turns| - 1, slot)]), delay, number + 1)
  {
    var after := log.(calls := log.calls[x.number := Call(|log.turns| - 1, slot)]);
    assert x in rest && x.number in ChildNumbers(rest);
    assert !after.Replied(x.number, delay);
    forall n | n in log.calls ensures after.Replied(n, delay) <==> log.Replied(n, delay) {
    }
    assert ChildNumbers(rest) == ChildNumbers(q) + {x.number};
    assert after.Open(delay) == log.Open(delay) + {x.number};
  }

  lemma BalanceTurn(p: PoolState, q: PoolState, log: Log, now: int)
    requires Balance(p, log) && SameAhead(p, q)
    ensures Balance(q, log.(turns := log.turns + [now]))
  {
    var after := log.(turns := log.turns + [now]);
    forall s: nat | s < 10 ensures Even(q, after, s) {
      assert Even(p, log, s);
      assert AheadSet(q, s) == AheadSet(p, s);
      assert after.Sends(s) == log.Sends(s) && after.Sends((s + 9) % 10) == log.Sends((s + 9) % 10);
    }
  }

  lemma SendsGrow(log: Log, n: nat, call: Call, s: nat)
    requires n !in log.calls
    ensures |log.(calls := log.calls[n := call]).Sends(s)| == |log.Sends(s)| + (if call.slot % 10 == s then 1 else 0)
  {
    var after := log.(calls := log.calls[n := call]);
    assert after.Sends(s) == log.Sends(s) + (if call.slot % 10 == s then {n} else {});
  }

  lemma AheadMoves(p: PoolState, q: PoolState, i: nat, stage: nat, s: nat)
    requires Moved(p, q, i, stage) && stage < 10
    ensures |AheadSet(q, s)| == |AheadSet(p, s)|
              + (if s == (stage + 1) % 10 then 1 else 0) - (if s == stage then 1 else 0)
  {
    hide Ahead;
    if s == stage {
      assert AheadSet(q, s) == AheadSet(p, s) - {i};
    } else if s == (stage + 1) % 10 {
      assert AheadSet(q, s) == AheadSet(p, s) + {i};
    } else {
      assert AheadSet(q, s) == AheadSet(p, s);
    }
  }

  lemma BalanceSend(p: PoolState, q: PoolState, log: Log, n: nat, call: Call, i: nat)
    requires Balance(p, log) && n !in log.calls && Moved(p, q, i, call.slot % 10)
    ensures Balance(q, log.(calls := log.calls[n := call]))
  {
    hide AheadSet, Moved, Log.Sends;
    var after := log.(calls := log.calls[n := call]);
    forall s: nat | s < 10 ensures Even(q, after, s) {
      assert Even(p, log, s);
      SendsGrow(log, n, call, s);
      SendsGrow(log, n, call, (s + 9) % 10);
      AheadMoves(p, q, i, call.slot % 10, s);
    }
  }

  /** The task that a pending child request holds. */
  ghost function Holder(q: seq<Entry>, n: nat): nat
    requires n in ChildNumbers(q)
  {
    var e :| e in q && !e.control && e.number == n; e.token.task
  }

  /** At most 250 child requests are pending, one for each task. */
  lemma PendingBound(p: PoolState, q: seq<Entry>, number: nat)
    requires Held(p, q, number)
    ensures |ChildNumbers(q)| <= TASKS && Children(q) == |ChildNumbers(q)|
  {
    hide PoolState.Sound, Sorted, Below;
    ChildrenCounted(q);
    var keys := ChildNumbers(q);
    var holder := map n | n in keys :: Holder(q, n);
    forall n | n in keys ensures holder[n] in Below(TASKS) {
      var e :| e in q && !e.control && e.number == n && e.token.task == Holder(q, n);
      assert p.Current(e.token);
    }
    forall m, n | m in keys && n in keys && m != n ensures holder[m] != holder[n] {
      var d :| d in q && !d.control && d.number == m && d.token.task == Holder(q, m);
      var e :| e in q && !e.control && e.number == n && e.token.task == Holder(q, n);
    }
    InjectionSize(holder, keys, Below(TASKS));
    BelowSize(TASKS);
  }

  /** Sent by turn k, and no turn up to k came at or after the answer's time. */
  ghost predicate Waiting(log: Log, n: nat, k: nat, delay: int)
    requires n in log.calls && k < |log.turns|
  {
    && log.calls[n].turn <= k
    && forall j | log.calls[n].turn < j <= k :: log.turns[j] < log.turns[log.calls[n].turn] + delay
  }

  /** The requests in flight at turn k. */
  ghost function InFlight(log: Log, k: nat, delay: int): set<nat>
    requires k < |log.turns|
  {
    set n | n in log.calls && Waiting(log, n, k, delay)
  }

  ghost predicate Bounded(log: Log, delay: int) {
    forall k: nat | k < |log.turns| :: |InFlight(log, k, delay)| <= TASKS
  }

  /** One more turn, with the requests it sent. */
  lemma BoundedTurn(log: Log, after: Log, now: int, delay: int)
    requires Bounded(log, delay) && after.turns == log.turns + [now] && |after.Open(delay)| <= TASKS
    requires forall n | n in log.calls :: n in after.calls && after.calls[n] == log.calls[n]
    requires forall n | n in after.calls :: after.calls[n].turn <= |log.turns|
    requires forall n | n in after.calls && n !in log.calls :: after.calls[n].turn == |log.turns|
    ensures Bounded(after, delay)
  {
    forall k: nat | k < |after.turns| ensures |InFlight(after, k, delay)| <= TASKS {
      if k < |log.turns| {
        forall n | n in log.calls ensures Waiting(after, n, k, delay) <==> Waiting(log, n, k, delay) {
          WaitingSame(log, after, n, k, delay);
        }
        assert InFlight(after, k, delay) == InFlight(log, k, delay);
      } else {
        forall n | n in after.calls ensures Waiting(after, n, k, delay) <==> !after.Replied(n, delay) {
        }
        assert InFlight(after, k, delay) == after.Open(delay);
      }
    }
  }

  lemma WaitingSame(log: Log, after: Log, n: nat, k: nat, delay: int)
    requires n in log.calls && n in after.calls && after.calls[n] == log.calls[n]
    requires k < |log.turns| <= |after.turns| && log.turns == after.turns[..|log.turns|]
    ensures Waiting(after, n, k, delay) <==> Waiting(log, n, k, delay)
  {
    if Waiting(after, n, k, delay) {
      forall j | log.calls[n].turn < j <= k ensures log.turns[j] < log.turns[log.calls[n].turn] + delay {
        assert after.turns[j] < after.turns[log.calls[n].turn] + delay;
      }
    }
    if Waiting(log, n, k, delay) {
      forall j | log.calls[n].turn < j <= k ensures after.turns[j] < after.turns[log.calls[n].turn] + delay {
        assert log.turns[j] < log.turns[log.calls[n].turn] + delay;
      }
    }
  }

  /** Each request belongs to the slot that was live when it was sent, and a turn sends at most one. */
  ghost predicate Live(log: Log) {
    && (forall n | n in log.calls ::
          var Call(turn, slot) := log.calls[n];
          turn < |log.turns| && slot < SLOTS && SlotAt(slot) <= log.turns[turn] < SlotAt(slot + 1))
    && (forall m, n | m in log.calls && n in log.calls && m != n :: log.calls[m].turn != log.calls[n].turn)
  }

  lemma LiveSend(log: Log, n: nat, slot: nat)
    requires Live(log) && log.turns != [] && n !in log.calls && slot < SLOTS
    requires SlotAt(slot) <= log.turns[|log.turns|-1] < SlotAt(slot + 1)
    requires forall m | m in log.calls :: log.calls[m].turn < |log.turns| - 1
    ensures Live(log.(calls := log.calls[n := Call(|log.turns| - 1, slot)]))
  {
    hide SlotAt;
  }

  lemma LiveTurn(log: Log, now: int)
    requires Live(log)
    ensures var after := log.(turns := log.turns + [now]);
            Live(after) && forall m | m in after.calls :: after.calls[m].turn < |after.turns| - 1
  {
    hide SlotAt;
  }

  // ----- the run -----

  /** The slots below the cursor that belong to a stage. */
  function SlotsOf(cursor: nat, s: nat): int { (cursor + 9 - s) / 10 }

  lemma SlotsOfNext(cursor: nat, s: nat)
    requires s < 10
    ensures SlotsOf(cursor + 1, s) == SlotsOf(cursor, s) + (if cursor % 10 == s then 1 else 0)
    ensures SlotsOf(cursor, (cursor % 10 + 9) % 10) >= SlotsOf(cursor, cursor % 10)
  {
  }

  /** When every slot so far has been sent and nothing is pending, some task is idle at the next slot's stage. */
  lemma NeverBusy(p: PoolState, log: Log, number: nat, cursor: nat)
    requires Held(p, [], number) && Rested(p) && Balance(p, log)
    requires forall s: nat | s < 10 :: |log.Sends(s)| == SlotsOf(cursor, s)
    ensures exists i: nat :: i < TASKS && p.Eligible(i, cursor % 10)
  {
    hide Log.Sends, PoolState.Sound, SlotsOf;
    var r := cursor % 10;
    assert Even(p, log, r);
    SlotsOfNext(cursor, r);
    assert |AheadSet(p, r)| > 0;
    var i :| i in AheadSet(p, r);
    assert !p.tasks[i].busy;
    assert p.Eligible(i, r);
  }

  /** Without identities every task starts with a generated attempt name, 25 at each child stage. */
  function Initials(): seq<Attempt> { seq(TASKS, i requires 0 <= i => Initial(i)) }

  lemma FreshLogged(paths: seq<string>, delay: int)
    requires |paths| == TASKS && Distinct(paths)
    ensures Logged(Fresh(paths, Initials()).value, [], 0, Log([], map[]), delay)
  {
    var p, log := Fresh(paths, Initials()).value, Log([], map[]);
    assert ChildNumbers([]) == log.Open(delay);
    forall s: nat | s < 10 ensures Even(p, log, s) {
      FreshEven(p, s);
      assert log.Sends(s) == {} && log.Sends((s + 9) % 10) == {};
    }
  }

  lemma FreshEven(p: PoolState, s: nat)
    requires s < 10 && forall i: nat | i < TASKS :: p.tasks[i].stage == i / 25 && !p.tasks[i].busy
    ensures |AheadSet(p, s)| == 25
  {
    hide Below;
    assert AheadSet(p, s) == Below(25 * s + 25) - Below(25 * s);
    RangeSize(25 * s, 25 * s + 25);
  }

  lemma LoggedTurn(p: PoolState, p': PoolState, q: seq<Entry>, rest: seq<Entry>, number: nat, next: nat, log: Log,
                   now: int, delay: int)
    requires Logged(p, q, number, log, delay) && Held(p', rest, next) && Rested(p') && SameAhead(p, p')
    requires number <= next && forall e: Entry | !e.control :: e in rest <==> e in q && e.time > now
    ensures Logged(p', rest, next, log.(turns := log.turns + [now]), delay)
  {
    hide Held, Rested, SameAhead, Tracks, Balance;
    TracksTurn(q, rest, log, now, delay, number, next);
    BalanceTurn(p, p', log, now);
  }

  lemma LoggedSend(p: PoolState, p': PoolState, q: seq<Entry>, rest: seq<Entry>, number: nat, log: Log, delay: int,
                   x: Entry, slot: nat)
    requires Logged(p, q, number, log, delay) && Held(p', rest, number + 1) && Rested(p') && log.turns != []
    requires x.number == number + 1 && !x.control && x.time == log.turns[|log.turns|-1] + delay
    requires Moved(p, p', x.token.task, slot % 10) && forall e :: e in rest <==> e in q || e == x
    ensures x.number !in log.calls
    ensures Logged(p', rest, number + 1, log.(calls := log.calls[x.number := Call(|log.turns| - 1, slot)]), delay)
  {
    hide Held, Rested, Moved, Balance;
    TracksSend(q, rest, log, delay, number, x, slot);
    BalanceSend(p, p', log, x.number, Call(|log.turns| - 1, slot), x.token.task);
  }

  lemma LoggedHeld(p: PoolState, q: seq<Entry>, number: nat, log: Log, delay: int)
    requires Logged(p, q, number, log, delay)
    ensures Held(p, q, number) && Rested(p) && Balance(p, log) && ChildNumbers(q) == log.Open(delay)
    ensures forall n | n in log.calls :: log.calls[n].turn < |log.turns|
  {
  }

  /** Nothing waits, although nothing may be said about the delay of what has just been sent. */
  ghost predicate Prompt(q: seq<Entry>, log: Log, now: int, delay: int, cursor: nat) {
    && delay <= 0 && (forall e | e in q :: e.time <= now)
    && (forall s: nat | s < 10 :: |log.Sends(s)| == SlotsOf(cursor, s))
  }

  /** What one turn did. */
  datatype Deed = Deed(missed: nat, live: Option<nat>, sent: bool, children: nat, controls: nat)

  /** A turn adds itself and what it sent to the log; with nothing left to wait for, it does send. */
  ghost predicate Done(d: Deed, queue: seq<Entry>, rest: seq<Entry>, log: Log, after: Log, now: int, delay: int) {
    && after.turns == log.turns + [now] && (d.sent ==> d.live.Some?)
    && |after.calls| == |log.calls| + (if d.sent then 1 else 0)
    && (forall s: nat | s < 10 ::
          |after.Sends(s)| == |log.Sends(s)| + (if d.sent && d.live.value % 10 == s then 1 else 0))
    && Children(queue) + (if d.sent then 1 else 0) == Children(rest) + d.children
    && Work(queue) + (if !d.sent then 0 else if d.live.value % 10 == 9 then 3 else 1) ==
       Work(rest) + d.children + d.controls
    && (d.live.Some? && Prompt(queue, log, now, delay, d.live.value) ==>
          d.sent && forall e | e in rest :: e.time <= now)
  }

  /** The pool and the queue between the answers and the live slot. */
  datatype Midway = Midway(pool: PoolState, queue: seq<Entry>, number: nat) {

    /** Everything due has been answered, and nothing else; the tasks have not changed their order of work. */
    ghost predicate Answered(before: PoolState, waiting: seq<Entry>, now: int, delay: int) {
      && Held(pool, queue, number) && Rested(pool) && SameAhead(before, pool)
      && (forall e | e in queue :: e.time > now && (e in waiting || e.time == now + delay))
      && (forall e: Entry | !e.control :: e in queue <==> e in waiting && e.time > now)
    }
  }

  /**
   One turn at the given moment: answers, then the poll, then the live slot, which is sent exactly if a task of its
   stage is idle then.
   */
  method TakeTurn(grid: Grid, pool: Pool, queue: seq<Entry>, number: nat, now: int, delay: int, ghost log: Log)
    returns (rest: seq<Entry>, next: nat, d: Deed, ghost after: Log, ghost m: Midway)
    requires grid.Ok() && Standard(grid.table) && grid.cursor < grid.table.total
    requires Logged(pool.State(), queue, number, log, delay) && Live(log) && Bounded(log, delay)
    modifies grid, pool
    ensures grid.Ok()
    ensures var (cursor, p) := Poll(grid.table, old(grid.cursor), now);
            grid.cursor == cursor && d.missed == p.expiredHi - p.expiredLo && d.live == p.live
    ensures Logged(pool.State(), rest, next, after, delay) && Live(after) && Bounded(after, delay)
    ensures Done(d, queue, rest, log, after, now, delay) && m.Answered(old(pool.State()), queue, now, delay)
    ensures d.sent <==> d.live.Some? && exists i: nat | i < TASKS :: m.pool.Eligible(i, d.live.value % 10)
  {
    hide Held, Poll, Time, PoolState.Reserve, Insert, Valid, PoolState.Taken, PoolState.Token, Logged, Live, Bounded;
    hide Log.Sends, Log.Replied, SlotAt, Rested, SlotsOf, Moved, Ahead, PoolState.Eligible, Log.Open, Balance;
    hide SameAhead;
    hide Children, Work, Standard;
    LoggedHeld(pool.State(), queue, number, log, delay);
    ghost var start := pool.State();
    var children, controls;
    rest, next, children, controls := AnswerDue(pool, queue, number, now, delay);
    after := log.(turns := log.turns + [now]);
    LoggedTurn(start, pool.State(), queue, rest, number, next, log, now, delay);
    LiveTurn(log, now);
    SendsTurn(log, now);
    LoggedHeld(pool.State(), rest, next, after, delay);
    LiveInside(grid.table, grid.cursor, now);
    var p := grid.PollAt(now);
    d := Deed(p.expiredHi - p.expiredLo, p.live, false, children, controls);
    ghost var between := pool.State();
    m := Midway(between, rest, next);
    if p.live.Some? {
      if Prompt(queue, log, now, delay, p.live.value) {
        NeverBusy(between, after, next, p.live.value);
      }
      var entries, number' := rest, next;
      var sent;
      ghost var x;
      rest, next, sent, x := SendChild(pool, rest, next, p.live.value % 10, now + delay);
      if sent {
        d := d.(sent := true);
        LoggedSend(between, pool.State(), entries, rest, number', after, delay, x, p.live.value);
        var call := Call(|after.turns| - 1, p.live.value);
        LiveSend(after, x.number, p.live.value);
        forall s: nat | s < 10 ensures |after.(calls := after.calls[x.number := call]).Sends(s)| ==
                                       |after.Sends(s)| + (if p.live.value % 10 == s then 1 else 0) {
          SendsGrow(after, x.number, call, s);
        }
        after := after.(calls := after.calls[x.number := call]);
      }
    }
    LoggedHeld(pool.State(), rest, next, after, delay);
    PendingBound(pool.State(), rest, next);
    BoundedTurn(log, after, now, delay);
  }

  lemma LiveInside(g: Timetable, cursor: nat, now: int)
    requires Standard(g) && cursor <= g.total
    ensures var live := Poll(g, cursor, now).1.live;
            live.Some? ==> live.value < SLOTS && SlotAt(live.value) <= now < SlotAt(live.value + 1)
  {
    hide Time, Poll, SlotAt;
    PollMeaning(g, cursor, now);
  }

  lemma SendsTurn(log: Log, now: int)
    ensures forall s: nat :: log.(turns := log.turns + [now]).Sends(s) == log.Sends(s)
  {
  }

  /** What the log of a finished run says. */
  ghost predicate Faithful(c: Counts, log: Log, left: seq<Entry>, delay: int) {
    && Live(log) && Bounded(log, delay)
    && c.sent == |log.calls| && c.pending == |log.Open(delay)| == Children(left)
    && c.completed == |set n | n in log.calls && log.Replied(n, delay)|
    && c.completed + c.controlCompleted + Work(left) == c.sent + 2 * |log.Sends(9)|
    && (forall s: nat | s < 10 :: Fed(log, s))
  }

  /** A stage cannot send more than it had and got from the stage before it. */
  ghost predicate Fed(log: Log, s: nat) { |log.Sends(s)| <= 25 + |log.Sends((s + 9) % 10)| }

  /**
   The whole run ends for every delay and every finite list of pauses, and accounts for every slot: each of the
   27000 is sent, missed during a pause, or refused for want of an idle task of its stage. A request sent at t is
   answered at the first later turn at or after t + delay. Without delay and pauses every slot is sent.
   */
  method Simulate(paths: seq<string>, delay: int, pauses: Pauses)
    returns (c: Counts, ghost g: Timetable, ghost log: Log, ghost left: seq<Entry>)
    requires |paths| == TASKS && Distinct(paths)
    ensures c.offered == 27000 == c.sent + c.expired + c.busy && c.notSent == c.expired + c.busy
    ensures c.sent == c.completed + c.pending
    ensures Standard(g) && log.turns == Turns(g, 0, pauses) && c.expired == Missed(g, 0, pauses)
    ensures Faithful(c, log, left, delay)
    ensures pauses == [] ==> c.expired == 0
    ensures |pauses| == 1 ==> c.expired == |set i: nat | i < SLOTS && Inside(i, pauses[0].0, pauses[0].1)|
    ensures pauses == [] && delay <= 0 ==> c.sent == 27000
    ensures pauses == [] && delay >= 2 * NS ==> c.sent <= 25_250
  {
    hide Held, Poll, Time, Valid, Logged, Live, Bounded, Turns, Missed, Log.Sends, Log.Open, Children, Inside, Faithful;
    hide Going, Done;
    var built := Build(0, 180, 100, true);
    var grid := new Grid(built.value);
    g := grid.table;
    var pool := new Pool(Fresh(paths, Initials()).value);
    FreshLogged(paths, delay);
    StandardGrid(g);
    log := Log([], map[]);
    FirstTurn(g, pauses, delay);
    var queue: seq<Entry>, number, now, pause := [], 0, 0, 0;
    c := Counts(0, 0, 0, 0, 0, 0, 0, 0);
    assert pauses[0..] == pauses;
    while grid.cursor < grid.table.total
      invariant grid.Ok() && 0 <= pause <= |pauses| && now == Time(g, grid.cursor)
      invariant Logged(pool.State(), queue, number, log, delay) && Live(log) && Bounded(log, delay)
      invariant Going(g, c, grid.cursor, queue, log, pauses, pauses[pause..], delay)
      decreases grid.table.total - grid.cursor + |pauses| - pause
    {
      ghost var cursor, before, counts, pending, left := grid.cursor, log, c, queue, pauses[pause..];
      if pause < |pauses| && now >= pauses[pause].0 {
        now := pauses[pause].1;
        pause := pause + 1;
      }
      assert Moment(g, cursor, left) == (now, pauses[pause..]);
      var d;
      ghost var m;
      queue, number, d, log, m := TakeTurn(grid, pool, queue, number, now, delay, log);
      c := c.(completed := c.completed + d.children, controlCompleted := c.controlCompleted + d.controls);
      c := c.(offered := c.offered + d.missed, expired := c.expired + d.missed);
      if d.live.Some? {
        c := c.(offered := c.offered + 1);
        c := if d.sent then c.(sent := c.sent + 1) else c.(busy := c.busy + 1);
      }
      GoOn(g, counts, c, cursor, pending, queue, before, log, pauses, left, delay, d);
      now := Time(grid.table, grid.cursor);
    }
    ghost var counts := c;
    c := c.(notSent := c.expired + c.busy, pending := Children(queue));
    left := queue;
    RunFaithful(counts, c, g, log, pool.State(), left, number, pauses, pauses[pause..], delay);
    if |pauses| == 1 { OnePauseOf(g, pauses); }
    if pauses == [] && delay >= 2 * NS { SlowIsBusy(c, g, log, left, delay); }
  }

  /** The counters agree with the cursor, the log and the queue. */
  ghost predicate Booked(c: Counts, cursor: nat, log: Log, queue: seq<Entry>) {
    && c.offered == cursor == c.sent + c.expired + c.busy
    && c.sent == |log.calls| == c.completed + Children(queue)
    && c.completed + c.controlCompleted + Work(queue) == c.sent + 2 * |log.Sends(9)|
  }

  /** How far a run has got: its counters, and what is left of its turns and of the slots it will miss. */
  ghost predicate Going(g: Timetable, c: Counts, cursor: nat, queue: seq<Entry>, log: Log, pauses: Pauses, left: Pauses,
                        delay: int) {
    && Standard(g) && cursor <= g.total && Booked(c, cursor, log, queue)
    && c.expired + Missed(g, cursor, left) == Missed(g, 0, pauses)
    && log.turns + Turns(g, cursor, left) == Turns(g, 0, pauses)
    && (delay <= 0 && pauses == [] ==> left == [] && c.busy == 0 && Prompt(queue, log, Time(g, cursor), delay, cursor))
  }

  function Tallied(c: Counts, d: Deed): Counts {
    c.(completed := c.completed + d.children, controlCompleted := c.controlCompleted + d.controls,
       expired := c.expired + d.missed, offered := c.offered + d.missed + (if d.live.Some? then 1 else 0),
       sent := c.sent + (if d.sent && d.live.Some? then 1 else 0),
       busy := c.busy + (if d.live.Some? && !d.sent then 1 else 0))
  }

  /** One turn takes the run a step further. */
  lemma GoOn(g: Timetable, b: Counts, c: Counts, cursor: nat, pending: seq<Entry>, queue: seq<Entry>, log: Log,
             after: Log, pauses: Pauses, left: Pauses, delay: int, d: Deed)
    requires Going(g, b, cursor, pending, log, pauses, left, delay) && cursor < g.total && c == Tallied(b, d)
    requires var (now, rest) := Moment(g, cursor, left);
             var p := Poll(g, cursor, now).1;
             && d.missed == p.expiredHi - p.expiredLo && d.live == p.live
             && Done(d, pending, queue, log, after, now, delay)
    ensures var (now, rest) := Moment(g, cursor, left);
            var next := Poll(g, cursor, now).0;
            && Going(g, c, next, queue, after, pauses, rest, delay)
            && cursor <= next && (rest == left ==> cursor < next)
  {
    hide Poll, Time, Valid, Missed, Turns, Log.Sends, Children, Work, SlotAt, Prompt;
    var (now, rest) := Moment(g, cursor, left);
    NextTurn(g, cursor, left);
    var next := Poll(g, cursor, now).0;
    assert log.turns + ([now] + Turns(g, next, rest)) == (log.turns + [now]) + Turns(g, next, rest);
    if delay <= 0 && pauses == [] { StillPrompt(g, log, after, pending, queue, now, delay, cursor); }
  }

  lemma FirstTurn(g: Timetable, pauses: Pauses, delay: int)
    requires Standard(g)
    ensures Live(Log([], map[])) && Bounded(Log([], map[]), delay)
    ensures Going(g, Counts(0, 0, 0, 0, 0, 0, 0, 0), 0, [], Log([], map[]), pauses, pauses, delay)
  {
    hide Time, Turns, Missed;
    assert forall s: nat :: Log([], map[]).Sends(s) == {};
    assert [] + Turns(g, 0, pauses) == Turns(g, 0, pauses);
  }

  lemma StandardGrid(g: Timetable)
    requires Valid(g) && g.total == SLOTS && g.end == 180 * NS && g.start == 0
    requires forall i: nat | i < g.total :: Time(g, i) == SlotTime(0, 100, true, i)
    ensures Standard(g) && Time(g, 0) == 0
  {
    hide Time, SlotTime;
    EndTime(g);
    StartTime(g);
  }

  /** The turn that is about to be taken, split off from the rest of the run. */
  lemma NextTurn(g: Timetable, cursor: nat, pauses: Pauses)
    requires Standard(g) && cursor < g.total
    ensures var (now, rest) := Moment(g, cursor, pauses);
            var (next, p) := Poll(g, cursor, now);
            && cursor <= next
            && (rest == pauses ==> next == cursor + 1 && p == PollResult(cursor, cursor, Some(cursor)))
            && next - cursor == p.expiredHi - p.expiredLo + (if p.live.Some? then 1 else 0)
            && Missed(g, cursor, pauses) == (p.expiredHi - p.expiredLo) + Missed(g, next, rest)
            && Turns(g, cursor, pauses) == [now] + Turns(g, next, rest)
  {
    hide Poll, Time, Valid, Missed;
    var (now, rest) := Moment(g, cursor, pauses);
    PollMeaning(g, cursor, now);
    PollMoves(g, cursor, now);
    MissedTurn(g, cursor, pauses);
  }

  lemma StillPrompt(g: Timetable, before: Log, log: Log, pending: seq<Entry>, queue: seq<Entry>, moment: int,
                    delay: int, cursor: nat)
    requires Standard(g) && cursor < g.total && moment == Time(g, cursor)
    requires Prompt(pending, before, moment, delay, cursor) && forall e | e in queue :: e.time <= moment
    requires forall s: nat | s < 10 :: |log.Sends(s)| == |before.Sends(s)| + (if cursor % 10 == s then 1 else 0)
    ensures Prompt(queue, log, Time(g, cursor + 1), delay, cursor + 1)
  {
    hide Time, Valid, Log.Sends, SlotsOf, SlotAt;
    SlotTimes(g, cursor);
    forall s: nat | s < 10 ensures |log.Sends(s)| == SlotsOf(cursor + 1, s) {
      SlotsOfNext(cursor, s);
    }
  }

  lemma OnePauseOf(g: Timetable, pauses: Pauses)
    requires Standard(g) && |pauses| == 1
    ensures Missed(g, 0, pauses) == |set i: nat | i < SLOTS && Inside(i, pauses[0].0, pauses[0].1)|
  {
    hide Missed, Inside;
    OnePause(g, pauses[0].0, pauses[0].1);
    assert pauses == [(pauses[0].0, pauses[0].1)];
  }

  /** The end of a run. */
  lemma RunFaithful(b: Counts, c: Counts, g: Timetable, log: Log, p: PoolState, left: seq<Entry>, number: nat,
                    pauses: Pauses, rest: Pauses, delay: int)
    requires Logged(p, left, number, log, delay) && Live(log) && Bounded(log, delay)
    requires Going(g, b, SLOTS, left, log, pauses, rest, delay)
    requires c == b.(notSent := b.expired + b.busy, pending := Children(left))
    ensures c.offered == SLOTS == c.sent + c.expired + c.busy && c.sent == c.completed + c.pending
    ensures log.turns == Turns(g, 0, pauses) && c.expired == Missed(g, 0, pauses)
    ensures Faithful(c, log, left, delay)
    ensures pauses == [] ==> c.expired == 0 && (delay <= 0 ==> c.sent == SLOTS)
  {
    hide Held, Live, Bounded, Log.Replied, Rested, Log.Sends, AheadSet, Work, Prompt, Turns, Missed, Valid, Time;
    hide Log.Open, ChildNumbers, Children, Logged, Even, SlotAt;
    LoggedHeld(p, left, number, log, delay);
    PendingBound(p, left, number);
    Ended(g, pauses, rest);
    RepliedSize(log, delay);
    forall s: nat | s < 10 ensures Fed(log, s) {
      EvenFed(p, log, s);
    }
  }

  lemma Ended(g: Timetable, pauses: Pauses, rest: Pauses)
    requires Standard(g)
    ensures Turns(g, SLOTS, rest) == [] && Missed(g, SLOTS, rest) == 0
    ensures pauses == [] ==> Missed(g, 0, pauses) == 0
  {
  }

  lemma RepliedSize(log: Log, delay: int)
    ensures |set n | n in log.calls && log.Replied(n, delay)| == |log.calls| - |log.Open(delay)|
  {
    hide Log.Replied;
    var replied := set n | n in log.calls && log.Replied(n, delay);
    assert log.calls.Keys == replied + log.Open(delay);
    assert replied !! log.Open(delay);
  }

  lemma EvenFed(p: PoolState, log: Log, s: nat)
    requires Even(p, log, s)
    ensures Fed(log, s)
  {
  }

  // ----- a slow service -----

  /** Without pauses, turn k is slot k. */
  lemma {:induction false} PlainTurns(g: Timetable, cursor: nat)
    requires Standard(g) && cursor <= SLOTS
    ensures var turns := Turns(g, cursor, []);
            |turns| == SLOTS - cursor && forall k | 0 <= k < |turns| :: turns[k] == SlotAt(cursor + k)
    decreases SLOTS - cursor
  {
    hide Poll, Time, Valid, SlotAt;
    if cursor < SLOTS {
      PollMoves(g, cursor, Time(g, cursor));
      PlainTurns(g, cursor + 1);
      var rest := Turns(g, cursor + 1, []);
      assert Turns(g, cursor, []) == [Time(g, cursor)] + rest;
      forall k | 0 <= k < SLOTS - cursor ensures ([Time(g, cursor)] + rest)[k] == SlotAt(cursor + k) {
        if k > 0 { assert rest[k - 1] == SlotAt(cursor + 1 + (k - 1)); }
      }
    }
  }

  /** The requests sent by the turns of the given range. */
  ghost function SentIn(log: Log, turns: set<nat>): set<nat> { set n | n in log.calls && log.calls[n].turn in turns }

  lemma SentInSize(log: Log, turns: set<nat>)
    requires Live(log)
    ensures |SentIn(log, turns)| <= |turns|
  {
    hide SlotAt;
    InjectionSize(map n | n in SentIn(log, turns) :: log.calls[n].turn, SentIn(log, turns), turns);
  }

  /**
   With answers after two seconds or more, the burst overruns the pool: of the 2000 slots of its first two
   seconds at most 250 are sent.
   */
  lemma SlowIsBusy(c: Counts, g: Timetable, log: Log, left: seq<Entry>, delay: int)
    requires Standard(g) && log.turns == Turns(g, 0, []) && Faithful(c, log, left, delay) && delay >= 2 * NS
    ensures c.sent <= 25_250
  {
    hide Turns, Log.Sends, Log.Open, Log.Replied, Children, Work, Below, Standard, SlotAt, Live, SentIn, Waiting;
    var burst := Below(8_000) - Below(6_000);
    var others := Below(SLOTS) - burst;
    PlainTurns(g, 0);
    BurstSent(log, delay, burst);
    SentInSize(log, others);
    RangeSize(6_000, 8_000);
    BelowSize(SLOTS);
    Minus(Below(SLOTS), burst);
    SentSplit(log, burst, others);
  }

  lemma SentSplit(log: Log, burst: set<nat>, others: set<nat>)
    requires Live(log) && |log.turns| == SLOTS && others == Below(SLOTS) - burst
    ensures |log.calls| <= |SentIn(log, burst)| + |SentIn(log, others)|
  {
    hide Below, SlotAt;
    var a, b := SentIn(log, burst), SentIn(log, others);
    assert log.calls.Keys == a + b;
    assert |a + b| == |a| + |b| - |a * b|;
  }

  lemma BurstSent(log: Log, delay: int, burst: set<nat>)
    requires Bounded(log, delay) && delay >= 2 * NS && forall k: nat | k in burst :: 6_000 <= k < 8_000
    requires |log.turns| == SLOTS && forall k | 0 <= k < SLOTS :: log.turns[k] == SlotAt(k)
    ensures |SentIn(log, burst)| <= TASKS
  {
    hide SlotAt, Waiting;
    var early, flying := SentIn(log, burst), InFlight(log, 7_999, delay);
    forall n | n in early ensures n in flying {
      BurstWaits(log, n, delay);
    }
    SubsetSize(early, flying);
  }

  lemma BurstWaits(log: Log, n: nat, delay: int)
    requires n in log.calls && 6_000 <= log.calls[n].turn < 8_000 && delay >= 2 * NS
    requires |log.turns| == SLOTS && forall k | 0 <= k < SLOTS :: log.turns[k] == SlotAt(k)
    ensures Waiting(log, n, 7_999, delay)
  {
  }
}
