/**
 The accounting ledger: one current entry per open request, and counters kept in total and
 split by second, operation, stage, flow and role.
 */
module AccountingLedger {
  import opened Common
  import opened Channels
  import opened ArrivalGrid
  import ReservationPool

  const BUFFER: nat := 256

  datatype StageKey = StageNo(n: nat) | StageName(name: string)

  /** The part of a row the counters look at. */
  datatype Cell = Cell(second: int, operation: string, stage: StageKey, flow: string, role: Role)

  datatype Row = Row(id: nat, operation: string, channel: Channel, scheduled: int, expires: int, dispatched: int,
                     second: int, stage: StageKey, path: Option<string>, flow: string,
                     attempt: Option<ReservationPool.Attempt>) {

    /** The row's cell, counted in the given second. */
    function CellAt(when: int): Cell { Cell(when, operation, stage, flow, channel.Role()) }

    function Own(): Cell { CellAt(second) }
  }

  datatype Outcome = Succeeded | Erred | TimedOut | Lost | InvalidEffect

  datatype Metric =
    | Offered | Sent | NotSent | Completed | Late | Effective | Timeout | Unknown
    | RpcCompleted | RpcFailed | Refused(why: Refusal) | Ended(how: Outcome)

  /** The metric an outcome is counted under; timeouts and lost replies share a metric with the deadline scan. */
  function MetricOf(o: Outcome): Metric {
    match o
    case TimedOut => Timeout
    case Lost => Unknown
    case _ => Ended(o)
  }

  /** One metric: its total and its five marginals, each a bag of keys. */
  function Add<T>(m: multiset<T>, x: T, n: nat): multiset<T> { m[x := m[x] + n] }

  datatype Tally = Tally(total: nat, seconds: multiset<int>, operations: multiset<string>,
                         stages: multiset<StageKey>, flows: multiset<string>, roles: multiset<Role>) {

    function Plus(c: Cell, n: nat): Tally {
      Tally(total + n,
            Add(seconds, c.second, n),
            Add(operations, c.operation, n),
            Add(stages, c.stage, n),
            Add(flows, c.flow, n),
            Add(roles, c.role, n))
    }

    /** Every marginal adds up to the total. */
    ghost predicate Marginal() {
      |seconds| == |operations| == |stages| == |flows| == |roles| == total
    }
  }

  const ZERO: Tally := Tally(0, multiset{}, multiset{}, multiset{}, multiset{}, multiset{})

  datatype Status = Dispatched | OnWire(at: int)

  datatype Entry = Entry(row: Row, status: Status)

  datatype Books = Books(start: int, tallies: map<Metric, Tally>, active: map<nat, Entry>) {

    function Of(m: Metric): Tally { if m in tallies then tallies[m] else ZERO }

    function Bump(m: Metric, c: Cell, n: nat): Books {
      this.(tallies := tallies[m := Of(m).Plus(c, n)])
    }

    function Second(now: int): int { (now - start) / NS }

    function Offer(row: Row): Books { Bump(Offered, row.Own(), 1) }

    function Dispatch(row: Row): Result<Books, string> {
      if |active| >= BUFFER || row.id in active then Failure("request buffer exceeded")
      else Success(this.(active := active[row.id := Entry(row, Dispatched)]))
    }

    function Withhold(row: Row, why: Refusal): Books {
      this.(active := active - {row.id}).Bump(NotSent, row.Own(), 1).Bump(Refused(why), row.Own(), 1)
    }

    function Send(rid: nat, now: int): Result<Books, string> {
      if rid !in active then Failure("key")
      else
        var row := active[rid].row;
        if active[rid].status != Dispatched || now >= row.expires then Failure("duplicate or expired transport send")
        else
          var cell := row.CellAt(Second(now));
          var sent := this.(active := active[rid := Entry(row, OnWire(now))]).Bump(Sent, cell, 1);
          Success(if now - row.scheduled >= 10_000_000 then sent.Bump(Late, cell, 1) else sent)
    }

    function Complete(rid: nat, now: int, outcome: Outcome, effective: bool): Result<Books, string> {
      if rid !in active then Failure("key")
      else
        var Entry(row, status) := active[rid];
        if status == Dispatched || now < status.at then Failure("completion without transport send")
        else
          var cell := row.CellAt(Second(now));
          var closed := this.(active := active - {rid}).Bump(Completed, cell, 1).Bump(MetricOf(outcome), cell, 1);
          Success(if effective then closed.Bump(Effective, cell, 1) else closed)
    }

    /** How often the metric was counted for the role. */
    function Count(m: Metric, role: Role): nat { Of(m).roles[role] }

    /** For the role: offered = sent + not sent + dispatched (+ owed), and sent = completed + pending. */
    ghost predicate RoleClosed(role: Role, owed: nat) {
      && Count(Offered, role) == Count(Sent, role) + Count(NotSent, role) + |Pending(active, role, false)| + owed
      && Count(Sent, role) == Count(Completed, role) + |Pending(active, role, true)|
    }

    ghost predicate Marginals() {
      forall m | m in tallies :: tallies[m].Marginal()
    }

    /** `owed` names a role whose latest offer has not been answered yet. */
    ghost predicate Balanced(owed: Option<Role>) {
      (forall role: Role :: RoleClosed(role, Debt(owed, role))) && Marginals()
    }
  }

  /** Open requests of a role, on the wire or still waiting for the transport. */
  ghost function Pending(active: map<nat, Entry>, role: Role, sent: bool): set<nat> {
    set r | r in active && IsPending(active[r], role, sent)
  }

  ghost predicate IsPending(e: Entry, role: Role, sent: bool) {
    e.row.channel.Role() == role && (e.status != Dispatched) == sent
  }

  ghost function Debt(owed: Option<Role>, role: Role): nat { if owed == Some(role) then 1 else 0 }

  function NewBooks(start: int): Books { Books(start, map[], map[]) }

  lemma NewBalanced(start: int)
    ensures NewBooks(start).Balanced(None)
  {
  }

  // ----- one step of the ledger keeps the books balanced -----

  lemma BumpMarginals(b: Books, m: Metric, c: Cell, n: nat)
    requires b.Marginals()
    ensures b.Bump(m, c, n).Marginals()
  {
  }

  lemma BumpFrame(b: Books, m: Metric, c: Cell, n: nat)
    ensures b.Bump(m, c, n).active == b.active && b.Bump(m, c, n).start == b.start
  {
  }

  lemma BumpElse(b: Books, m: Metric, c: Cell, k: Metric)
    ensures k != m ==> b.Bump(m, c, 1).Of(k) == b.Of(k)
  {
  }

  lemma BumpCount(b: Books, m: Metric, c: Cell, n: nat, k: Metric, role: Role)
    ensures b.Bump(m, c, n).Count(k, role) == b.Count(k, role) + (if k == m && role == c.role then n else 0)
    ensures b.Bump(m, c, n).active == b.active
  {
  }

  lemma BumpCounts(b: Books, m: Metric, c: Cell, n: nat, role: Role)
    ensures var d := b.Bump(m, c, n);
            var add := if role == c.role then n else 0;
            && d.Count(Offered, role) == b.Count(Offered, role) + (if m == Offered then add else 0)
            && d.Count(Sent, role) == b.Count(Sent, role) + (if m == Sent then add else 0)
            && d.Count(NotSent, role) == b.Count(NotSent, role) + (if m == NotSent then add else 0)
            && d.Count(Completed, role) == b.Count(Completed, role) + (if m == Completed then add else 0)
            && d.active == b.active
  {
    hide Books.Bump, Books.Count;
    BumpCount(b, m, c, n, Offered, role);
    BumpCount(b, m, c, n, Sent, role);
    BumpCount(b, m, c, n, NotSent, role);
    BumpCount(b, m, c, n, Completed, role);
  }

  /** Counters other than the four of the balance are free. */
  lemma BumpOther(b: Books, m: Metric, c: Cell, n: nat, owed: Option<Role>)
    requires b.Balanced(owed) && m != Offered && m != Sent && m != NotSent && m != Completed
    ensures b.Bump(m, c, n).Balanced(owed)
  {
    hide Books.Bump, Books.Count, Books.Marginals, Debt;
    BumpMarginals(b, m, c, n);
    forall role: Role ensures b.Bump(m, c, n).RoleClosed(role, Debt(owed, role)) {
      BumpCounts(b, m, c, n, role);
      assert b.RoleClosed(role, Debt(owed, role));
    }
  }

  lemma OfferBalanced(b: Books, row: Row)
    requires b.Balanced(None)
    ensures b.Offer(row).Balanced(Some(row.channel.Role()))
  {
    hide Books.Bump, Books.Count, Books.Marginals, Channel.Role;
    var owed := Some(row.channel.Role());
    BumpMarginals(b, Offered, row.Own(), 1);
    forall role: Role ensures b.Offer(row).RoleClosed(role, Debt(owed, role)) {
      BumpCounts(b, Offered, row.Own(), 1, role);
      assert b.RoleClosed(role, Debt(None, role));
    }
  }

  lemma PendingAdded(active: map<nat, Entry>, rid: nat, row: Row, role: Role, sent: bool)
    requires rid !in active
    ensures |Pending(active[rid := Entry(row, Dispatched)], role, sent)| ==
            |Pending(active, role, sent)| + (if row.channel.Role() == role && !sent then 1 else 0)
  {
    var after := Pending(active[rid := Entry(row, Dispatched)], role, sent);
    assert IsPending(Entry(row, Dispatched), role, sent) <==> row.channel.Role() == role && !sent;
    hide Channel.Role, IsPending;
    if row.channel.Role() == role && !sent {
      assert after == Pending(active, role, sent) + {rid};
    } else {
      assert after == Pending(active, role, sent);
    }
  }

  lemma PendingRemoved(active: map<nat, Entry>, rid: nat, role: Role, sent: bool)
    ensures |Pending(active - {rid}, role, sent)| ==
            |Pending(active, role, sent)| - (if rid in Pending(active, role, sent) then 1 else 0)
  {
    hide IsPending;
    assert Pending(active - {rid}, role, sent) == Pending(active, role, sent) - {rid};
  }

  lemma PendingSent(active: map<nat, Entry>, rid: nat, now: int, role: Role, sent: bool)
    requires rid in active && active[rid].status == Dispatched
    ensures |Pending(active[rid := Entry(active[rid].row, OnWire(now))], role, sent)| ==
            |Pending(active, role, sent)|
              + (if active[rid].row.channel.Role() != role then 0 else if sent then 1 else -1)
  {
    var after := Pending(active[rid := Entry(active[rid].row, OnWire(now))], role, sent);
    assert IsPending(Entry(active[rid].row, OnWire(now)), role, sent) <==>
             active[rid].row.channel.Role() == role && sent;
    assert IsPending(active[rid], role, sent) <==> active[rid].row.channel.Role() == role && !sent;
    hide Channel.Role, IsPending;
    if active[rid].row.channel.Role() != role {
      assert after == Pending(active, role, sent);
    } else if sent {
      assert after == Pending(active, role, sent) + {rid};
    } else {
      assert after == Pending(active, role, sent) - {rid};
    }
  }

  lemma DispatchBalanced(b: Books, row: Row)
    requires b.Balanced(Some(row.channel.Role())) && b.Dispatch(row).Success?
    ensures b.Dispatch(row).value.Balanced(None)
  {
    hide Channel.Role, Books.Count, Books.Marginals, Pending;
    var d := b.Dispatch(row).value;
    MarginalsFrame(b, d.active);
    forall role: Role ensures d.RoleClosed(role, Debt(None, role)) {
      assert b.RoleClosed(role, Debt(Some(row.channel.Role()), role));
      CountFrame(b, d.active, role);
      PendingAdded(b.active, row.id, row, role, false);
      PendingAdded(b.active, row.id, row, role, true);
    }
  }

  /** `not_sent` answers an offer: a fresh one that was never dispatched, or a dispatched one. */
  lemma WithholdBalanced(b: Books, row: Row, why: Refusal)
    requires row.id in b.active ==> b.active[row.id] == Entry(row, Dispatched) && b.Balanced(None)
    requires row.id !in b.active ==> b.Balanced(Some(row.channel.Role()))
    ensures b.Withhold(row, why).Balanced(None)
  {
    hide Books.Bump, Books.Count, Books.Marginals, Channel.Role;
    var a := b.(active := b.active - {row.id});
    var owed := if row.id in b.active then None else Some(row.channel.Role());
    assert a.Marginals() by { assert b.Marginals(); MarginalsFrame(b, a.active); }
    var d := a.Bump(NotSent, row.Own(), 1);
    BumpMarginals(a, NotSent, row.Own(), 1);
    forall role: Role ensures d.RoleClosed(role, Debt(None, role)) {
      assert b.RoleClosed(role, Debt(owed, role));
      CountFrame(b, a.active, role);
      BumpCounts(a, NotSent, row.Own(), 1, role);
      PendingRemoved(b.active, row.id, role, false);
      PendingRemoved(b.active, row.id, role, true);
    }
    BumpOther(d, Refused(why), row.Own(), 1, None);
  }

  /** Counters do not look at the open requests. */
  lemma CountFrame(b: Books, active: map<nat, Entry>, role: Role)
    ensures forall m :: b.(active := active).Count(m, role) == b.Count(m, role)
  {
  }

  lemma MarginalsFrame(b: Books, active: map<nat, Entry>)
    requires b.Marginals()
    ensures b.(active := active).Marginals()
  {
  }

  lemma SendBalanced(b: Books, rid: nat, now: int)
    requires b.Balanced(None) && b.Send(rid, now).Success?
    ensures b.Send(rid, now).value.Balanced(None)
  {
    hide Books.Bump, Books.Count, Books.Marginals, Channel.Role;
    var row := b.active[rid].row;
    var cell := row.CellAt(b.Second(now));
    var a := b.(active := b.active[rid := Entry(row, OnWire(now))]);
    MarginalsFrame(b, a.active);
    var d := a.Bump(Sent, cell, 1);
    BumpMarginals(a, Sent, cell, 1);
    forall role: Role ensures d.RoleClosed(role, Debt(None, role)) {
      assert b.RoleClosed(role, Debt(None, role));
      CountFrame(b, a.active, role);
      BumpCounts(a, Sent, cell, 1, role);
      PendingSent(b.active, rid, now, role, false);
      PendingSent(b.active, rid, now, role, true);
    }
    BumpOther(d, Late, cell, 1, None);
  }

  lemma CompleteBalanced(b: Books, rid: nat, now: int, outcome: Outcome, effective: bool)
    requires b.Balanced(None) && b.Complete(rid, now, outcome, effective).Success?
    ensures b.Complete(rid, now, outcome, effective).value.Balanced(None)
  {
    hide Books.Bump, Books.Count, Books.Marginals, Channel.Role;
    var row := b.active[rid].row;
    var cell := row.CellAt(b.Second(now));
    var a := b.(active := b.active - {rid});
    MarginalsFrame(b, a.active);
    var d := a.Bump(Completed, cell, 1);
    BumpMarginals(a, Completed, cell, 1);
    forall role: Role ensures d.RoleClosed(role, Debt(None, role)) {
      assert b.RoleClosed(role, Debt(None, role));
      CountFrame(b, a.active, role);
      BumpCounts(a, Completed, cell, 1, role);
      PendingRemoved(b.active, rid, role, false);
      PendingRemoved(b.active, rid, role, true);
    }
    BumpOther(d, MetricOf(outcome), cell, 1, None);
    BumpOther(d.Bump(MetricOf(outcome), cell, 1), Effective, cell, 1, None);
  }

  // ----- which counters each operation moves -----

  /** A count of one: the metric and the cell it is counted in. */
  type Credit = (Metric, Cell)

  /** The tally of a metric once the credits have been counted. */
  function Credited(t: Tally, m: Metric, credits: seq<Credit>): Tally {
    if credits == [] then t
    else
      var last := |credits| - 1;
      var before := Credited(t, m, credits[..last]);
      if credits[last].0 == m then before.Plus(credits[last].1, 1) else before
  }

  /** The books have counted exactly these credits, in the totals and in all five dimensions. */
  ghost predicate Counts(b: Books, d: Books, credits: seq<Credit>) {
    d.start == b.start && forall m: Metric :: d.Of(m) == Credited(b.Of(m), m, credits)
  }

  /** A row is counted in its own second, operation, stage and flow, under its channel's role. */
  lemma OwnMeans(row: Row)
    ensures row.Own() == Cell(row.second, row.operation, row.stage, row.flow, row.channel.Role())
  {
  }

  /** How many of the credits are for the metric and the role. */
  function Times(credits: seq<Credit>, m: Metric, role: Role): nat {
    if credits == [] then 0
    else
      var last := |credits| - 1;
      Times(credits[..last], m, role) + (if credits[last].0 == m && credits[last].1.role == role then 1 else 0)
  }

  lemma CountsNone(b: Books, active: map<nat, Entry>)
    ensures Counts(b, b.(active := active), [])
  {
  }

  lemma CountsBump(b: Books, d: Books, credits: seq<Credit>, m: Metric, c: Cell)
    requires Counts(b, d, credits)
    ensures Counts(b, d.Bump(m, c, 1), credits + [(m, c)])
  {
    hide Tally.Plus;
    assert (credits + [(m, c)])[..|credits|] == credits;
  }

  /** The counters move on from one set of books to the next. */
  lemma {:induction false} CountsJoin(b: Books, d: Books, e: Books, xs: seq<Credit>, ys: seq<Credit>)
    requires Counts(b, d, xs) && Counts(d, e, ys)
    ensures Counts(b, e, xs + ys)
  {
    forall m: Metric ensures e.Of(m) == Credited(b.Of(m), m, xs + ys) {
      CreditedJoin(b.Of(m), m, xs, ys);
    }
  }

  lemma {:induction false} CreditedJoin(t: Tally, m: Metric, xs: seq<Credit>, ys: seq<Credit>)
    ensures Credited(t, m, xs + ys) == Credited(Credited(t, m, xs), m, ys)
  {
    hide Tally.Plus;
    if ys == [] {
      assert xs + ys == xs;
    } else {
      CreditedJoin(t, m, xs, ys[..|ys|-1]);
      assert (xs + ys)[..|xs + ys|-1] == xs + ys[..|ys|-1];
    }
  }

  /** Every count of a role grows by the number of its credits. */
  lemma CountsRole(b: Books, d: Books, credits: seq<Credit>, m: Metric, role: Role)
    requires Counts(b, d, credits)
    ensures d.Count(m, role) == b.Count(m, role) + Times(credits, m, role)
  {
    CreditedRole(b.Of(m), m, credits, role);
  }

  lemma {:induction false} CreditedRole(t: Tally, m: Metric, credits: seq<Credit>, role: Role)
    ensures Credited(t, m, credits).roles[role] == t.roles[role] + Times(credits, m, role)
  {
    if credits != [] { CreditedRole(t, m, credits[..|credits|-1], role); }
  }

  lemma TimesOfThree(a: Credit, b: Credit, c: Credit, m: Metric, role: Role)
    ensures Times([a, b, c], m, role) == Times([a], m, role) + Times([b], m, role) + Times([c], m, role)
    ensures forall x: Credit :: Times([x], m, role) == if x.0 == m && x.1.role == role then 1 else 0
  {
    assert [a, b, c][..2] == [a, b] && [a, b][..1] == [a];
  }

  /** A refusal counts twice: as not sent, and under its reason, in the second of the slot. */
  lemma WithholdMeaning(b: Books, row: Row, why: Refusal)
    ensures var d := b.Withhold(row, why);
            && d.active == b.active - {row.id}
            && Counts(b, d, [(NotSent, row.Own()), (Refused(why), row.Own())])
  {
    hide Books.Bump, Counts, Row.Own;
    var a := b.(active := b.active - {row.id});
    var cell := row.Own();
    CountsNone(b, a.active);
    CountsBump(b, a, [], NotSent, cell);
    CountsBump(b, a.Bump(NotSent, cell, 1), [] + [(NotSent, cell)], Refused(why), cell);
    assert [] + [(NotSent, cell)] + [(Refused(why), cell)] == [(NotSent, cell), (Refused(why), cell)];
    BumpFrame(a, NotSent, cell, 1);
    BumpFrame(a.Bump(NotSent, cell, 1), Refused(why), cell, 1);
  }

  /** What a send counts: late exactly if ten milliseconds or more have passed since the slot's time. */
  function SendCredits(b: Books, row: Row, now: int): seq<Credit> {
    var cell := Cell((now - b.start) / 1_000_000_000, row.operation, row.stage, row.flow, row.channel.Role());
    if now >= row.scheduled + 10_000_000 then [(Sent, cell), (Late, cell)] else [(Sent, cell)]
  }

  /** A send succeeds exactly once, before the slot's expiry, and is counted in the second of the send. */
  lemma SendMeaning(b: Books, rid: nat, now: int)
    ensures b.Send(rid, now).Success? <==>
              rid in b.active && b.active[rid].status == Dispatched && now < b.active[rid].row.expires
    ensures b.Send(rid, now).Success? ==>
              var d, row := b.Send(rid, now).value, b.active[rid].row;
              && d.active == b.active[rid := Entry(row, OnWire(now))]
              && Counts(b, d, SendCredits(b, row, now))
  {
    hide Books.Bump, Counts;
    if b.Send(rid, now).Success? {
      var row := b.active[rid].row;
      var cell := row.CellAt(b.Second(now));
      var a := b.(active := b.active[rid := Entry(row, OnWire(now))]);
      CountsNone(b, a.active);
      CountsBump(b, a, [], Sent, cell);
      BumpFrame(a, Sent, cell, 1);
      assert [] + [(Sent, cell)] == [(Sent, cell)];
      CountsBump(b, a.Bump(Sent, cell, 1), [(Sent, cell)], Late, cell);
      BumpFrame(a.Bump(Sent, cell, 1), Late, cell, 1);
      assert [(Sent, cell)] + [(Late, cell)] == [(Sent, cell), (Late, cell)];
    }
  }

  /** What a completion counts. */
  function CompleteCredits(b: Books, row: Row, now: int, outcome: Outcome, effective: bool): seq<Credit> {
    var cell := Cell((now - b.start) / 1_000_000_000, row.operation, row.stage, row.flow, row.channel.Role());
    var how := match outcome
               case Succeeded => Ended(Succeeded)
               case Erred => Ended(Erred)
               case InvalidEffect => Ended(InvalidEffect)
               case TimedOut => Timeout
               case Lost => Unknown;
    [(Completed, cell), (how, cell)] + (if effective then [(Effective, cell)] else [])
  }

  /** A completion needs a send that is not later, and is counted under its outcome in its own second. */
  lemma CompleteMeaning(b: Books, rid: nat, now: int, outcome: Outcome, effective: bool)
    ensures b.Complete(rid, now, outcome, effective).Success? <==>
              rid in b.active && b.active[rid].status.OnWire? && b.active[rid].status.at <= now
    ensures b.Complete(rid, now, outcome, effective).Success? ==>
              var d, row := b.Complete(rid, now, outcome, effective).value, b.active[rid].row;
              && d.active == b.active - {rid}
              && Counts(b, d, CompleteCredits(b, row, now, outcome, effective))
  {
    hide Books.Bump, Counts;
    if b.Complete(rid, now, outcome, effective).Success? {
      var row := b.active[rid].row;
      var cell, how := row.CellAt(b.Second(now)), MetricOf(outcome);
      var a := b.(active := b.active - {rid});
      var c := a.Bump(Completed, cell, 1);
      CountsNone(b, a.active);
      CountsBump(b, a, [], Completed, cell);
      BumpFrame(a, Completed, cell, 1);
      assert [] + [(Completed, cell)] == [(Completed, cell)];
      CountsBump(b, c, [(Completed, cell)], how, cell);
      BumpFrame(c, how, cell, 1);
      assert [(Completed, cell)] + [(how, cell)] == [(Completed, cell), (how, cell)];
      CountsBump(b, c.Bump(how, cell, 1), [(Completed, cell), (how, cell)], Effective, cell);
      BumpFrame(c.Bump(how, cell, 1), Effective, cell, 1);
      assert [(Completed, cell), (how, cell)] + [] == [(Completed, cell), (how, cell)];
    }
  }

  // ----- totals -----

  lemma FourRoles(m: multiset<Role>)
    ensures |m| == m[W] + m[R] + m[C] + m[Q]
  {
    var rest := m[W := 0][R := 0][C := 0][Q := 0];
    assert |m[W := 0]| == |m| - m[W];
    assert |m[W := 0][R := 0]| == |m[W := 0]| - m[R];
    assert |m[W := 0][R := 0][C := 0]| == |m[W := 0][R := 0]| - m[C];
    assert |rest| == |m[W := 0][R := 0][C := 0]| - m[Q];
    forall r: Role ensures rest[r] == 0 {
      match r case W => case R => case C => case Q =>
    }
    assert rest == multiset{};
  }

  ghost function Open(active: map<nat, Entry>, sent: bool): set<nat> {
    set r | r in active && (active[r].status != Dispatched) == sent
  }

  lemma OpenByRole(active: map<nat, Entry>, sent: bool)
    ensures |Open(active, sent)| == |Pending(active, W, sent)| + |Pending(active, R, sent)|
                                    + |Pending(active, C, sent)| + |Pending(active, Q, sent)|
  {
    var w, r := Pending(active, W, sent), Pending(active, R, sent);
    var c, q := Pending(active, C, sent), Pending(active, Q, sent);
    forall k | k in Open(active, sent) ensures k in w + r + c + q {
      match active[k].row.channel.Role() case W => case R => case C => case Q =>
    }
    assert Open(active, sent) == w + r + c + q;
    hide Pending, Open, IsPending;
    assert w !! r && (w + r) !! c && (w + r + c) !! q by { Apart(active, sent); }
    assert |w + r| == |w| + |r|;
    assert |w + r + c| == |w + r| + |c|;
  }

  lemma Apart(active: map<nat, Entry>, sent: bool)
    ensures Pending(active, W, sent) !! Pending(active, R, sent) !! Pending(active, C, sent) !! Pending(active, Q, sent)
  {
  }

  /**
   What `snapshot` reports as closed: in balanced books offered = sent + not_sent + dispatched and
   sent = completed + sent-pending, over all roles.
   */
  lemma SnapshotCloses(b: Books)
    requires b.Balanced(None)
    ensures b.Of(Offered).total == b.Of(Sent).total + b.Of(NotSent).total + |Open(b.active, false)|
    ensures b.Of(Sent).total == b.Of(Completed).total + |Open(b.active, true)|
    ensures |Open(b.active, false)| == |b.active| - |Open(b.active, true)|
  {
    hide Books.Count, Books.Of, Pending;
    TotalIsSum(b, Offered);
    TotalIsSum(b, Sent);
    TotalIsSum(b, NotSent);
    TotalIsSum(b, Completed);
    OpenByRole(b.active, false);
    OpenByRole(b.active, true);
    assert b.RoleClosed(W, Debt(None, W)) && b.RoleClosed(R, Debt(None, R));
    assert b.RoleClosed(C, Debt(None, C)) && b.RoleClosed(Q, Debt(None, Q));
    assert b.active.Keys == Open(b.active, false) + Open(b.active, true);
  }

  lemma TotalIsSum(b: Books, m: Metric)
    requires b.Marginals()
    ensures b.Of(m).total == b.Count(m, W) + b.Count(m, R) + b.Count(m, C) + b.Count(m, Q)
  {
    assert b.Of(m).Marginal();
    FourRoles(b.Of(m).roles);
  }

  // ----- expired ranges -----

  const STEPS: nat := 10

  function StageCell(second: int, stage: nat): Cell {
    Cell(second, ReservationPool.CommandAt(stage).Name(), StageNo(stage), "unassigned", W)
  }

  function SlotSecond(g: Timetable, i: nat): int { (Time(g, i) - g.start) / NS }

  function SlotCell(g: Timetable, i: nat): Cell { StageCell(SlotSecond(g, i), i % STEPS) }

  /** An expired slot is offered, not sent and expired. */
  function Expire(b: Books, c: Cell, n: nat): Books {
    b.Bump(Offered, c, n).Bump(NotSent, c, n).Bump(Refused(Expired), c, n)
  }

  /** Slot-by-slot counting of lo..hi: the meaning of `expired_range`. */
  function ExpireSlots(b: Books, g: Timetable, lo: nat, hi: nat): Books
    decreases hi
  {
    if hi <= lo then b else Expire(ExpireSlots(b, g, lo, hi - 1), SlotCell(g, hi - 1), 1)
  }

  /** How many of the slots lo..hi have the given stage, by floor division. */
  function Share(lo: int, hi: int, stage: int): int {
    (hi - 1 - stage) / STEPS - (lo - 1 - stage) / STEPS
  }

  /** The shares of the stages below k, added in one go. */
  function ExpireShares(b: Books, second: int, lo: nat, hi: nat, k: nat): Books
    requires lo <= hi
  {
    if k == 0 then b
    else
      var before := ExpireShares(b, second, lo, hi, k - 1);
      var n := Share(lo, hi, k - 1);
      if n <= 0 then before else Expire(before, StageCell(second, k - 1), n)
  }

  /** One more slot raises the share of its own stage by one, and no other share. */
  lemma ShareStep(lo: int, hi: int, stage: int)
    requires lo <= hi && 0 <= stage < STEPS
    ensures Share(lo, lo, stage) == 0
    ensures Share(lo, hi + 1, stage) == Share(lo, hi, stage) + (if hi % STEPS == stage then 1 else 0)
  {
  }

  lemma ShareCounts(lo: int, hi: int, stage: int)
    requires lo <= hi && 0 <= stage < STEPS
    ensures 0 <= Share(lo, hi, stage) <= hi - lo
    decreases hi - lo
  {
  }

  /** Exactly the slots of the stage are counted. */
  lemma {:induction false} ShareExact(lo: nat, hi: nat, stage: nat)
    requires lo <= hi && stage < STEPS
    ensures Share(lo, hi, stage) == |set i: nat | lo <= i < hi && i % STEPS == stage|
    decreases hi
  {
    hide Share;
    var slots := set i: nat | lo <= i < hi && i % STEPS == stage;
    if lo < hi {
      ShareExact(lo, hi - 1, stage);
      ShareStep(lo, hi - 1, stage);
      var fewer := set i: nat | lo <= i < hi - 1 && i % STEPS == stage;
      assert slots == fewer + (if (hi - 1) % STEPS == stage then {hi - 1} else {});
    } else {
      ShareStep(lo, hi, stage);
      assert slots == {};
    }
  }

  /** The shares of the stages below k, added up. */
  function TotalShare(lo: int, hi: int, k: nat): int {
    if k == 0 then 0 else TotalShare(lo, hi, k - 1) + Share(lo, hi, k - 1)
  }

  lemma {:induction false} TotalShareStep(lo: int, hi: int, k: nat)
    requires lo <= hi && k <= STEPS
    ensures TotalShare(lo, lo, k) == 0
    ensures TotalShare(lo, hi + 1, k) == TotalShare(lo, hi, k) + (if hi % STEPS < k then 1 else 0)
  {
    hide Share;
    if k > 0 {
      TotalShareStep(lo, hi, k - 1);
      ShareStep(lo, hi, k - 1);
    }
  }

  /** The ten counts of a bucket add up to its length. */
  lemma {:induction false} SharesAddUp(lo: int, hi: int)
    requires lo <= hi
    ensures TotalShare(lo, hi, STEPS) == hi - lo
    decreases hi - lo
  {
    hide TotalShare;
    if lo < hi {
      SharesAddUp(lo, hi - 1);
      TotalShareStep(lo, hi - 1, STEPS);
    } else {
      TotalShareStep(lo, hi, STEPS);
    }
  }

  lemma PlusCommutes(t: Tally, x: Cell, n: nat, y: Cell, k: nat)
    ensures t.Plus(x, n).Plus(y, k) == t.Plus(y, k).Plus(x, n)
  {
    Commute(t.seconds, x.second, n, y.second, k);
    Commute(t.operations, x.operation, n, y.operation, k);
    Commute(t.stages, x.stage, n, y.stage, k);
    Commute(t.flows, x.flow, n, y.flow, k);
    Commute(t.roles, x.role, n, y.role, k);
  }

  lemma Commute<T>(m: multiset<T>, x: T, n: nat, y: T, k: nat)
    ensures Add(Add(m, x, n), y, k) == Add(Add(m, y, k), x, n)
  {
  }

  lemma PlusMerges(t: Tally, x: Cell, n: nat, k: nat)
    ensures t.Plus(x, n).Plus(x, k) == t.Plus(x, n + k)
  {
  }

  function SetThree(b: Books, offered: Tally, withheld: Tally, expired: Tally): Books {
    b.(tallies := b.tallies[Offered := offered][NotSent := withheld][Refused(Expired) := expired])
  }

  lemma ExpireTwice(b: Books, x: Cell, n: nat, y: Cell, k: nat)
    ensures Expire(Expire(b, x, n), y, k) ==
            SetThree(b, b.Of(Offered).Plus(x, n).Plus(y, k), b.Of(NotSent).Plus(x, n).Plus(y, k),
                     b.Of(Refused(Expired)).Plus(x, n).Plus(y, k))
  {
    hide Tally.Plus;
    var d := Expire(b, x, n);
    assert d.Of(Offered) == b.Of(Offered).Plus(x, n) && d.Of(NotSent) == b.Of(NotSent).Plus(x, n);
    assert d.Of(Refused(Expired)) == b.Of(Refused(Expired)).Plus(x, n);
    assert d == SetThree(b, d.Of(Offered), d.Of(NotSent), d.Of(Refused(Expired)));
  }

  lemma ExpireCommutes(b: Books, x: Cell, n: nat, y: Cell, k: nat)
    ensures Expire(Expire(b, x, n), y, k) == Expire(Expire(b, y, k), x, n)
  {
    hide Tally.Plus, Expire, Books.Of;
    ExpireTwice(b, x, n, y, k);
    ExpireTwice(b, y, k, x, n);
    PlusCommutes(b.Of(Offered), x, n, y, k);
    PlusCommutes(b.Of(NotSent), x, n, y, k);
    PlusCommutes(b.Of(Refused(Expired)), x, n, y, k);
  }

  lemma ExpireMerges(b: Books, x: Cell, n: nat, k: nat)
    ensures Expire(Expire(b, x, n), x, k) == Expire(b, x, n + k)
  {
    hide Tally.Plus;
    ExpireTwice(b, x, n, x, k);
    PlusMerges(b.Of(Offered), x, n, k);
    PlusMerges(b.Of(NotSent), x, n, k);
    PlusMerges(b.Of(Refused(Expired)), x, n, k);
    assert Expire(b, x, n + k) == SetThree(b, b.Of(Offered).Plus(x, n + k), b.Of(NotSent).Plus(x, n + k),
                                           b.Of(Refused(Expired)).Plus(x, n + k));
  }

  /** One more slot in a bucket is one more unit of its stage. */
  lemma {:induction false} SharesStep(b: Books, second: int, lo: nat, hi: nat, k: nat)
    requires lo <= hi && k <= STEPS
    ensures ExpireShares(b, second, lo, hi + 1, k) ==
            if hi % STEPS < k then Expire(ExpireShares(b, second, lo, hi, k), StageCell(second, hi % STEPS), 1)
            else ExpireShares(b, second, lo, hi, k)
  {
    hide Expire, StageCell, Share;
    if k > 0 {
      var before := ExpireShares(b, second, lo, hi, k - 1);
      var n := Share(lo, hi, k - 1);
      var here, there := StageCell(second, k - 1), StageCell(second, hi % STEPS);
      SharesStep(b, second, lo, hi, k - 1);
      ShareStep(lo, hi, k - 1);
      ShareCounts(lo, hi, k - 1);
      if hi % STEPS == k - 1 {
        if n > 0 { ExpireMerges(before, here, n, 1); }
      } else if hi % STEPS < k - 1 && n > 0 {
        ExpireCommutes(before, there, 1, here, n);
      }
    }
  }

  /**
   Adding the ten shares of a bucket, one second's worth of slots, is the same as counting its
   slots one by one, in every counter and every dimension.
   */
  lemma {:induction false} BucketIsSlots(b: Books, g: Timetable, lo: nat, hi: nat, second: int)
    requires lo <= hi && forall i | lo <= i < hi :: SlotSecond(g, i) == second
    ensures ExpireShares(b, second, lo, hi, STEPS) == ExpireSlots(b, g, lo, hi)
    decreases hi
  {
    hide Expire, StageCell, SlotSecond;
    if lo < hi {
      BucketIsSlots(b, g, lo, hi - 1, second);
      SharesStep(b, second, lo, hi - 1, STEPS);
      assert SlotSecond(g, hi - 1) == second;
    } else {
      NoShares(b, second, lo, STEPS);
    }
  }

  lemma {:induction false} NoShares(b: Books, second: int, lo: nat, k: nat)
    requires k <= STEPS
    ensures ExpireShares(b, second, lo, lo, k) == b
  {
    if k > 0 {
      NoShares(b, second, lo, k - 1);
      ShareStep(lo, lo, k - 1);
    }
  }

  lemma {:induction false} SlotsConcat(b: Books, g: Timetable, lo: nat, mid: nat, hi: nat)
    requires lo <= mid <= hi
    ensures ExpireSlots(ExpireSlots(b, g, lo, mid), g, mid, hi) == ExpireSlots(b, g, lo, hi)
    decreases hi
  {
    hide Expire, SlotCell;
    if mid < hi { SlotsConcat(b, g, lo, mid, hi - 1); }
  }

  /**
   An expired range adds hi - lo to offered, not_sent and expired and to nothing else, and every
   dimension still adds up; the books stay balanced.
   */
  lemma {:induction false} ExpireSlotsMeaning(b: Books, g: Timetable, lo: nat, hi: nat)
    requires b.Balanced(None) && lo <= hi
    ensures var d := ExpireSlots(b, g, lo, hi);
            && d.Balanced(None) && d.active == b.active && d.start == b.start
            && d.Of(Offered).total == b.Of(Offered).total + (hi - lo)
            && d.Of(NotSent).total == b.Of(NotSent).total + (hi - lo)
            && d.Of(Refused(Expired)).total == b.Of(Refused(Expired)).total + (hi - lo)
            && d.Count(Offered, W) == b.Count(Offered, W) + (hi - lo)
            && forall m | m != Offered && m != NotSent && m != Refused(Expired) :: d.Of(m) == b.Of(m)
    decreases hi
  {
    hide Expire, Books.Balanced, Books.Of, Books.Count, SlotSecond;
    if lo < hi {
      ExpireSlotsMeaning(b, g, lo, hi - 1);
      ExpireOne(ExpireSlots(b, g, lo, hi - 1), SlotCell(g, hi - 1));
    }
  }

  lemma ExpireOne(b: Books, c: Cell)
    requires b.Balanced(None) && c.role == W
    ensures var d := Expire(b, c, 1);
            && d.Balanced(None) && d.active == b.active && d.start == b.start
            && d.Of(Offered).total == b.Of(Offered).total + 1
            && d.Of(NotSent).total == b.Of(NotSent).total + 1
            && d.Of(Refused(Expired)).total == b.Of(Refused(Expired)).total + 1
            && d.Count(Offered, W) == b.Count(Offered, W) + 1
            && forall m | m != Offered && m != NotSent && m != Refused(Expired) :: d.Of(m) == b.Of(m)
  {
    hide Books.Balanced, Tally.Plus;
    ExpireOneBalanced(b, c);
    ExpireParts(b, c);
    PlusTotal(b.Of(Offered), c);
    PlusTotal(b.Of(NotSent), c);
    PlusTotal(b.Of(Refused(Expired)), c);
  }

  lemma ExpireParts(b: Books, c: Cell)
    ensures var d := Expire(b, c, 1);
            && d.Of(Offered) == b.Of(Offered).Plus(c, 1) && d.Of(NotSent) == b.Of(NotSent).Plus(c, 1)
            && d.Of(Refused(Expired)) == b.Of(Refused(Expired)).Plus(c, 1) && d.active == b.active && d.start == b.start
            && forall m | m != Offered && m != NotSent && m != Refused(Expired) :: d.Of(m) == b.Of(m)
  {
    hide Tally.Plus;
  }

  lemma PlusTotal(t: Tally, c: Cell)
    ensures t.Plus(c, 1).total == t.total + 1 && t.Plus(c, 1).roles[c.role] == t.roles[c.role] + 1
  {
  }

  lemma ExpireOneBalanced(b: Books, c: Cell)
    requires b.Balanced(None)
    ensures Expire(b, c, 1).Balanced(None)
  {
    hide Books.Bump, Books.Count, Books.Marginals;
    var x := b.Bump(Offered, c, 1);
    var y := x.Bump(NotSent, c, 1);
    BumpMarginals(b, Offered, c, 1);
    BumpMarginals(x, NotSent, c, 1);
    forall role: Role ensures y.RoleClosed(role, Debt(None, role)) {
      assert b.RoleClosed(role, Debt(None, role));
      BumpCounts(b, Offered, c, 1, role);
      BumpCounts(x, NotSent, c, 1, role);
    }
    BumpOther(y, Refused(Expired), c, 1, None);
  }

  // ----- the ledger object -----

  class Ledger {
    const start: int
    var tallies: map<Metric, Tally>
    var active: map<nat, Entry>

    function State(): Books reads this { Books(start, tallies, active) }

    constructor (start: int)
      ensures this.start == start && State() == NewBooks(start)
    {
      this.start := start;
      tallies, active := map[], map[];
    }

    method Bump(m: Metric, c: Cell, n: nat)
      modifies this
      ensures State() == old(State()).Bump(m, c, n)
    {
      tallies := tallies[m := State().Of(m).Plus(c, n)];
    }

    method Offer(row: Row)
      modifies this
      ensures State() == old(State()).Offer(row)
    {
      Bump(Offered, row.Own(), 1);
    }

    method Dispatch(row: Row) returns (r: Result<(), string>)
      modifies this
      ensures match old(State()).Dispatch(row)
              case Success(b) => r == Success(()) && State() == b
              case Failure(e) => r == Failure(e) && State() == old(State())
    {
      if |active| >= BUFFER || row.id in active {
        return Failure("request buffer exceeded");
      }
      active := active[row.id := Entry(row, Dispatched)];
      return Success(());
    }

    method Withhold(row: Row, why: Refusal)
      modifies this
      ensures State() == old(State()).Withhold(row, why)
    {
      active := active - {row.id};
      Bump(NotSent, row.Own(), 1);
      Bump(Refused(why), row.Own(), 1);
    }

    method Send(rid: nat, now: int) returns (r: Result<(), string>)
      modifies this
      ensures match old(State()).Send(rid, now)
              case Success(b) => r == Success(()) && State() == b
              case Failure(e) => r == Failure(e) && State() == old(State())
    {
      if rid !in active {
        return Failure("key");
      }
      var row := active[rid].row;
      if active[rid].status != Dispatched || now >= row.expires {
        return Failure("duplicate or expired transport send");
      }
      active := active[rid := Entry(row, OnWire(now))];
      var cell := row.CellAt(State().Second(now));
      Bump(Sent, cell, 1);
      if now - row.scheduled >= 10_000_000 {
        Bump(Late, cell, 1);
      }
      return Success(());
    }

    /** A raise comes after the entry has been popped, so it leaves the request without an entry. */
    method Complete(rid: nat, now: int, outcome: Outcome, effective: bool) returns (r: Result<(), string>)
      modifies this
      ensures match old(State()).Complete(rid, now, outcome, effective)
              case Success(b) => r == Success(()) && State() == b
              case Failure(e) => r == Failure(e) && State() == old(State()).(active := old(active) - {rid})
    {
      hide Books.Bump, Row.CellAt, MetricOf;
      if rid !in active {
        assert active - {rid} == active;
        return Failure("key");
      }
      var Entry(row, status) := active[rid];
      active := active - {rid};
      if status == Dispatched || now < status.at {
        return Failure("completion without transport send");
      }
      var cell := row.CellAt(State().Second(now));
      Bump(Completed, cell, 1);
      Bump(MetricOf(outcome), cell, 1);
      if effective {
        Bump(Effective, cell, 1);
      }
      return Success(());
    }

    /** Counts an expired range bucket by bucket; equal to counting it slot by slot. */
    method ExpiredRange(g: Timetable, lo: nat, hi: nat)
      modifies this
      ensures State() == ExpireSlots(old(State()), g, lo, hi)
    {
      hide SlotSecond, Expire;
      ghost var before := State();
      var cursor := lo;
      assert ExpireSlots(before, g, lo, lo) == before;
      while cursor < hi
        invariant lo <= cursor && (lo <= hi ==> cursor <= hi) && (hi < lo ==> cursor == lo)
        invariant State() == ExpireSlots(before, g, lo, cursor)
        decreases hi - cursor
      {
        var second := SlotSecond(g, cursor);
        var end := cursor + 1;
        while end < hi && SlotSecond(g, end) == second
          invariant cursor < end <= hi
          invariant forall i | cursor <= i < end :: SlotSecond(g, i) == second
        {
          end := end + 1;
        }
        ExpireBucket(g, second, cursor, end);
        SlotsConcat(before, g, lo, cursor, end);
        cursor := end;
      }
    }

    method ExpireBucket(g: Timetable, second: int, lo: nat, hi: nat)
      requires lo < hi && forall i | lo <= i < hi :: SlotSecond(g, i) == second
      modifies this
      ensures State() == ExpireSlots(old(State()), g, lo, hi)
    {
      hide Books.Bump, StageCell, ExpireSlots, SlotSecond;
      ghost var before := State();
      for stage := 0 to STEPS
        invariant State() == ExpireShares(before, second, lo, hi, stage)
      {
        ShareCounts(lo, hi, stage);
        var count := (hi - 1 - stage) / STEPS - (lo - 1 - stage) / STEPS;
        if count != 0 {
          var cell := StageCell(second, stage);
          Bump(Offered, cell, count);
          Bump(NotSent, cell, count);
          Bump(Refused(Expired), cell, count);
        }
      }
      BucketIsSlots(before, g, lo, hi, second);
    }
  }
}
