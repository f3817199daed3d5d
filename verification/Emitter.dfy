/**
 The bounded event emitter: producers, one sender and `close` interleaved step by step over a fixed
 pool of records. A step is one atomic action of one of the threads.
 */
module EventEmitter {
  import opened Common

  const MAX_PACKET_RECORDS: nat := 128

  datatype Reason = Closed | Contention | Overflow | Oversize | Ipc | DrainTimeout

  datatype Drops = Drops(closed: nat, contention: nat, overflow: nat, oversize: nat, ipc: nat, drainTimeout: nat) {

    function Plus(why: Reason, k: nat): Drops {
      match why
      case Closed => this.(closed := closed + k)
      case Contention => this.(contention := contention + k)
      case Overflow => this.(overflow := overflow + k)
      case Oversize => this.(oversize := oversize + k)
      case Ipc => this.(ipc := ipc + k)
      case DrainTimeout => this.(drainTimeout := drainTimeout + k)
    }

    /** Every counter one further. */
    function Advanced(): Drops {
      Drops(closed + 1, contention + 1, overflow + 1, oversize + 1, ipc + 1, drainTimeout + 1)
    }

    function Sum(): nat { closed + contention + overflow + oversize + ipc + drainTimeout }
  }

  /** Where a call of `emit` is; `n` is its sequence number and `rec` the record it holds. */
  datatype Producer =
    | Quiet
    | Numbered(n: nat)
    | Admitted(n: nat)
    | Holding(n: nat, rec: nat)
    | Measured(n: nat, rec: nat, seen: int)
    | Labelled(n: nat, rec: nat)
    | Packed(n: nat, rec: nat)
    | Dropping(rec: nat)
  {
    /** Its sequence number, while that is undecided. */
    function Open(): Option<nat> { if Quiet? || Dropping? then None else Some(n) }

    function Hand(): Option<nat> { if Quiet? || Numbered? || Admitted? then None else Some(rec) }
  }

  /** Where the sender is; `left` is its budget for the current round. */
  datatype Sender =
    | Unstarted
    | Top
    | Inner(left: nat)
    | Filling(left: nat, quota: nat, batch: seq<nat>, packet: seq<nat>)
    | Sending(left: nat, batch: seq<nat>, packet: seq<nat>)
    | Returning(left: nat, batch: seq<nat>)
    | Stopped
  {
    function Batch(): seq<nat> { if Filling? || Sending? || Returning? then batch else [] }

    function Packet(): seq<nat> { if Filling? || Sending? then packet else [] }
  }

  /** What became of each sequence number; the program keeps only counters of these. */
  datatype Log = Log(sent: seq<nat>, dropped: seq<nat>, raised: seq<nat>, taken: seq<nat>)

  /** How far `close` has got, whether the socket is open, and the calls of `close` that returned or raised. */
  datatype Door = Door(deadline: bool, done: bool, open: bool, closing: bool, reports: nat, aborted: nat)

  /** `memory` holds the sequence number last packed into each record. */
  datatype State = State(
    capacity: nat, memory: seq<nat>, available: seq<nat>, ready: seq<nat>, producers: seq<Producer>, sender: Sender,
    sequence: nat, peak: int, emitted: nat, drops: Drops, door: Door, log: Log)

  datatype Report = Report(produced: nat, emitted: nat, drops: Drops, peak: int, abandoned: nat, stopped: bool)

  /** The actions of one call of `emit`. */
  datatype Act =
    | Begin | CheckDone | Take | ReadPeak | WritePeak | TooLong | Fail | Pack | Publish | GiveBack

  datatype Step =
    | Produce(p: nat, act: Act)
    | StartSender | Loop | Round(late: bool) | Collect | Seal | SendOk | SendBlocked(late: bool) | SendFailed | PutBack
    | SetDeadline | SetDone | MakeReport | EndClose

  function Start(capacity: nat, producers: nat): State {
    State(capacity, seq(capacity, _ => 0), seq(capacity, i => i), [], seq(producers, _ => Quiet), Unstarted,
          0, 0, 0, Drops(0, 0, 0, 0, 0, 0), Door(false, false, true, false, 0, 0), Log([], [], [], []))
  }

  // ----- the steps -----

  /** Which phase of its call a producer must be in for an action. */
  predicate Ready(s: State, c: Producer, act: Act) {
    match act
    case Begin => c.Quiet?
    case CheckDone => c.Numbered?
    case Take => c.Admitted?
    case ReadPeak => c.Holding?
    case WritePeak => c.Measured?
    case TooLong => c.Labelled?
    case Fail => c.Labelled?
    case Pack => c.Labelled? && c.rec < |s.memory|
    case Publish => c.Packed?
    case GiveBack => c.Dropping?
  }

  predicate Enabled(s: State, step: Step) {
    match step
    case StartSender => s.sender.Unstarted?
    case Loop => s.sender.Top?
    case Round(_) => s.sender.Inner?
    case Collect => s.sender.Filling? && |s.sender.batch| < s.sender.quota && s.ready != [] && s.ready[0] < |s.memory|
    case Seal => s.sender.Filling? && (|s.sender.batch| >= s.sender.quota || s.ready == [])
                 && |s.sender.batch| <= s.sender.left
    case SendOk => s.sender.Sending?
    case SendBlocked(_) => s.sender.Sending?
    case SendFailed => s.sender.Sending?
    case PutBack => s.sender.Returning?
    case SetDeadline => !s.door.deadline
    case SetDone => s.door.deadline && !s.door.done
    case MakeReport => s.door.done && !s.door.closing
    case EndClose => s.door.closing
    case Produce(p, act) => p < |s.producers| && Ready(s, s.producers[p], act)
  }

  function With(s: State, p: nat, c: Producer): State
    requires p < |s.producers|
  {
    s.(producers := s.producers[p := c])
  }

  function Drop(s: State, why: Reason, numbers: seq<nat>): State {
    s.(drops := s.drops.Plus(why, |numbers|), log := s.log.(dropped := s.log.dropped + numbers))
  }

  function Acted(s: State, p: nat, act: Act): State
    requires p < |s.producers| && Ready(s, s.producers[p], act)
  {
    var c := s.producers[p];
    match act
    case Begin => With(s.(sequence := s.sequence + 1), p, Numbered(s.sequence + 1))
    case CheckDone => if s.door.done then With(Drop(s, Closed, [c.n]), p, Quiet) else With(s, p, Admitted(c.n))
    case Take =>
      if s.available == [] then With(Drop(s, Overflow, [c.n]), p, Quiet)
      else With(s.(available := s.available[1..]), p, Holding(c.n, s.available[0]))
    case ReadPeak => With(s, p, Measured(c.n, c.rec, Max(s.peak, s.capacity - |s.available|)))
    case WritePeak => With(s.(peak := c.seen), p, Labelled(c.n, c.rec))
    case TooLong => With(Drop(s, Oversize, [c.n]), p, Dropping(c.rec))
    case Fail => With(s.(log := s.log.(raised := s.log.raised + [c.n])), p, Dropping(c.rec))
    case Pack => With(s.(memory := s.memory[c.rec := c.n]), p, Packed(c.n, c.rec))
    case Publish => With(s.(ready := s.ready + [c.rec]), p, Quiet)
    case GiveBack => With(s.(available := s.available + [c.rec]), p, Quiet)
  }

  function Next(s: State, step: Step): State
    requires Enabled(s, step)
  {
    var sender := s.sender;
    match step
    case StartSender => s.(sender := Top)
    case Loop => s.(sender := if s.door.done && s.ready == [] then Stopped else Inner(s.capacity))
    case Round(late) =>
      if sender.left == 0 || s.ready == [] then s.(sender := Top)
      else if s.door.done && late then s.(sender := Stopped)
      else s.(sender := Filling(sender.left, Min(MAX_PACKET_RECORDS, sender.left), [], []))
    case Collect =>
      s.(ready := s.ready[1..],
         sender := Filling(sender.left, sender.quota, sender.batch + [s.ready[0]],
                           sender.packet + [s.memory[s.ready[0]]]))
    case Seal => s.(sender := Sending(sender.left - |sender.batch|, sender.batch, sender.packet))
    case SendOk =>
      s.(emitted := s.emitted + |sender.batch|, log := s.log.(sent := s.log.sent + sender.packet),
         sender := Returning(sender.left, sender.batch))
    case SendBlocked(late) =>
      if s.door.done && late then Drop(s, DrainTimeout, sender.packet).(sender := Returning(sender.left, sender.batch))
      else s
    case SendFailed => Drop(s, Ipc, sender.packet).(sender := Returning(sender.left, sender.batch))
    case PutBack =>
      if sender.batch == [] then s.(sender := Inner(sender.left))
      else s.(available := s.available + [sender.batch[0]], sender := Returning(sender.left, sender.batch[1..]))
    case SetDeadline => s.(door := s.door.(deadline := true))
    case SetDone => s.(door := s.door.(done := true))
    case MakeReport => if s.door.open then Reported(s) else Aborted(s)
    case EndClose => s.(door := s.door.(closing := false, open := s.door.open && !s.sender.Stopped?))
    case Produce(p, act) => Acted(s, p, act)
  }

  /** Reading the counters advances each of them by one, the sequence included. */
  function Reported(s: State): State {
    s.(sequence := s.sequence + 1, log := s.log.(taken := s.log.taken + [s.sequence + 1]),
       door := s.door.(reports := s.door.reports + 1, closing := true),
       drops := s.drops.Advanced())
  }

  /** With the socket closed, `close` raises once it has taken a number and before it reads a drop counter. */
  function Aborted(s: State): State {
    s.(sequence := s.sequence + 1, log := s.log.(taken := s.log.taken + [s.sequence + 1]),
       door := s.door.(aborted := s.door.aborted + 1))
  }

  /** What `close` returns, read off before the counters move. */
  function ReportOf(s: State): Report {
    Report(s.sequence, s.emitted, s.drops, s.peak, |s.ready|, s.sender.Stopped?)
  }

  // ----- where records and numbers are -----

  /** How often r occurs. */
  function Count(xs: seq<nat>, r: nat): nat {
    if xs == [] then 0 else (if xs[0] == r then 1 else 0) + Count(xs[1..], r)
  }

  function One(x: Option<nat>, r: nat): nat { if x == Some(r) then 1 else 0 }

  /** How many calls of `emit` hold record r. */
  function Hands(ps: seq<Producer>, r: nat): nat {
    if ps == [] then 0 else One(ps[0].Hand(), r) + Hands(ps[1..], r)
  }

  /** How many calls of `emit` are still to decide about number n. */
  function Opens(ps: seq<Producer>, n: nat): nat {
    if ps == [] then 0 else One(ps[0].Open(), n) + Opens(ps[1..], n)
  }

  /** The calls of `emit` with an undecided number. */
  function Calls(ps: seq<Producer>): nat {
    if ps == [] then 0 else (if ps[0].Open().Some? then 1 else 0) + Calls(ps[1..])
  }

  /** The numbers packed into the given records. */
  function Contents(memory: seq<nat>, records: seq<nat>): seq<nat> {
    seq(|records|, i requires 0 <= i < |records| => if records[i] < |memory| then memory[records[i]] else 0)
  }

  /** In how many places record r is. */
  function Places(s: State, r: nat): nat {
    Count(s.available, r) + Count(s.ready, r) + Hands(s.producers, r) + Count(s.sender.Batch(), r)
  }

  /** How many fates number n has. */
  function Fates(s: State, n: nat): nat { Settled(s, n) + Flying(s, n) }

  /** A settled number was sent, dropped, lost to an exception, or taken by a report. */
  function Settled(s: State, n: nat): nat {
    Count(s.log.sent, n) + Count(s.log.dropped, n) + Count(s.log.raised, n) + Count(s.log.taken, n)
  }

  /** A number in flight is a producer's, queued, or in the sender's packet. */
  function Flying(s: State, n: nat): nat {
    Opens(s.producers, n) + Count(Contents(s.memory, s.ready), n) + Count(s.sender.Packet(), n)
  }

  /** The numbers handed out, added up over their fates. */
  function Total(s: State): nat {
    |s.log.sent| + |s.log.dropped| + |s.log.raised| + |s.log.taken| + Calls(s.producers) + |s.ready|
      + |s.sender.Packet()|
  }

  // ----- the invariant -----

  ghost predicate Placed(s: State) { forall r: nat :: Places(s, r) == if r < s.capacity then 1 else 0 }

  ghost predicate Decided(s: State) { forall n: nat :: Fates(s, n) == if 1 <= n <= s.sequence then 1 else 0 }

  ghost predicate SenderOk(s: State) {
    match s.sender
    case Filling(left, quota, batch, packet) =>
      && |batch| == |packet| <= quota <= left && 1 <= quota <= MAX_PACKET_RECORDS && (batch == [] ==> s.ready != [])
    case Sending(_, batch, packet) => 1 <= |batch| == |packet| <= MAX_PACKET_RECORDS
    case Stopped => s.door.done
    case _ => true
  }

  ghost predicate ProducerOk(c: Producer, capacity: nat, memory: seq<nat>) {
    && (c.Packed? ==> c.rec < |memory| && memory[c.rec] == c.n)
    && (c.Measured? ==> c.seen <= capacity)
  }

  ghost predicate ProducersOk(s: State) {
    forall p | 0 <= p < |s.producers| :: ProducerOk(s.producers[p], s.capacity, s.memory)
  }

  ghost predicate Counted(s: State) {
    && s.emitted == |s.log.sent| && s.drops.Sum() == |s.log.dropped| + 6 * s.door.reports
    && |s.log.taken| == s.door.reports + s.door.aborted
    && (s.door.aborted > 0 ==> !s.door.open) && (!s.door.open ==> s.sender.Stopped?)
    && s.peak <= s.capacity && Total(s) == s.sequence
  }

  ghost predicate Inv(s: State) {
    |s.memory| == s.capacity && Placed(s) && Decided(s) && SenderOk(s) && ProducersOk(s) && Counted(s)
  }

  // ----- counting lemmas -----

  lemma {:induction false} CountAppend(xs: seq<nat>, ys: seq<nat>, r: nat)
    ensures Count(xs + ys, r) == Count(xs, r) + Count(ys, r)
  {
    if xs == [] {
      assert xs + ys == ys;
    } else {
      CountAppend(xs[1..], ys, r);
      assert (xs + ys)[1..] == xs[1..] + ys;
    }
  }

  lemma {:induction false} CountAt(xs: seq<nat>, i: nat)
    requires i < |xs|
    ensures Count(xs, xs[i]) >= 1
  {
    if i > 0 { CountAt(xs[1..], i - 1); }
  }

  /** Changing one call changes only its own share. */
  lemma {:induction false} Replaced(ps: seq<Producer>, p: nat, c: Producer, r: nat)
    requires p < |ps|
    ensures Hands(ps[p := c], r) + One(ps[p].Hand(), r) == Hands(ps, r) + One(c.Hand(), r)
    ensures Opens(ps[p := c], r) + One(ps[p].Open(), r) == Opens(ps, r) + One(c.Open(), r)
    ensures Calls(ps[p := c]) + (if ps[p].Open().Some? then 1 else 0) == Calls(ps) + (if c.Open().Some? then 1 else 0)
  {
    hide One, Producer.Hand, Producer.Open;
    if p == 0 {
      assert ps[p := c][1..] == ps[1..];
    } else {
      Replaced(ps[1..], p - 1, c, r);
      assert ps[p := c][1..] == ps[1..][p - 1 := c];
    }
  }

  lemma {:induction false} HandBelow(ps: seq<Producer>, p: nat, r: nat)
    requires p < |ps|
    ensures One(ps[p].Hand(), r) <= Hands(ps, r)
  {
    if p > 0 { HandBelow(ps[1..], p - 1, r); }
  }

  /** Two calls that hold the same record count twice. */
  lemma {:induction false} HandsTwice(ps: seq<Producer>, p: nat, q: nat, r: nat)
    requires p < q < |ps|
    ensures One(ps[p].Hand(), r) + One(ps[q].Hand(), r) <= Hands(ps, r)
  {
    if p == 0 { HandBelow(ps[1..], q - 1, r); } else { HandsTwice(ps[1..], p - 1, q - 1, r); }
  }

  lemma {:induction false} NotCounted(xs: seq<nat>, r: nat)
    requires Count(xs, r) == 0
    ensures forall i | 0 <= i < |xs| :: xs[i] != r
  {
    forall i | 0 <= i < |xs| ensures xs[i] != r {
      CountAt(xs, i);
    }
  }

  // ----- every step keeps the invariant -----

  /** The record a call holds is nobody else's, and its old content is of no use to anyone. */
  lemma HeldAlone(s: State, p: nat)
    requires Placed(s) && p < |s.producers| && s.producers[p].Hand().Some?
    ensures var r := s.producers[p].Hand().value;
            && r < s.capacity && (forall i | 0 <= i < |s.ready| :: s.ready[i] != r)
            && forall q | 0 <= q < |s.producers| && q != p :: s.producers[q].Hand() != Some(r)
  {
    var r := s.producers[p].Hand().value;
    assert Places(s, r) == if r < s.capacity then 1 else 0;
    HandBelow(s.producers, p, r);
    NotCounted(s.ready, r);
    forall q | 0 <= q < |s.producers| && q != p ensures s.producers[q].Hand() != Some(r) {
      if p < q { HandsTwice(s.producers, p, q, r); } else { HandsTwice(s.producers, q, p, r); }
    }
  }

  lemma ActedPlaces(s: State, p: nat, act: Act, r: nat)
    requires p < |s.producers| && Ready(s, s.producers[p], act)
    ensures Places(Acted(s, p, act), r) == Places(s, r)
  {
    hide Hands;
    var c := s.producers[p];
    var t := Acted(s, p, act);
    Replaced(s.producers, p, t.producers[p], r);
    if act == Publish { CountAppend(s.ready, [c.rec], r); }
    if act == GiveBack { CountAppend(s.available, [c.rec], r); }
  }

  lemma ActedContents(s: State, p: nat, act: Act)
    requires Placed(s) && ProducersOk(s) && |s.memory| == s.capacity && p < |s.producers|
             && Ready(s, s.producers[p], act)
    ensures var t := Acted(s, p, act);
            Contents(t.memory, t.ready) == Contents(s.memory, s.ready)
              + (if act == Publish then [s.producers[p].n] else [])
  {
    hide Placed;
    if act == Pack { HeldAlone(s, p); }
    if act == Publish { assert ProducerOk(s.producers[p], s.capacity, s.memory); }
  }

  /** Whether an action settles the number of its call. */
  predicate Settles(s: State, act: Act) {
    (act == CheckDone && s.door.done) || (act == Take && s.available == []) || act == TooLong || act == Fail
  }

  lemma ActedSettled(s: State, p: nat, act: Act, n: nat)
    requires p < |s.producers| && Ready(s, s.producers[p], act)
    ensures Settled(Acted(s, p, act), n) == Settled(s, n)
              + (if Settles(s, act) then One(s.producers[p].Open(), n) else 0)
  {
    hide Drops.Plus;
    var c := s.producers[p];
    if act == Fail {
      CountAppend(s.log.raised, [c.n], n);
    } else if Settles(s, act) {
      CountAppend(s.log.dropped, [c.n], n);
    }
  }

  lemma ActedFlying(s: State, p: nat, act: Act, n: nat)
    requires Placed(s) && ProducersOk(s) && |s.memory| == s.capacity && p < |s.producers|
             && Ready(s, s.producers[p], act)
    ensures Flying(Acted(s, p, act), n) + (if Settles(s, act) then One(s.producers[p].Open(), n) else 0)
            == Flying(s, n) + (if act == Begin && n == s.sequence + 1 then 1 else 0)
  {
    hide Opens, Contents, Placed, ProducersOk, Acted, Producer.Open;
    var c := s.producers[p];
    var t := Acted(s, p, act);
    ActedCall(s, p, act);
    Replaced(s.producers, p, t.producers[p], n);
    ActedContents(s, p, act);
    var before := Contents(s.memory, s.ready);
    if act == Publish { CountAppend(before, [c.n], n); } else { assert before + [] == before; }
  }

  /** What an action does to the number its call is holding. */
  lemma ActedCall(s: State, p: nat, act: Act)
    requires p < |s.producers| && Ready(s, s.producers[p], act)
    ensures var t := Acted(s, p, act);
            && t.sender == s.sender && p < |t.producers| && t.producers == s.producers[p := t.producers[p]]
            && t.producers[p].Open() == (if act == Begin then Some(s.sequence + 1)
                                         else if Settles(s, act) || act == Publish then None else s.producers[p].Open())
            && (act == Begin ==> s.producers[p].Open().None?)
            && (act == Publish ==> s.producers[p].Open() == Some(s.producers[p].n))
  {
    hide Drops.Plus;
  }

  lemma ActedFates(s: State, p: nat, act: Act, n: nat)
    requires Placed(s) && ProducersOk(s) && |s.memory| == s.capacity && p < |s.producers|
             && Ready(s, s.producers[p], act)
    ensures Fates(Acted(s, p, act), n) == Fates(s, n) + (if act == Begin && n == s.sequence + 1 then 1 else 0)
  {
    hide Settled, Flying, Acted, Placed, ProducersOk, Ready, Settles;
    ActedSettled(s, p, act, n);
    ActedFlying(s, p, act, n);
  }

  lemma ActedCounted(s: State, p: nat, act: Act)
    requires Counted(s) && ProducersOk(s) && p < |s.producers| && Ready(s, s.producers[p], act)
    ensures Counted(Acted(s, p, act))
  {
    hide Calls;
    Replaced(s.producers, p, Acted(s, p, act).producers[p], 0);
    assert ProducerOk(s.producers[p], s.capacity, s.memory);
  }

  lemma ActedProducers(s: State, p: nat, act: Act)
    requires Placed(s) && Counted(s) && ProducersOk(s) && |s.memory| == s.capacity
    requires p < |s.producers| && Ready(s, s.producers[p], act)
    ensures ProducersOk(Acted(s, p, act))
  {
    hide Placed;
    if act == Pack { HeldAlone(s, p); }
    var t := Acted(s, p, act);
    forall q | 0 <= q < |t.producers| ensures ProducerOk(t.producers[q], t.capacity, t.memory) {
      assert ProducerOk(s.producers[q], s.capacity, s.memory);
    }
  }

  /** What one call of `emit` does in a step keeps every record and every number accounted for. */
  lemma ActedKeeps(s: State, p: nat, act: Act)
    requires Inv(s) && p < |s.producers| && Ready(s, s.producers[p], act)
    ensures Inv(Acted(s, p, act))
  {
    hide Places, Fates, Counted, ProducersOk;
    var t := Acted(s, p, act);
    ActedProducers(s, p, act);
    ActedCounted(s, p, act);
    forall r: nat ensures Places(t, r) == if r < t.capacity then 1 else 0 { ActedPlaces(s, p, act, r); }
    forall n: nat ensures Fates(t, n) == if 1 <= n <= t.sequence then 1 else 0 { ActedFates(s, p, act, n); }
  }

  lemma SenderPlaces(s: State, step: Step, r: nat)
    requires Enabled(s, step) && !step.Produce?
    ensures Places(Next(s, step), r) == Places(s, r)
  {
    hide Hands;
    if step == Collect { CountAppend(s.sender.batch, [s.ready[0]], r); }
    if step == PutBack && s.sender.batch != [] { CountAppend(s.available, [s.sender.batch[0]], r); }
  }

  lemma FirstContent(memory: seq<nat>, ready: seq<nat>, n: nat)
    requires ready != [] && ready[0] < |memory|
    ensures Count(Contents(memory, ready), n) == Count([memory[ready[0]]], n) + Count(Contents(memory, ready[1..]), n)
  {
    var rest := Contents(memory, ready[1..]);
    assert Contents(memory, ready) == [memory[ready[0]]] + rest;
    CountAppend([memory[ready[0]]], rest, n);
  }

  lemma SenderLog(s: State, step: Step)
    requires Enabled(s, step) && !step.Produce?
    ensures Next(s, step).log == if step == SendOk then s.log.(sent := s.log.sent + s.sender.Packet())
                                 else if step == MakeReport then s.log.(taken := s.log.taken + [s.sequence + 1])
                                 else if Empties(s, step) then s.log.(dropped := s.log.dropped + s.sender.Packet())
                                 else s.log
  {
  }

  lemma SenderSettled(s: State, step: Step, n: nat)
    requires Enabled(s, step) && !step.Produce?
    ensures Settled(Next(s, step), n) == Settled(s, n) + (if Empties(s, step) then Count(s.sender.Packet(), n) else 0)
                                         + (if step == MakeReport && n == s.sequence + 1 then 1 else 0)
  {
    var packet := s.sender.Packet();
    SenderLog(s, step);
    hide Next, Enabled;
    if step == SendOk {
      CountAppend(s.log.sent, packet, n);
    } else if step == MakeReport {
      CountAppend(s.log.taken, [s.sequence + 1], n);
    } else if Empties(s, step) {
      CountAppend(s.log.dropped, packet, n);
    }
  }

  /** Whether a step of the sender settles its packet. */
  predicate Empties(s: State, step: Step) {
    step == SendOk || step == SendFailed || (step.SendBlocked? && s.door.done && step.late)
  }

  lemma SenderFlying(s: State, step: Step, n: nat)
    requires Enabled(s, step) && !step.Produce?
    ensures Flying(Next(s, step), n) + (if Empties(s, step) then Count(s.sender.Packet(), n) else 0) == Flying(s, n)
  {
    hide Opens, Drops.Plus, Contents;
    if step == Collect {
      FirstContent(s.memory, s.ready, n);
      CountAppend(s.sender.packet, [s.memory[s.ready[0]]], n);
    }
  }

  lemma SenderFates(s: State, step: Step, n: nat)
    requires Enabled(s, step) && !step.Produce?
    ensures Fates(Next(s, step), n) == Fates(s, n) + (if step == MakeReport && n == s.sequence + 1 then 1 else 0)
  {
    hide Settled, Flying, Next, Enabled, Empties;
    SenderSettled(s, step, n);
    SenderFlying(s, step, n);
  }

  /** Sending, draining, closing and reporting keep every record and every number accounted for. */
  lemma SenderKeeps(s: State, step: Step)
    requires Inv(s) && Enabled(s, step) && !step.Produce?
    ensures Inv(Next(s, step))
  {
    hide Places, Fates, Calls;
    var t := Next(s, step);
    forall r: nat ensures Places(t, r) == if r < t.capacity then 1 else 0 { SenderPlaces(s, step, r); }
    forall n: nat ensures Fates(t, n) == if 1 <= n <= t.sequence then 1 else 0 { SenderFates(s, step, n); }
    forall q | 0 <= q < |t.producers| ensures ProducerOk(t.producers[q], t.capacity, t.memory) {
      assert ProducerOk(s.producers[q], s.capacity, s.memory);
    }
  }

  lemma NextKeeps(s: State, step: Step)
    requires Inv(s) && Enabled(s, step)
    ensures Inv(Next(s, step))
  {
    hide Inv;
    if step.Produce? { ActedKeeps(s, step.p, step.act); } else { SenderKeeps(s, step); }
  }

  // ----- whole runs -----

  lemma {:induction false} QuietStart(n: nat, r: nat)
    ensures var ps := seq(n, _ => Quiet);
            Hands(ps, r) == 0 && Opens(ps, r) == 0 && Calls(ps) == 0
  {
    if n > 0 {
      QuietStart(n - 1, r);
      assert seq(n, _ => Quiet)[1..] == seq(n - 1, _ => Quiet);
    }
  }

  lemma {:induction false} CountRange(lo: nat, n: nat, r: nat)
    ensures Count(seq(n, i requires 0 <= i => lo + i), r) == if lo <= r < lo + n then 1 else 0
    decreases n
  {
    if n > 0 {
      CountRange(lo + 1, n - 1, r);
      assert seq(n, i requires 0 <= i => lo + i)[1..] == seq(n - 1, i requires 0 <= i => lo + 1 + i);
    }
  }

  lemma StartInv(capacity: nat, producers: nat)
    ensures Inv(Start(capacity, producers))
  {
    var s := Start(capacity, producers);
    QuietStart(producers, 0);
    assert Contents(s.memory, s.ready) == [];
    assert s.available == seq(capacity, i requires 0 <= i => 0 + i);
    forall r: nat ensures Places(s, r) == (if r < capacity then 1 else 0) && Fates(s, r) == 0 {
      QuietStart(producers, r);
      CountRange(0, capacity, r);
    }
  }

  ghost predicate IsRun(run: seq<State>, steps: seq<Step>) {
    && |run| == |steps| + 1
    && forall k | 0 <= k < |steps| :: Enabled(run[k], steps[k]) && run[k + 1] == Next(run[k], steps[k])
  }

  /** In every interleaving each record is in exactly one place and each number has exactly one fate. */
  lemma {:induction false} RunKeeps(run: seq<State>, steps: seq<Step>, capacity: nat, producers: nat, k: nat)
    requires IsRun(run, steps) && run[0] == Start(capacity, producers) && k < |run|
    ensures Inv(run[k])
  {
    hide Inv, Next, Enabled, Start;
    if k == 0 {
      StartInv(capacity, producers);
    } else {
      RunKeeps(run, steps, capacity, producers, k - 1);
      assert run[k] == Next(run[k - 1], steps[k - 1]);
      NextKeeps(run[k - 1], steps[k - 1]);
    }
  }

  ghost predicate Quiescent(s: State) {
    s.sender.Stopped? && forall p | 0 <= p < |s.producers| :: s.producers[p].Quiet?
  }

  lemma {:induction false} QuietCalls(ps: seq<Producer>)
    requires forall p | 0 <= p < |ps| :: ps[p].Quiet?
    ensures Calls(ps) == 0
  {
    if ps != [] { QuietCalls(ps[1..]); }
  }

  /**
   What `close` returns once the calls of `emit` are over and the sender has stopped. The report adds up,
   produced = emitted + drops + abandoned, exactly when five times the number of earlier reports equals
   the number of calls that raised: for the first report, when no call raised.
   */
  lemma ReportCloses(run: seq<State>, steps: seq<Step>, capacity: nat, producers: nat, k: nat)
    requires IsRun(run, steps) && run[0] == Start(capacity, producers) && k < |run|
    requires Quiescent(run[k]) && Enabled(run[k], MakeReport) && run[k].door.open
    ensures var r := ReportOf(run[k]);
            AddsUp(r) <==> |run[k].log.raised| == 5 * run[k].door.reports
    ensures var r := ReportOf(run[k]);
            r.peak <= capacity && r.abandoned <= capacity && r.stopped
  {
    hide Start, Enabled;
    RunKeeps(run, steps, capacity, producers, k);
    var s := run[k];
    QuietCalls(s.producers);
    AbandonedFits(s);
    SameCapacity(run, steps, k);
    StartFacts(capacity, producers);
  }

  predicate AddsUp(r: Report) { r.produced == r.emitted + r.drops.Sum() + r.abandoned }

  /** A `close` that found the sender stopped is the last one to return: every later one raises. */
  lemma {:induction false} ClosedForGood(run: seq<State>, steps: seq<Step>, j: nat, k: nat)
    requires IsRun(run, steps) && j <= k < |run| && !run[j].door.open
    ensures !run[k].door.open && run[k].door.reports == run[j].door.reports
  {
    hide Enabled;
    if k > j {
      ClosedForGood(run, steps, j, k - 1);
      assert run[k] == Next(run[k - 1], steps[k - 1]);
    }
  }

  lemma StartFacts(capacity: nat, producers: nat)
    ensures var s := Start(capacity, producers);
            && s.capacity == capacity == |s.available| == |s.memory| && s.ready == [] && |s.producers| == producers
            && (forall p | 0 <= p < producers :: s.producers[p] == Quiet) && s.sender == Unstarted
            && s.peak == 0 && s.sequence == 0 && s.emitted == 0 && s.drops == Drops(0, 0, 0, 0, 0, 0)
            && !s.door.deadline
            && !s.door.done
            && s.door.open && !s.door.closing && s.door.reports == 0 && s.log.raised == []
            && (forall r | r in s.available :: r < capacity)
  {
  }

  // ----- two runs whose report does not add up -----

  lemma DeadlineStep(s: State)
    requires !s.door.deadline
    ensures Enabled(s, SetDeadline) && Next(s, SetDeadline) == s.(door := s.door.(deadline := true))
  {
  }

  lemma DoneStep(s: State)
    requires s.door.deadline && !s.door.done
    ensures Enabled(s, SetDone) && Next(s, SetDone) == s.(door := s.door.(done := true))
  {
  }

  lemma StartStep(s: State)
    requires s.sender == Unstarted
    ensures Enabled(s, StartSender) && Next(s, StartSender) == s.(sender := Top)
  {
  }

  lemma StopStep(s: State)
    requires s.sender == Top && s.door.done && s.ready == []
    ensures Enabled(s, Loop) && Next(s, Loop) == s.(sender := Stopped)
  {
  }

  lemma ReportStep(s: State)
    requires s.door.done && !s.door.closing && s.door.open
    ensures Enabled(s, MakeReport) && Next(s, MakeReport) == Reported(s)
  {
  }

  lemma EndStep(s: State)
    requires s.door.closing && s.sender == Top
    ensures Enabled(s, EndClose) && Next(s, EndClose) == s.(door := s.door.(closing := false))
  {
  }

  /** The run one step further; `s` is where it has got to. */
  lemma Extend(run: seq<State>, steps: seq<Step>, s: State, step: Step) returns (longer: seq<State>, more: seq<Step>)
    requires IsRun(run, steps) && run[|steps|] == s && Enabled(s, step)
    ensures IsRun(longer, more) && longer[0] == run[0] && longer[|more|] == Next(s, step)
  {
    hide Next, Enabled;
    longer, more := run + [Next(s, step)], steps + [step];
  }

  /**
   A report that does not add up although no call raised: a first `close` gives up waiting for the sender and
   reports, the sender stops, and a second `close` reads counters that the first one has advanced.
   */
  lemma ReportedTwice(capacity: nat) returns (run: seq<State>, steps: seq<Step>)
    ensures IsRun(run, steps) && run[0] == Start(capacity, 0)
    ensures var s := run[|steps|];
            && Quiescent(s) && s.door.done && !s.door.closing && s.door.open && s.log.raised == []
            && s.door.reports == 1
            && !AddsUp(ReportOf(s)) && ReportOf(s).produced == 1 && ReportOf(s).drops.Sum() == 6
  {
    hide Start, Next, Enabled, IsRun;
    var s0 := Start(capacity, 0);
    StartFacts(capacity, 0);
    run, steps := StartRun(s0);
    DeadlineStep(s0);
    run, steps := Extend(run, steps, s0, SetDeadline);
    var s1 := s0.(door := s0.door.(deadline := true));
    DoneStep(s1);
    run, steps := Extend(run, steps, s1, SetDone);
    var s2 := s1.(door := s1.door.(done := true));
    StartStep(s2);
    run, steps := Extend(run, steps, s2, StartSender);
    var s3 := s2.(sender := Top);
    ReportStep(s3);
    run, steps := Extend(run, steps, s3, MakeReport);
    var s4 := Reported(s3);
    EndStep(s4);
    run, steps := Extend(run, steps, s4, EndClose);
    var s5 := s4.(door := s4.door.(closing := false));
    StopStep(s5);
    run, steps := Extend(run, steps, s5, Loop);
  }

  lemma StartRun(s: State) returns (run: seq<State>, steps: seq<Step>)
    ensures IsRun(run, steps) && run[0] == run[|steps|] == s
  {
    run, steps := [s], [];
  }

  /** One action of the only call of `emit`: its next phase, and all that it leaves alone. */
  lemma ActAlone(run: seq<State>, steps: seq<Step>, s: State, act: Act)
    returns (longer: seq<State>, more: seq<Step>, t: State)
    requires IsRun(run, steps) && run[|steps|] == s
    requires |s.producers| == 1 && Ready(s, s.producers[0], act) && !s.door.done && (act == Take ==> s.available != [])
    requires act !in {TooLong, Publish, Pack}
    ensures IsRun(longer, more) && longer[0] == run[0] && longer[|more|] == t
    ensures |t.producers| == 1 && t.producers[0] == AloneNext(s, s.producers[0], act)
    ensures t.door == s.door && t.ready == s.ready && t.sender == s.sender && t.drops == s.drops
            && t.emitted == s.emitted
    ensures t.sequence == s.sequence + (if act == Begin then 1 else 0)
    ensures t.log.raised == s.log.raised + (if act == Fail then [s.producers[0].n] else [])
    ensures |t.available| == |s.available| + (if act == Take then -1 else if act == GiveBack then 1 else 0)
  {
    t := Acted(s, 0, act);
    longer, more := Extend(run, steps, s, Produce(0, act));
  }

  function AloneNext(s: State, c: Producer, act: Act): Producer
    requires Ready(s, c, act) && (act == Take ==> s.available != [])
  {
    match act
    case Begin => Numbered(s.sequence + 1)
    case CheckDone => Admitted(c.n)
    case Take => Holding(c.n, s.available[0])
    case ReadPeak => Measured(c.n, c.rec, Max(s.peak, s.capacity - |s.available|))
    case WritePeak => Labelled(c.n, c.rec)
    case TooLong => Dropping(c.rec)
    case Fail => Dropping(c.rec)
    case Pack => Packed(c.n, c.rec)
    case Publish => Quiet
    case GiveBack => Quiet
  }

  /** A first report that does not add up because a call of `emit` raised. */
  lemma RaisedCall(capacity: nat) returns (run: seq<State>, steps: seq<Step>)
    requires capacity > 0
    ensures IsRun(run, steps) && run[0] == Start(capacity, 1)
    ensures var s := run[|steps|];
            && Quiescent(s) && s.door.done && !s.door.closing && s.door.open && |s.log.raised| == 1
            && s.door.reports == 0
            && !AddsUp(ReportOf(s)) && ReportOf(s).produced == 1 && ReportOf(s).drops.Sum() == 0
  {
    hide Start, Next, Enabled, IsRun;
    var s0 := Start(capacity, 1);
    StartFacts(capacity, 1);
    run, steps := StartRun(s0);
    var s1, s2, s3, s4, s5, s6, s7;
    run, steps, s1 := ActAlone(run, steps, s0, Begin);
    run, steps, s2 := ActAlone(run, steps, s1, CheckDone);
    run, steps, s3 := ActAlone(run, steps, s2, Take);
    run, steps, s4 := ActAlone(run, steps, s3, ReadPeak);
    run, steps, s5 := ActAlone(run, steps, s4, WritePeak);
    run, steps, s6 := ActAlone(run, steps, s5, Fail);
    run, steps, s7 := ActAlone(run, steps, s6, GiveBack);
    DeadlineStep(s7);
    run, steps := Extend(run, steps, s7, SetDeadline);
    var s8 := s7.(door := s7.door.(deadline := true));
    DoneStep(s8);
    run, steps := Extend(run, steps, s8, SetDone);
    var s9 := s8.(door := s8.door.(done := true));
    StartStep(s9);
    run, steps := Extend(run, steps, s9, StartSender);
    StopStep(s9.(sender := Top));
    run, steps := Extend(run, steps, s9.(sender := Top), Loop);
  }

  lemma {:induction false} SameCapacity(run: seq<State>, steps: seq<Step>, k: nat)
    requires IsRun(run, steps) && k < |run|
    ensures run[k].capacity == run[0].capacity
  {
    if k > 0 {
      SameCapacity(run, steps, k - 1);
      assert run[k] == Next(run[k - 1], steps[k - 1]);
    }
  }

  /** Records in the queue are different records of the pool. */
  lemma AbandonedFits(s: State)
    requires Placed(s)
    ensures |s.ready| <= s.capacity
  {
    var indices := Below(|s.ready|);
    var f := map i | i in indices :: s.ready[i];
    forall i | i in indices ensures f[i] in Below(s.capacity) {
      CountAt(s.ready, i);
      assert Places(s, s.ready[i]) <= 1;
    }
    forall i, j | i in indices && j in indices && i != j ensures f[i] != f[j] {
      assert Places(s, s.ready[i]) <= 1;
      if i < j { CountTwice(s.ready, i, j); } else { CountTwice(s.ready, j, i); }
    }
    InjectionSize(f, indices, Below(s.capacity));
    BelowSize(|s.ready|);
    BelowSize(s.capacity);
  }

  lemma {:induction false} CountTwice(xs: seq<nat>, i: nat, j: nat)
    requires i < j < |xs|
    ensures xs[i] == xs[j] ==> Count(xs, xs[i]) >= 2
  {
    if i == 0 { CountAt(xs[1..], j - 1); } else { CountTwice(xs[1..], i - 1, j - 1); }
  }

  /** Each number is sent at most once, and every packet that is sent is one the receiver accepts. */
  lemma SentOnce(run: seq<State>, steps: seq<Step>, capacity: nat, producers: nat, k: nat)
    requires IsRun(run, steps) && run[0] == Start(capacity, producers) && k < |run|
    ensures forall i, j | 0 <= i < j < |run[k].log.sent| :: run[k].log.sent[i] != run[k].log.sent[j]
    ensures forall i | 0 <= i < |run[k].log.sent| :: 1 <= run[k].log.sent[i] <= run[k].sequence
    ensures run[k].sender.Sending? ==> 1 <= |run[k].sender.packet| <= MAX_PACKET_RECORDS
  {
    RunKeeps(run, steps, capacity, producers, k);
    var s := run[k];
    forall i | 0 <= i < |s.log.sent| ensures 1 <= s.log.sent[i] <= s.sequence {
      CountAt(s.log.sent, i);
      assert Fates(s, s.log.sent[i]) == if 1 <= s.log.sent[i] <= s.sequence then 1 else 0;
    }
    forall i, j | 0 <= i < j < |s.log.sent| ensures s.log.sent[i] != s.log.sent[j] {
      CountTwice(s.log.sent, i, j);
      assert Fates(s, s.log.sent[i]) == if 1 <= s.log.sent[i] <= s.sequence then 1 else 0;
    }
  }
}
