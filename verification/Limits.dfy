/** Request channels, their roles and caps, and the concurrency limiter built on them. */
module Channels {
  import opened Common

  datatype Role = W | R | C | Q

  datatype Channel = Child | Rotation | Batch | Structure | Since | Detail | Status | Verify {

    function Role(): Role {
      match this
      case Child => W
      case Rotation => R
      case Batch => C
      case Structure => C
      case Since => Q
      case Detail => Q
      case Status => Q
      case Verify => Q
    }

    function Cap(): nat {
      match this
      case Child => 250
      case Rotation => 16
      case _ => 1
    }

    /** Channels whose requests work on a pool task. */
    predicate Pooled() { Child? || Rotation? }
  }

  /** Why a request was not sent. */
  datatype Refusal = GlobalBusy | RoleBusy | PoolBusy | TaskBusy | StageBusy | DispatchBusy | Expired
}

module ConcurrencyLimits {
  import opened Common
  import opened Channels

  const GLOBAL_CAP: nat := 256
  const POOL_CAP: nat := 250

  type Holder = (Channel, Option<string>)

  datatype LimitsState = LimitsState(
      active: map<nat, Holder>, counts: multiset<Channel>, pool: nat, paths: set<string>,
      peak: map<Channel, nat>, peakPool: nat, peakGlobal: nat, rotating: set<nat>) {

    /** Which cap, if any, a request on the channel would hit. */
    function Reason(channel: Channel, path: Option<string>): Option<Refusal> {
      if |active| >= GLOBAL_CAP then Some(GlobalBusy)
      else if counts[channel] >= channel.Cap() then Some(RoleBusy)
      else if channel.Pooled() && pool >= POOL_CAP then Some(PoolBusy)
      else if path.Some? && path.value in paths then Some(TaskBusy)
      else None
    }

    function PeakOf(channel: Channel): nat { if channel in peak then peak[channel] else 0 }

    function Entered(rid: nat, channel: Channel, path: Option<string>): LimitsState {
      this.(active := active[rid := (channel, path)],
            counts := counts[channel := counts[channel] + 1],
            pool := if channel.Pooled() then pool + 1 else pool,
            paths := if path.Some? then paths + {path.value} else paths)
    }

    function Peaked(channel: Channel): LimitsState {
      this.(peak := peak[channel := Max(PeakOf(channel), counts[channel])],
            peakPool := Max(peakPool, pool), peakGlobal := Max(peakGlobal, |active|))
    }

    function Admitted(rid: nat, channel: Channel, path: Option<string>): LimitsState {
      Entered(rid, channel, path).Peaked(channel)
    }

    /** A refusal leaves everything as it was; a repeated identity raises. */
    function Acquire(rid: nat, channel: Channel, path: Option<string>): Result<(LimitsState, Option<Refusal>), string> {
      if Reason(channel, path).Some? then Success((this, Reason(channel, path)))
      else if rid in active then Failure("duplicate request identity")
      else Success((Admitted(rid, channel, path), None))
    }

    function Released(rid: nat): LimitsState
      requires rid in active && active[rid].0 in counts && (active[rid].0.Pooled() ==> pool > 0)
    {
      var (channel, path) := active[rid];
      this.(active := active - {rid}, counts := counts[channel := counts[channel] - 1],
            pool := if channel.Pooled() then pool - 1 else pool,
            paths := if path.Some? then paths - {path.value} else paths)
    }

    predicate Releasable(rid: nat) {
      rid in active && active[rid].0 in counts && (active[rid].0.Pooled() ==> pool > 0)
      && (active[rid].1.Some? ==> active[rid].1.value in paths)
    }

    /** The counters say what `active` says. */
    ghost predicate Counted() {
      && (forall c: Channel :: counts[c] == |On(active, c)|)
      && pool == counts[Child] + counts[Rotation]
    }

    /** `paths` holds the paths of the active requests, each owned by one request. */
    ghost predicate PathsOwned() {
      && paths == PathsOf(active)
      && (forall q, r | q in active && r in active && q != r && active[q].1.Some? :: active[q].1 != active[r].1)
    }

    ghost predicate WithinCaps() {
      && (forall c: Channel :: counts[c] <= PeakOf(c) <= c.Cap())
      && pool <= peakPool <= POOL_CAP
      && |active| <= peakGlobal <= GLOBAL_CAP
    }

    ghost predicate Tight() { Counted() && PathsOwned() && WithinCaps() }
  }

  /** The active requests of one channel. */
  ghost function On(active: map<nat, Holder>, channel: Channel): set<nat> {
    set r | r in active && active[r].0 == channel
  }

  ghost function PathsOf(active: map<nat, Holder>): set<string> {
    set r | r in active && active[r].1.Some? :: active[r].1.value
  }

  const EMPTY: LimitsState := LimitsState(map[], multiset{}, 0, {}, map[], 0, 0, {})

  lemma EmptyTight()
    ensures EMPTY.Tight()
  {
  }

  /** The number of active requests is the sum of the channel counters. */
  lemma ActiveIsSum(l: LimitsState)
    requires l.Counted()
    ensures |l.active| == l.pool + l.counts[Batch] + l.counts[Structure] + l.counts[Since]
                          + l.counts[Detail] + l.counts[Status] + l.counts[Verify]
  {
    hide On, OnAny;
    var a := l.active;
    var query: set<Channel> := {Since} + {Detail} + {Status} + {Verify};
    Peel(a, {}, Since);
    Peel(a, {Since}, Detail);
    Peel(a, {Since} + {Detail}, Status);
    Peel(a, {Since} + {Detail} + {Status}, Verify);
    Peel(a, query, Batch);
    Peel(a, query + {Batch}, Structure);
    Peel(a, query + {Batch} + {Structure}, Child);
    Peel(a, query + {Batch} + {Structure} + {Child}, Rotation);
    forall c: Channel ensures c in query + {Batch} + {Structure} + {Child} + {Rotation} {
      match c case Child => case Rotation => case Batch => case Structure =>
      case Since => case Detail => case Status => case Verify =>
    }
    EveryChannel(a, query + {Batch} + {Structure} + {Child} + {Rotation});
    assert {} + {Since} == {Since};
  }

  ghost function OnAny(active: map<nat, Holder>, channels: set<Channel>): set<nat> {
    set r | r in active && active[r].0 in channels
  }

  lemma EveryChannel(a: map<nat, Holder>, all: set<Channel>)
    requires forall c: Channel :: c in all
    ensures OnAny(a, all) == a.Keys && OnAny(a, {}) == {}
  {
  }

  lemma Peel(a: map<nat, Holder>, rest: set<Channel>, c: Channel)
    requires c !in rest
    ensures |OnAny(a, rest + {c})| == |OnAny(a, rest)| + |On(a, c)|
  {
    assert OnAny(a, rest + {c}) == OnAny(a, rest) + On(a, c);
  }

  /** Which cap refuses a request, the first that is reached: 256 in all, then the channel's, the pool's, its task. */
  lemma ReasonMeans(l: LimitsState, channel: Channel, path: Option<string>)
    ensures var cap := match channel case Child => 250 case Rotation => 16 case _ => 1;
            var pooled := channel == Child || channel == Rotation;
            match l.Reason(channel, path)
            case Some(GlobalBusy) => |l.active| >= 256
            case Some(RoleBusy) => |l.active| < 256 && l.counts[channel] >= cap
            case Some(PoolBusy) => |l.active| < 256 && l.counts[channel] < cap && pooled && l.pool >= 250
            case Some(TaskBusy) =>
              && |l.active| < 256 && l.counts[channel] < cap && (pooled ==> l.pool < 250)
              && path.Some? && path.value in l.paths
            case None =>
              && |l.active| < 256 && l.counts[channel] < cap && (pooled ==> l.pool < 250)
              && (path.Some? ==> path.value !in l.paths)
            case _ => false
  {
  }

  /**
   250 pool tasks and six single-slot channels are exactly the global cap: it is reached only when
   every slot is taken, so it never refuses a request that the other caps would let through.
   */
  lemma GlobalCapExact(l: LimitsState, channel: Channel, path: Option<string>)
    requires l.Tight()
    ensures l.Reason(channel, path) == Some(GlobalBusy) <==>
            l.pool == POOL_CAP && forall c: Channel | !c.Pooled() :: l.counts[c] == 1
    ensures l.Reason(channel, path) == Some(GlobalBusy) ==>
            l.counts[channel] >= channel.Cap() || (channel.Pooled() && l.pool >= POOL_CAP)
  {
    hide LimitsState.Counted, LimitsState.PathsOwned;
    ActiveIsSum(l);
    SingleSlots(l);
    hide LimitsState.WithinCaps, Channel.Cap;
    assert Child.Cap() == 250 && Rotation.Cap() == 16 by { PoolCaps(); }
  }

  lemma PoolCaps()
    ensures Child.Cap() == 250 && Rotation.Cap() == 16
  {
  }

  lemma SingleSlots(l: LimitsState)
    requires l.WithinCaps()
    ensures forall c: Channel | !c.Pooled() :: l.counts[c] <= c.Cap() == 1
    ensures l.pool <= POOL_CAP
  {
  }

  /** The channel sets after a request is admitted. */
  lemma OnAdmitted(active: map<nat, Holder>, rid: nat, h: Holder, c: Channel)
    requires rid !in active
    ensures |On(active[rid := h], c)| == |On(active, c)| + (if h.0 == c then 1 else 0)
  {
    OnWith(active, rid, h, c);
  }

  lemma OnWith(active: map<nat, Holder>, rid: nat, h: Holder, c: Channel)
    requires rid !in active
    ensures rid !in On(active, c)
    ensures On(active[rid := h], c) == if h.0 == c then On(active, c) + {rid} else On(active, c)
  {
    var more := active[rid := h];
    forall r ensures r in On(more, c) <==> r in On(active, c) || (r == rid && h.0 == c) {
      assert r != rid ==> (r in more <==> r in active) && (r in active ==> more[r] == active[r]);
    }
  }

  lemma OnReleased(active: map<nat, Holder>, rid: nat, c: Channel)
    requires rid in active
    ensures |On(active - {rid}, c)| == |On(active, c)| - (if active[rid].0 == c then 1 else 0)
  {
    var after := On(active - {rid}, c);
    if active[rid].0 == c {
      assert after == On(active, c) - {rid};
    } else {
      assert after == On(active, c);
    }
  }

  lemma AdmittedCounted(l: LimitsState, rid: nat, channel: Channel, path: Option<string>)
    requires l.Counted() && rid !in l.active
    ensures l.Admitted(rid, channel, path).Counted()
  {
    var m := l.Admitted(rid, channel, path);
    forall c: Channel ensures m.counts[c] == |On(m.active, c)| {
      OnAdmitted(l.active, rid, (channel, path), c);
    }
  }

  lemma AdmittedPaths(l: LimitsState, rid: nat, channel: Channel, path: Option<string>)
    requires l.PathsOwned() && rid !in l.active && (path.Some? ==> path.value !in l.paths)
    ensures l.Admitted(rid, channel, path).PathsOwned()
  {
    var m := l.Admitted(rid, channel, path);
    if path.Some? {
      assert m.active[rid].1.value == path.value;
    }
    forall p | p in l.paths ensures p in PathsOf(m.active) {
      var r :| r in l.active && l.active[r].1 == Some(p);
      assert r in m.active && m.active[r] == l.active[r];
    }
    assert m.paths == PathsOf(m.active);
    forall q, r | q in m.active && r in m.active && q != r && m.active[q].1.Some?
      ensures m.active[q].1 != m.active[r].1
    {
      if q in l.active && l.active[q].1.Some? { assert l.active[q].1.value in PathsOf(l.active); }
      if r in l.active && l.active[r].1.Some? { assert l.active[r].1.value in PathsOf(l.active); }
    }
  }

  lemma AdmittedTight(l: LimitsState, rid: nat, channel: Channel, path: Option<string>)
    requires l.Tight() && l.Reason(channel, path).None? && rid !in l.active
    ensures l.Admitted(rid, channel, path).Tight()
  {
    AdmittedCounted(l, rid, channel, path);
    AdmittedPaths(l, rid, channel, path);
    AdmittedCaps(l, rid, channel, path);
  }

  lemma AdmittedCaps(l: LimitsState, rid: nat, channel: Channel, path: Option<string>)
    requires l.WithinCaps() && rid !in l.active
    requires |l.active| < GLOBAL_CAP && l.counts[channel] < channel.Cap() && (channel.Pooled() ==> l.pool < POOL_CAP)
    ensures l.Admitted(rid, channel, path).WithinCaps()
  {
  }

  lemma ActiveReleasable(l: LimitsState, rid: nat)
    requires l.Tight() && rid in l.active
    ensures l.Releasable(rid)
  {
    var c := l.active[rid].0;
    assert rid in On(l.active, c);
    assert l.counts[c] == |On(l.active, c)| > 0;
  }

  lemma ReleasedCounted(l: LimitsState, rid: nat)
    requires l.Counted() && l.Releasable(rid)
    ensures l.Released(rid).Counted()
  {
    var m := l.Released(rid);
    forall c: Channel ensures m.counts[c] == |On(m.active, c)| {
      OnReleased(l.active, rid, c);
    }
  }

  lemma ReleasedPaths(l: LimitsState, rid: nat)
    requires l.PathsOwned() && l.Releasable(rid)
    ensures l.Released(rid).PathsOwned()
  {
    var m := l.Released(rid);
    forall p | p in m.paths ensures p in PathsOf(m.active) {
      var r :| r in l.active && l.active[r].1 == Some(p);
      assert r in m.active && m.active[r] == l.active[r];
    }
    assert m.paths == PathsOf(m.active);
  }

  lemma ReleasedTight(l: LimitsState, rid: nat)
    requires l.Tight() && rid in l.active
    ensures l.Releasable(rid) && l.Released(rid).Tight()
  {
    ActiveReleasable(l, rid);
    ReleasedCounted(l, rid);
    ReleasedPaths(l, rid);
    ReleasedCaps(l, rid);
  }

  lemma ReleasedCaps(l: LimitsState, rid: nat)
    requires l.WithinCaps() && l.Releasable(rid)
    ensures l.Released(rid).WithinCaps()
  {
  }

  // ----- peaks over a whole history -----

  datatype Use = Ask(rid: nat, channel: Channel, path: Option<string>) | Return(rid: nat)

  /** A refused or repeated request and the return of a slot nobody holds change nothing. */
  function Used(l: LimitsState, u: Use): LimitsState {
    match u
    case Ask(rid, channel, path) =>
      (match l.Acquire(rid, channel, path) case Success(v) => v.0 case Failure(_) => l)
    case Return(rid) => if l.Releasable(rid) then l.Released(rid) else l
  }

  function AfterUses(uses: seq<Use>): LimitsState {
    if uses == [] then EMPTY else Used(AfterUses(uses[..|uses|-1]), uses[|uses|-1])
  }

  /** What is measured: all requests, those of the pool, or those of one channel. */
  datatype Gauge = Everything | PoolOnly | One(channel: Channel)

  function Level(l: LimitsState, g: Gauge): nat {
    match g case Everything => |l.active| case PoolOnly => l.pool case One(c) => l.counts[c]
  }

  function Peak(l: LimitsState, g: Gauge): nat {
    match g case Everything => l.peakGlobal case PoolOnly => l.peakPool case One(c) => l.PeakOf(c)
  }

  /** The highest level in the whole history. */
  function Highest(uses: seq<Use>, g: Gauge): nat {
    if uses == [] then 0 else Max(Highest(uses[..|uses|-1], g), Level(AfterUses(uses), g))
  }

  /** The recorded peaks are the highest levels ever reached. */
  lemma {:induction false} PeaksMean(uses: seq<Use>, g: Gauge)
    ensures AfterUses(uses).Tight() && Peak(AfterUses(uses), g) == Highest(uses, g)
    decreases |uses|
  {
    hide LimitsState.Tight, Level, Peak, Used;
    if uses == [] {
      EmptyTight();
      assert Peak(EMPTY, g) == 0 by { PeakStart(g); }
    } else {
      PeaksMean(uses[..|uses|-1], g);
      PeakStep(AfterUses(uses[..|uses|-1]), uses[|uses|-1], g);
    }
  }

  lemma PeakStart(g: Gauge)
    ensures Peak(EMPTY, g) == 0
  {
  }

  lemma PeakStep(l: LimitsState, u: Use, g: Gauge)
    requires l.Tight()
    ensures Used(l, u).Tight() && Peak(Used(l, u), g) == Max(Peak(l, g), Level(Used(l, u), g))
  {
    hide LimitsState.Tight, LimitsState.Reason, LimitsState.Admitted, LimitsState.Released, Level, Peak;
    PeakAbove(l, g);
    match u
    case Ask(rid, channel, path) =>
      if l.Reason(channel, path).None? && rid !in l.active {
        AdmittedTight(l, rid, channel, path);
        PeakAdmitted(l, rid, channel, path, g);
      }
    case Return(rid) =>
      if l.Releasable(rid) {
        ReleasedTight(l, rid);
        PeakReleased(l, rid, g);
      }
  }

  lemma PeakAbove(l: LimitsState, g: Gauge)
    requires l.Tight()
    ensures Level(l, g) <= Peak(l, g)
  {
  }

  lemma PeakAdmitted(l: LimitsState, rid: nat, channel: Channel, path: Option<string>, g: Gauge)
    requires Level(l, g) <= Peak(l, g)
    ensures var m := l.Admitted(rid, channel, path); Peak(m, g) == Max(Peak(l, g), Level(m, g))
  {
  }

  lemma PeakReleased(l: LimitsState, rid: nat, g: Gauge)
    requires l.Releasable(rid) && Level(l, g) <= Peak(l, g)
    ensures Peak(l.Released(rid), g) == Peak(l, g) && Level(l.Released(rid), g) <= Level(l, g)
  {
  }

  // ----- a run that uses every slot -----

  /** The k-th request of the run: 250 children, then one request on each single-slot channel. */
  function Nth(k: nat): Channel {
    if k < 250 then Child
    else if k == 250 then Batch
    else if k == 251 then Structure
    else if k == 252 then Since
    else if k == 253 then Detail
    else if k == 254 then Status
    else Verify
  }

  /** Each child works on a task of its own. */
  function NthPath(k: nat): Option<string> {
    if k < 250 then Some("/" + seq(k, _ => 'x')) else None
  }

  /** The limiter after n requests of the run. */
  function Filled(n: nat): LimitsState {
    if n == 0 then EMPTY
    else match Filled(n - 1).Acquire(n - 1, Nth(n - 1), NthPath(n - 1))
      case Success(v) => v.0
      case Failure(_) => Filled(n - 1)
  }

  /** How many of the first n requests are on the channel. */
  function FirstOn(n: nat, c: Channel): nat {
    if n == 0 then 0 else FirstOn(n - 1, c) + (if Nth(n - 1) == c then 1 else 0)
  }

  lemma {:induction false} FirstOnIs(n: nat, c: Channel)
    requires n <= GLOBAL_CAP
    ensures FirstOn(n, c) == if c == Child then Min(n, 250) else if c == Rotation then 0
                           else if c == Batch then Min(1, Max(0, n - 250))
                           else if c == Structure then Min(1, Max(0, n - 251))
                           else if c == Since then Min(1, Max(0, n - 252))
                           else if c == Detail then Min(1, Max(0, n - 253))
                           else if c == Status then Min(1, Max(0, n - 254)) else Min(1, Max(0, n - 255))
  {
    if n > 0 { FirstOnIs(n - 1, c); }
  }

  ghost predicate FilledTo(l: LimitsState, n: nat) {
    && l.Tight() && |l.active| == n && (forall r | r in l.active :: r < n)
    && (forall p | p in l.paths :: |p| <= n)
    && (forall c: Channel :: l.counts[c] == FirstOn(n, c)) && l.pool == FirstOn(n, Child)
  }

  /** The next request of the run meets no cap. */
  lemma FillReason(l: LimitsState, n: nat)
    requires FilledTo(l, n) && n < GLOBAL_CAP
    ensures l.Reason(Nth(n), NthPath(n)).None?
  {
    hide LimitsState.Tight;
    FirstOnIs(n, Nth(n));
    FirstOnIs(n, Child);
  }

  lemma FillStep(l: LimitsState, n: nat)
    requires FilledTo(l, n) && n < GLOBAL_CAP
    ensures l.Acquire(n, Nth(n), NthPath(n)) == Success((l.Admitted(n, Nth(n), NthPath(n)), None))
    ensures FilledTo(l.Admitted(n, Nth(n), NthPath(n)), n + 1)
  {
    hide LimitsState.Tight, Nth, FirstOn, LimitsState.Reason, NthPath;
    FillReason(l, n);
    AdmittedTight(l, n, Nth(n), NthPath(n));
    FirstOnNext(n);
    assert NthPath(n).Some? ==> |NthPath(n).value| <= n + 1 by { PathLength(n); }
  }

  lemma PathLength(n: nat)
    ensures NthPath(n).Some? ==> |NthPath(n).value| == n + 1
  {
  }

  lemma FirstOnNext(n: nat)
    ensures forall c: Channel :: FirstOn(n + 1, c) == FirstOn(n, c) + (if Nth(n) == c then 1 else 0)
    ensures Nth(n).Pooled() ==> Nth(n) == Child
  {
  }

  lemma {:induction false} FillsUp(n: nat)
    requires n <= GLOBAL_CAP
    ensures FilledTo(Filled(n), n)
  {
    hide FilledTo, LimitsState.Acquire, LimitsState.Admitted;
    if n == 0 {
      FilledStart();
    } else {
      FillsUp(n - 1);
      FillStep(Filled(n - 1), n - 1);
    }
  }

  lemma FilledStart()
    ensures FilledTo(EMPTY, 0)
  {
    EmptyTight();
  }

  /**
   So the global cap does refuse: `acquire` admits 256 requests one after the other, the children on different
   tasks, and turns every further one down with `global_busy`.
   */
  lemma GlobalBusyHappens(channel: Channel, path: Option<string>)
    ensures Filled(0) == EMPTY
    ensures forall n: nat | n < GLOBAL_CAP :: Filled(n).Acquire(n, Nth(n), NthPath(n)) == Success((Filled(n + 1), None))
    ensures Filled(GLOBAL_CAP).Acquire(GLOBAL_CAP, channel, path) == Success((Filled(GLOBAL_CAP), Some(GlobalBusy)))
  {
    FillsUp(GLOBAL_CAP);
    forall n: nat | n < GLOBAL_CAP
      ensures Filled(n).Acquire(n, Nth(n), NthPath(n)) == Success((Filled(n + 1), None))
    {
      FillsUp(n);
      FillStep(Filled(n), n);
    }
  }

  class Limits {
    var active: map<nat, Holder>
    var counts: multiset<Channel>
    var pool: nat
    var paths: set<string>
    var peak: map<Channel, nat>
    var peakPool: nat
    var peakGlobal: nat
    var rotating: set<nat>

    function State(): LimitsState reads this {
      LimitsState(active, counts, pool, paths, peak, peakPool, peakGlobal, rotating)
    }

    constructor ()
      ensures State() == EMPTY
    {
      active, counts, pool, paths := map[], multiset{}, 0, {};
      peak, peakPool, peakGlobal, rotating := map[], 0, 0, {};
    }

    method Acquire(rid: nat, channel: Channel, path: Option<string>) returns (r: Result<Option<Refusal>, string>)
      modifies this
      ensures match old(State()).Acquire(rid, channel, path)
              case Success(v) => State() == v.0 && r == Success(v.1)
              case Failure(e) => State() == old(State()) && r == Failure(e)
    {
      var reason := State().Reason(channel, path);
      if reason.Some? {
        return Success(reason);
      }
      if rid in active {
        return Failure("duplicate request identity");
      }
      Enter(rid, channel, path);
      NotePeaks(channel);
      return Success(None);
    }

    method Enter(rid: nat, channel: Channel, path: Option<string>)
      modifies this
      ensures State() == old(State()).Entered(rid, channel, path)
    {
      hide Channel.Pooled;
      active, counts := active[rid := (channel, path)], counts[channel := counts[channel] + 1];
      pool, paths := if channel.Pooled() then pool + 1 else pool, if path.Some? then paths + {path.value} else paths;
    }

    method NotePeaks(channel: Channel)
      modifies this
      ensures State() == old(State()).Peaked(channel)
    {
      peak := peak[channel := Max(State().PeakOf(channel), counts[channel])];
      peakPool := Max(peakPool, pool);
      peakGlobal := Max(peakGlobal, |active|);
    }

    method Release(rid: nat)
      requires State().Releasable(rid)
      modifies this
      ensures State() == old(State()).Released(rid)
    {
      var (channel, path) := active[rid];
      active := active - {rid};
      counts := counts[channel := counts[channel] - 1];
      pool := if channel.Pooled() then pool - 1 else pool;
      paths := if path.Some? then paths - {path.value} else paths;
    }
  }
}
