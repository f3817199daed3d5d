/** Nested intervals: inclusive and exclusive times on a stack, and the sums that must close exactly. */
module IntervalSpans {
  import opened Common

  const MAX_DEPTH: nat := 128
  const MAX_NAMES: nat := 16
  const MAX_ERRORS: nat := 16

  /** The two clocks of one reading. */
  datatype Clock = Clock(wall: int, cpu: int) {

    function Read(processor: bool): int { if processor then cpu else wall }
  }

  /**
   One interval: its readings, the intervals inside it, whether its body ends in an exception of its own, and
   whether the code around it catches an exception that leaves it.
   */
  datatype Span = Span(name: string, enter: Clock, leave: Clock, kids: seq<Span>, raises: bool, caught: bool) {

    function Used(processor: bool): int { leave.Read(processor) - enter.Read(processor) }
  }

  // ----- well-nested intervals -----

  predicate NotAfter(a: Clock, b: Clock) { a.wall <= b.wall && a.cpu <= b.cpu }

  /** Clocks never go back along the spans, children in order and inside their parent. */
  predicate Ordered(s: Span) {
    && NotAfter(s.enter, s.leave)
    && (forall i | 0 <= i < |s.kids| ::
          Ordered(s.kids[i]) && NotAfter(s.enter, s.kids[i].enter) && NotAfter(s.kids[i].leave, s.leave))
    && (forall i, j | 0 <= i < j < |s.kids| :: NotAfter(s.kids[i].leave, s.kids[j].enter))
  }

  /** The time of the first k children. */
  function KidsUsed(s: Span, k: nat, processor: bool): int
    requires k <= |s.kids|
  {
    if k == 0 then 0 else KidsUsed(s, k - 1, processor) + s.kids[k - 1].Used(processor)
  }

  /** The children fit into what has passed of their parent. */
  lemma {:induction false} KidsFit(s: Span, k: nat, processor: bool)
    requires Ordered(s) && k <= |s.kids|
    ensures 0 <= KidsUsed(s, k, processor) <= s.Used(processor)
    ensures k > 0 ==> KidsUsed(s, k, processor) <= s.kids[k - 1].leave.Read(processor) - s.enter.Read(processor)
  {
    if k > 0 {
      KidsFit(s, k - 1, processor);
      var kid := s.kids[k - 1];
      assert Ordered(kid) && NotAfter(s.enter, kid.enter) && NotAfter(kid.leave, s.leave);
      if k > 1 { assert NotAfter(s.kids[k - 2].leave, kid.enter); }
    }
  }

  // ----- what a tree of intervals adds up to -----

  /** The exclusive times by name. */
  ghost function Own(s: Span, processor: bool): multiset<string>
    requires Ordered(s)
    decreases s, |s.kids| + 1
  {
    KidsFit(s, |s.kids|, processor);
    multiset{}[s.name := s.Used(processor) - KidsUsed(s, |s.kids|, processor)] + KidsOwn(s, |s.kids|, processor)
  }

  ghost function KidsOwn(s: Span, k: nat, processor: bool): multiset<string>
    requires Ordered(s) && k <= |s.kids|
    decreases s, k
  {
    if k == 0 then multiset{} else KidsOwn(s, k - 1, processor) + Own(s.kids[k - 1], processor)
  }

  /** The inclusive times by name. */
  ghost function Inclusive(s: Span, processor: bool): multiset<string>
    requires Ordered(s)
    decreases s, |s.kids| + 1
  {
    assert NotAfter(s.enter, s.leave);
    multiset{}[s.name := s.Used(processor)] + KidsInclusive(s, |s.kids|, processor)
  }

  ghost function KidsInclusive(s: Span, k: nat, processor: bool): multiset<string>
    requires Ordered(s) && k <= |s.kids|
    decreases s, k
  {
    if k == 0 then multiset{} else KidsInclusive(s, k - 1, processor) + Inclusive(s.kids[k - 1], processor)
  }

  /** How often each name occurs. */
  ghost function Entries(s: Span): multiset<string>
    decreases s, |s.kids| + 1
  {
    multiset{s.name} + KidsEntries(s, |s.kids|)
  }

  ghost function KidsEntries(s: Span, k: nat): multiset<string>
    requires k <= |s.kids|
    decreases s, k
  {
    if k == 0 then multiset{} else KidsEntries(s, k - 1) + Entries(s.kids[k - 1])
  }

  /** The names of the spans that no exception left. */
  ghost function Finished(s: Span): multiset<string>
    decreases s, |s.kids| + 1
  {
    (if s.raises then multiset{} else multiset{s.name}) + KidsFinished(s, |s.kids|)
  }

  ghost function KidsFinished(s: Span, k: nat): multiset<string>
    requires k <= |s.kids|
    decreases s, k
  {
    if k == 0 then multiset{} else KidsFinished(s, k - 1) + Finished(s.kids[k - 1])
  }

  /** The exclusive times of a whole tree add up to the time of its root. */
  lemma {:induction false} OwnAddsUp(s: Span, processor: bool)
    requires Ordered(s)
    ensures |Own(s, processor)| == s.Used(processor)
    decreases s, |s.kids| + 1
  {
    KidsFit(s, |s.kids|, processor);
    KidsAddUp(s, |s.kids|, processor);
  }

  lemma {:induction false} KidsAddUp(s: Span, k: nat, processor: bool)
    requires Ordered(s) && k <= |s.kids|
    ensures |KidsOwn(s, k, processor)| == KidsUsed(s, k, processor)
    decreases s, k
  {
    if k > 0 {
      KidsAddUp(s, k - 1, processor);
      OwnAddsUp(s.kids[k - 1], processor);
    }
  }

  // ----- capacity -----

  predicate Calm(s: Span) { !s.raises && forall i | 0 <= i < |s.kids| :: Calm(s.kids[i]) }

  predicate NoDeeper(s: Span, room: int) { 1 <= room && forall i | 0 <= i < |s.kids| :: NoDeeper(s.kids[i], room - 1) }

  // ----- what becomes of a tree of spans -----

  /** What is left of a span: the part that was entered, whether an exception leaves it, and the codes it leaves. */
  datatype Trim = Trim(span: Option<Span>, raised: bool, codes: seq<string>)

  datatype Kept = Kept(kids: seq<Span>, raised: bool, codes: seq<string>)

  /** The names seen so far. */
  function NamesIn(entered: multiset<string>): set<string> { set n | n in entered }

  /**
   A span is refused when a capacity is used up. Otherwise its children run until an exception escapes, and it
   ends in an exception if one has escaped or it raises one itself.
   */
  ghost function Cut(s: Span, entered: multiset<string>, depth: nat, limit: nat): Trim
    decreases s, |s.kids| + 1
  {
    if |entered| >= limit || depth >= MAX_DEPTH then Trim(None, true, ["interval_capacity"])
    else if s.name !in entered && |NamesIn(entered)| >= MAX_NAMES then Trim(None, true, ["bucket_capacity"])
    else
      var inner := CutKids(s, |s.kids|, entered, depth, limit);
      var raised := inner.raised || s.raises;
      Trim(Some(s.(kids := inner.kids, raises := raised)), raised,
           inner.codes + if raised then ["interval_exception:" + s.name] else [])
  }

  /** The first k children: after an exception that is not caught no further child runs. */
  ghost function CutKids(s: Span, k: nat, entered: multiset<string>, depth: nat, limit: nat): Kept
    requires k <= |s.kids|
    decreases s, k
  {
    if k == 0 then Kept([], false, [])
    else
      var before := CutKids(s, k - 1, entered, depth, limit);
      if before.raised then before
      else
        var u := s.(kids := before.kids);
        var kid := Cut(s.kids[k - 1], entered + multiset{s.name} + KidsEntries(u, |u.kids|), depth + 1, limit);
        Kept(before.kids + (if kid.span.Some? then [kid.span.value] else []), kid.raised && !s.kids[k - 1].caught,
             before.codes + kid.codes)
  }

  /** Kept children are in order, and before all that are still to come. */
  ghost predicate InOrder(s: Span, k: nat, kept: seq<Span>) {
    && Ordered(s.(kids := kept))
    && forall i, j | 0 <= i < |kept| && k <= j < |s.kids| :: NotAfter(kept[i].leave, s.kids[j].enter)
  }

  lemma InOrderNext(s: Span, k: nat, kept: seq<Span>, kid: Span)
    requires Ordered(s) && k < |s.kids| && InOrder(s, k, kept)
    requires Ordered(kid) && kid.enter == s.kids[k].enter && kid.leave == s.kids[k].leave
    ensures InOrder(s, k + 1, kept) && InOrder(s, k + 1, kept + [kid])
  {
    var u := s.(kids := kept + [kid]);
    forall i | 0 <= i < |u.kids|
      ensures Ordered(u.kids[i]) && NotAfter(u.enter, u.kids[i].enter) && NotAfter(u.kids[i].leave, u.leave)
    {
      if i < |kept| { assert s.(kids := kept).kids[i] == u.kids[i]; } else { assert Ordered(s.kids[k]); }
    }
    forall i, j | 0 <= i < j < |u.kids| ensures NotAfter(u.kids[i].leave, u.kids[j].enter) {
      if j < |kept| { assert NotAfter(s.(kids := kept).kids[i].leave, s.(kids := kept).kids[j].enter); }
    }
  }

  /** What is left of a span with clocks that never go back is such a span again, with the same readings. */
  lemma {:induction false} CutOrdered(s: Span, entered: multiset<string>, depth: nat, limit: nat)
    requires Ordered(s)
    ensures var c := Cut(s, entered, depth, limit).span;
            c.Some? ==>
              Ordered(c.value) && c.value.name == s.name && c.value.enter == s.enter && c.value.leave == s.leave
    decreases s, |s.kids| + 1
  {
    hide Ordered;
    CutKidsOrdered(s, |s.kids|, entered, depth, limit);
    var kept := CutKids(s, |s.kids|, entered, depth, limit).kids;
    OrderedKids(s.(kids := kept), true);
    OrderedKids(s.(kids := kept), false);
  }

  lemma OrderedKids(s: Span, raises: bool)
    ensures Ordered(s.(raises := raises)) <==> Ordered(s)
  {
  }

  lemma {:induction false} CutKidsOrdered(s: Span, k: nat, entered: multiset<string>, depth: nat, limit: nat)
    requires Ordered(s) && k <= |s.kids|
    ensures InOrder(s, k, CutKids(s, k, entered, depth, limit).kids)
    decreases s, k
  {
    hide Cut;
    if k == 0 {
      NoKids(s);
    } else {
      CutKidsOrdered(s, k - 1, entered, depth, limit);
      var before := CutKids(s, k - 1, entered, depth, limit);
      var u := s.(kids := before.kids);
      var more := entered + multiset{s.name} + KidsEntries(u, |u.kids|);
      CutOrdered(s.kids[k - 1], more, depth + 1, limit);
      var kid := Cut(s.kids[k - 1], more, depth + 1, limit).span;
      InOrderNext(s, k - 1, before.kids, if kid.Some? then kid.value else s.kids[k - 1]);
    }
  }

  lemma NoKids(s: Span)
    requires Ordered(s)
    ensures InOrder(s, 0, [])
  {
  }

  lemma {:induction false} EntriesSame(u: Span, v: Span, k: nat)
    requires k <= |u.kids| && k <= |v.kids| && u.kids[..k] == v.kids[..k]
    ensures KidsEntries(u, k) == KidsEntries(v, k) && KidsFinished(u, k) == KidsFinished(v, k)
    decreases k
  {
    hide Entries, Finished;
    if k > 0 {
      assert u.kids[..k][..k - 1] == u.kids[..k - 1] && v.kids[..k][..k - 1] == v.kids[..k - 1];
      assert u.kids[k - 1] == u.kids[..k][k - 1] == v.kids[k - 1];
      EntriesSame(u, v, k - 1);
    }
  }

  /** Sums over children depend on the children only. */
  lemma {:induction false} KidsSame(u: Span, v: Span, k: nat)
    requires k <= |u.kids| && k <= |v.kids| && u.kids[..k] == v.kids[..k] && Ordered(u) && Ordered(v)
    ensures forall c: bool :: KidsUsed(u, k, c) == KidsUsed(v, k, c)
    ensures forall c: bool :: KidsInclusive(u, k, c) == KidsInclusive(v, k, c) && KidsOwn(u, k, c) == KidsOwn(v, k, c)
    decreases k
  {
    hide Inclusive, Own, Ordered;
    if k > 0 {
      assert u.kids[..k][..k - 1] == u.kids[..k - 1] && v.kids[..k][..k - 1] == v.kids[..k - 1];
      assert u.kids[k - 1] == u.kids[..k][k - 1] == v.kids[k - 1];
      KidOrdered(u, k - 1);
      KidsSame(u, v, k - 1);
    }
  }

  // ----- the observer -----

  datatype Frame = Frame(name: string, wall: int, cpu: int, inWall: int, inCpu: int)

  datatype Tallies = Tallies(entered: multiset<string>, completed: multiset<string>, wall: multiset<string>,
                             cpu: multiset<string>, ownWall: multiset<string>, ownCpu: multiset<string>) {

    function Inclusive(processor: bool): multiset<string> { if processor then cpu else wall }

    function Own(processor: bool): multiset<string> { if processor then ownCpu else ownWall }
  }

  /** The stack once the time of a child has been credited to its top. */
  function Credited(stack: seq<Frame>, wall: int, cpu: int): seq<Frame> {
    if stack == [] then []
    else
      var top := stack[|stack| - 1];
      stack[|stack| - 1 := top.(inWall := top.inWall + wall, inCpu := top.inCpu + cpu)]
  }

  /** The codes noted so far and some more; the first sixteen are kept. */
  function Noted(errors: seq<string>, codes: seq<string>): seq<string> {
    if |errors| >= MAX_ERRORS then errors else (errors + codes)[..Min(MAX_ERRORS, |errors + codes|)]
  }

  lemma NotedMore(errors: seq<string>, a: seq<string>, b: seq<string>)
    ensures Noted(Noted(errors, a), b) == Noted(errors, a + b)
    ensures Noted(errors, []) == errors
  {
    assert errors + (a + b) == (errors + a) + b;
  }

  class Observation {
    const limit: nat
    var invalid: bool
    var errors: seq<string>
    var t: Tallies
    var stack: seq<Frame>

    constructor (limit: nat)
      ensures !invalid && errors == [] && stack == [] && this.limit == limit
      ensures t == Tallies(multiset{}, multiset{}, multiset{}, multiset{}, multiset{}, multiset{})
    {
      this.limit := limit;
      invalid, errors, stack := false, [], [];
      t := Tallies(multiset{}, multiset{}, multiset{}, multiset{}, multiset{}, multiset{});
    }

    method Fail(code: string)
      modifies this`invalid, this`errors
      ensures invalid && errors == Noted(old(errors), [code])
    {
      invalid := true;
      if |errors| < MAX_ERRORS {
        errors := errors + [code];
      }
    }

    /** Entering a span; refused without a trace on the stack when a capacity is used up. */
    method Enter(name: string, at: Clock) returns (ok: bool)
      modifies this
      ensures ok <==> |old(t.entered)| < limit && |old(stack)| < MAX_DEPTH
                      && (name in old(t.entered) || |NamesIn(old(t.entered))| < MAX_NAMES)
      ensures ok ==> stack == old(stack) + [Frame(name, at.wall, at.cpu, 0, 0)]
      ensures ok ==>
                t == old(t).(entered := old(t.entered) + multiset{name}) && invalid == old(invalid)
                && errors == old(errors)
      ensures !ok ==> stack == old(stack) && t == old(t) && invalid
      ensures !ok ==>
                errors == Noted(old(errors), [if |old(t.entered)| >= limit || |old(stack)| >= MAX_DEPTH
                                              then "interval_capacity" else "bucket_capacity"])
    {
      if |t.entered| >= limit || |stack| >= MAX_DEPTH {
        Fail("interval_capacity");
        return false;
      }
      if name !in t.entered && |NamesIn(t.entered)| >= MAX_NAMES {
        Fail("bucket_capacity");
        return false;
      }
      t := t.(entered := t.entered + multiset{name});
      stack := stack + [Frame(name, at.wall, at.cpu, 0, 0)];
      return true;
    }

    method Account(n: string, wall: nat, cpu: nat, ownWall: nat, ownCpu: nat)
      modifies this`t
      ensures t == old(t).(wall := old(t).wall[n := old(t).wall[n] + wall], cpu := old(t).cpu[n := old(t).cpu[n] + cpu],
                           ownWall := old(t).ownWall[n := old(t).ownWall[n] + ownWall],
                           ownCpu := old(t).ownCpu[n := old(t).ownCpu[n] + ownCpu])
    {
      t := t.(wall := t.wall[n := t.wall[n] + wall], cpu := t.cpu[n := t.cpu[n] + cpu]);
      t := t.(ownWall := t.ownWall[n := t.ownWall[n] + ownWall], ownCpu := t.ownCpu[n := t.ownCpu[n] + ownCpu]);
    }

    /** Leaving a span: its time goes to its own counters and to the span around it. */
    method Leave(frame: Frame, at: Clock) returns (ok: bool)
      modifies this
      ensures ok <==>
                old(stack) != [] && old(stack)[|old(stack)| - 1] == frame && Positive(frame, at)
      ensures ok ==> errors == old(errors) && invalid == old(invalid)
      ensures ok ==> stack == Credited(old(stack)[..|old(stack)| - 1], at.wall - frame.wall, at.cpu - frame.cpu)
      ensures ok ==> t == Closed(old(t), frame, at)
      ensures !ok ==> invalid && t == old(t) && stack == if old(stack) == [] then [] else old(stack)[..|old(stack)| - 1]
      ensures !ok ==>
                errors == Noted(old(errors), [if old(stack) != [] && old(stack)[|old(stack)| - 1] == frame
                                              then "negative_interval" else "stack", "interval_finish"])
    {
      hide Credited;
      var wall, cpu := at.wall - frame.wall, at.cpu - frame.cpu;
      if stack == [] || stack[|stack| - 1] != frame {
        Fail("stack");
        if stack != [] {
          stack := stack[..|stack| - 1];
        }
        Fail("interval_finish");
        return false;
      }
      stack := stack[..|stack| - 1];
      var ownWall, ownCpu := wall - frame.inWall, cpu - frame.inCpu;
      if wall < 0 || cpu < 0 || ownWall < 0 || ownCpu < 0 {
        Fail("negative_interval");
        Fail("interval_finish");
        return false;
      }
      Account(frame.name, wall, cpu, ownWall, ownCpu);
      Credit(wall, cpu);
      return true;
    }

    /** The span around gets the time of the one just left. */
    method Credit(wall: int, cpu: int)
      modifies this`stack
      ensures stack == Credited(old(stack), wall, cpu)
    {
      if stack != [] {
        var top := stack[|stack| - 1];
        stack := stack[|stack| - 1 := top.(inWall := top.inWall + wall, inCpu := top.inCpu + cpu)];
      }
    }

    /** The body of a span: its children one after the other, up to the first exception that nobody catches. */
    method RunKids(s: Span, ghost before: Tallies, ghost around: seq<Frame>) returns (raised: bool)
      requires Ordered(s) && t == before.(entered := before.entered + multiset{s.name})
      requires stack == around + [Frame(s.name, s.enter.wall, s.enter.cpu, 0, 0)]
      modifies this
      ensures var c := CutKids(s, |s.kids|, before.entered, |around|, limit);
              && raised == c.raised && InOrder(s, |s.kids|, c.kids)
              && Within(s.(kids := c.kids), before, around, t, stack)
              && errors == Noted(old(errors), c.codes) && invalid == (old(invalid) || c.codes != [])
      decreases s, 0
    {
      hide Ordered, Cut, CutKids, InOrder, Within, Noted, Plus;
      raised := false;
      var k := 0;
      KidsBegin(s, before, around, limit, errors);
      while k < |s.kids| && !raised
        invariant 0 <= k <= |s.kids|
        invariant var c := CutKids(s, k, before.entered, |around|, limit);
                  && raised == c.raised && InOrder(s, k, c.kids)
                  && Within(s.(kids := c.kids), before, around, t, stack)
                  && errors == Noted(old(errors), c.codes) && invalid == (old(invalid) || c.codes != [])
        decreases |s.kids| - k
      {
        ghost var c := CutKids(s, k, before.entered, |around|, limit);
        var kid := s.kids[k];
        KidOrdered(s, k);
        WithinFacts(s.(kids := c.kids), before, around, t, stack);
        ghost var t0, stack0 := t, stack;
        var failed, counted := Run(kid);
        raised := failed && !kid.caught;
        KidDone(s, k, before, around, limit, t0, stack0, t, stack);
        NotedMore(old(errors), c.codes, Cut(kid, t0.entered, |stack0|, limit).codes);
        k := k + 1;
      }
      if raised { KidsOver(s, k, |s.kids|, before.entered, |around|, limit); }
    }

    /**
     A whole span, whatever fails inside it and whether or not the product code catches it: the counters are
     those of the spans that were entered, the stack is as it was but for the time credited to the span around,
     and every refusal and every exception has left its code.
     */
    method Run(s: Span) returns (raised: bool, counted: bool)
      requires Ordered(s)
      modifies this
      ensures var c := Cut(s, old(t.entered), |old(stack)|, limit);
              && raised == c.raised && counted == c.span.Some?
              && stack == (if counted then Credited(old(stack), s.Used(false), s.Used(true)) else old(stack))
              && (if counted then Ordered(c.span.value) && t == Plus(old(t), c.span.value) else t == old(t))
              && errors == Noted(old(errors), c.codes) && invalid == (old(invalid) || c.codes != [])
      decreases s, 1
    {
      hide Ordered, Cut, CutKids, InOrder, Within, Noted, Plus, Closed, Credited, Positive;
      ghost var before, around, noted := t, stack, errors;
      CutCases(s, t.entered, |stack|, limit);
      CutOrdered(s, t.entered, |stack|, limit);
      var entered := Enter(s.name, s.enter);
      if !entered {
        return true, false;
      }
      raised := RunKids(s, before, around);
      ghost var inner := CutKids(s, |s.kids|, before.entered, |around|, limit);
      raised := raised || s.raises;
      NotedMore(noted, inner.codes, ["interval_exception:" + s.name]);
      assert inner.codes + [] == inner.codes;
      Close(s, raised, s.(kids := inner.kids), before, around);
      return raised, true;
    }

    /** The end of a span: it is completed or leaves the code of its exception, and its time is accounted. */
    method Close(s: Span, raised: bool, ghost u: Span, ghost before: Tallies, ghost around: seq<Frame>)
      requires Within(u, before, around, t, stack) && Ordered(u.(raises := raised))
      requires u.name == s.name && u.enter == s.enter && u.leave == s.leave
      modifies this
      ensures t == Plus(before, u.(raises := raised)) && stack == Credited(around, s.Used(false), s.Used(true))
      ensures errors == if raised then Noted(old(errors), ["interval_exception:" + s.name]) else old(errors)
      ensures invalid == (old(invalid) || raised)
    {
      hide Ordered, Within, Noted, Plus, Closed, Credited, Positive, KidsUsed, PlusKids;
      WithinFacts(u, before, around, t, stack);
      SpanDone(s, u, before, raised);
      if raised {
        Fail("interval_exception:" + s.name);
      } else {
        t := t.(completed := t.completed + multiset{s.name});
      }
      var left := Leave(stack[|stack| - 1], s.leave);
    }
  }

  /** Inside a span: the counters of its children so far are in, and the top frame holds their time. */
  ghost predicate Within(u: Span, before: Tallies, around: seq<Frame>, t: Tallies, stack: seq<Frame>) {
    && Ordered(u) && t == PlusKids(before, u, |u.kids|)
    && stack == around + [FrameOf(u)]
  }

  /** Room for a span and everything in it. */
  ghost predicate Fits(s: Span, entered: multiset<string>, depth: nat, limit: nat) {
    && Calm(s) && |entered| + |Entries(s)| <= limit && NoDeeper(s, MAX_DEPTH - depth)
    && |NamesIn(entered + Entries(s))| <= MAX_NAMES
  }

  lemma EnterFits(s: Span, entered: multiset<string>, depth: nat, limit: nat)
    requires Fits(s, entered, depth, limit)
    ensures |entered| < limit && depth < MAX_DEPTH && (s.name in entered || |NamesIn(entered)| < MAX_NAMES) && !s.raises
  {
    var more := NamesIn(entered + Entries(s));
    SubsetSize(NamesIn(entered), more);
    if s.name !in entered {
      assert NamesIn(entered) + {s.name} <= more;
      SubsetSize(NamesIn(entered) + {s.name}, more);
    }
  }

  /**
   No code is noted exactly when the whole tree fits: no exception, no capacity reached. Nothing of it is cut then.
   */
  lemma {:induction false} CleanExactly(s: Span, entered: multiset<string>, depth: nat, limit: nat)
    requires |NamesIn(entered)| <= MAX_NAMES
    ensures Cut(s, entered, depth, limit).codes == [] <==> Fits(s, entered, depth, limit)
    ensures Fits(s, entered, depth, limit) ==> Cut(s, entered, depth, limit) == Trim(Some(s), false, [])
    decreases s, |s.kids| + 1
  {
    hide Fits, CutKids, Cut;
    CutCases(s, entered, depth, limit);
    if Fits(s, entered, depth, limit) { EnterFits(s, entered, depth, limit); }
    if |entered| < limit && depth < MAX_DEPTH && (s.name in entered || |NamesIn(entered)| < MAX_NAMES) {
      OneName(entered, s.name);
      KidsClean(s, |s.kids|, entered, depth, limit);
      assert s.kids[..|s.kids|] == s.kids;
      if Fits(s, entered, depth, limit) {
        forall i | 0 <= i < |s.kids| ensures KidHasRoom(s, i, entered, depth, limit) {
          KidFits(entered, s, i, depth, limit);
        }
      } else if !s.raises && forall i | 0 <= i < |s.kids| :: KidHasRoom(s, i, entered, depth, limit) {
        AllFit(s, entered, depth, limit);
      }
    }
  }

  ghost predicate KidHasRoom(s: Span, i: nat, entered: multiset<string>, depth: nat, limit: nat)
    requires i < |s.kids|
  {
    Fits(s.kids[i], entered + multiset{s.name} + KidsEntries(s, i), depth + 1, limit)
  }

  lemma {:induction false} KidsClean(s: Span, k: nat, entered: multiset<string>, depth: nat, limit: nat)
    requires k <= |s.kids| && |NamesIn(entered + multiset{s.name})| <= MAX_NAMES
    ensures var c := CutKids(s, k, entered, depth, limit);
            && (c.raised ==> c.codes != [])
            && (c.codes == [] <==> forall i | 0 <= i < k :: KidHasRoom(s, i, entered, depth, limit))
            && (c.codes == [] ==> c.kids == s.kids[..k])
    decreases s, k, 1
  {
    hide Fits, Cut, CutKids, KidHasRoom, KidsEntries;
    if k == 0 {
      NoKidsCut(s, entered, depth, limit);
    } else {
      KidsClean(s, k - 1, entered, depth, limit);
      CutKidsStep(s, k, entered, depth, limit);
      if CutKids(s, k - 1, entered, depth, limit).codes == [] {
        NamesSoFar(s, k, entered, depth, limit);
        KidClean(s, k, entered, depth, limit);
      }
    }
  }

  lemma NoKidsCut(s: Span, entered: multiset<string>, depth: nat, limit: nat)
    ensures CutKids(s, 0, entered, depth, limit) == Kept([], false, [])
  {
  }

  lemma CutKidsStep(s: Span, k: nat, entered: multiset<string>, depth: nat, limit: nat)
    requires 0 < k <= |s.kids|
    ensures var before := CutKids(s, k - 1, entered, depth, limit);
            var c := CutKids(s, k, entered, depth, limit);
            var u := s.(kids := before.kids);
            if before.raised then c == before
            else
              var kid := Cut(s.kids[k - 1], entered + multiset{s.name} + KidsEntries(u, |u.kids|), depth + 1, limit);
              c == Kept(before.kids + (if kid.span.Some? then [kid.span.value] else []),
                        kid.raised && !s.kids[k - 1].caught, before.codes + kid.codes)
  {
    hide Cut, KidsEntries;
  }

  lemma NamesSoFar(s: Span, k: nat, entered: multiset<string>, depth: nat, limit: nat)
    requires 0 < k <= |s.kids| && |NamesIn(entered + multiset{s.name})| <= MAX_NAMES
    requires k > 1 ==> KidHasRoom(s, k - 2, entered, depth, limit)
    ensures |NamesIn(entered + multiset{s.name} + KidsEntries(s, k - 1))| <= MAX_NAMES
  {
    hide NamesIn, Entries;
    assert k > 1 ==>
        entered + multiset{s.name} + KidsEntries(s, k - 1) ==
        entered + multiset{s.name} + KidsEntries(s, k - 2) + Entries(s.kids[k - 2]);
    assert k == 1 ==> entered + multiset{s.name} + KidsEntries(s, 0) == entered + multiset{s.name};
  }

  lemma KidClean(s: Span, k: nat, entered: multiset<string>, depth: nat, limit: nat)
    requires 0 < k <= |s.kids| && |NamesIn(entered + multiset{s.name} + KidsEntries(s, k - 1))| <= MAX_NAMES
    requires var c := CutKids(s, k - 1, entered, depth, limit);
             c.codes == [] && !c.raised && c.kids == s.kids[..k - 1]
    ensures var c := CutKids(s, k, entered, depth, limit);
            && (c.raised ==> c.codes != [])
            && (c.codes == [] <==> KidHasRoom(s, k - 1, entered, depth, limit))
            && (c.codes == [] ==> c.kids == s.kids[..k])
    decreases s, k, 0
  {
    hide Fits, Cut, CutKids, KidsEntries;
    var u := s.(kids := s.kids[..k - 1]);
    assert u.kids[..k - 1] == s.kids[..k - 1];
    EntriesSame(u, s, k - 1);
    CutKidsStep(s, k, entered, depth, limit);
    var more := entered + multiset{s.name} + KidsEntries(s, k - 1);
    CleanExactly(s.kids[k - 1], more, depth + 1, limit);
    CutRaises(s.kids[k - 1], more, depth + 1, limit);
    assert s.kids[..k] == s.kids[..k - 1] + [s.kids[k - 1]];
  }

  lemma CutRaises(s: Span, entered: multiset<string>, depth: nat, limit: nat)
    ensures var c := Cut(s, entered, depth, limit); c.raised ==> c.codes != []
  {
    hide CutKids;
  }

  lemma AllFit(s: Span, entered: multiset<string>, depth: nat, limit: nat)
    requires |entered| < limit && depth < MAX_DEPTH && |NamesIn(entered + multiset{s.name})| <= MAX_NAMES && !s.raises
    requires forall i | 0 <= i < |s.kids| :: KidHasRoom(s, i, entered, depth, limit)
    ensures Fits(s, entered, depth, limit)
  {
    hide Entries;
    var n := |s.kids|;
    forall i | 0 <= i < n ensures Calm(s.kids[i]) && NoDeeper(s.kids[i], MAX_DEPTH - depth - 1) {
      assert KidHasRoom(s, i, entered, depth, limit);
    }
    WholeEntries(s, entered);
    assert Calm(s) && NoDeeper(s, MAX_DEPTH - depth);
    if n > 0 {
      assert KidHasRoom(s, n - 1, entered, depth, limit);
      var more := entered + multiset{s.name} + KidsEntries(s, n - 1);
      assert |more + Entries(s.kids[n - 1])| == |more| + |Entries(s.kids[n - 1])|;
      assert |entered + Entries(s)| == |entered| + |Entries(s)|;
    } else {
      assert |entered + Entries(s)| == |entered| + |Entries(s)|;
    }
  }

  lemma OneName(entered: multiset<string>, name: string)
    ensures NamesIn(entered + multiset{name}) == NamesIn(entered) + {name}
    ensures name in entered ==> NamesIn(entered + multiset{name}) == NamesIn(entered)
  {
  }

  lemma WholeEntries(s: Span, entered: multiset<string>)
    ensures s.kids == [] ==> entered + Entries(s) == entered + multiset{s.name}
    ensures s.kids != [] ==>
              var n := |s.kids| - 1;
              entered + Entries(s) == entered + multiset{s.name} + KidsEntries(s, n) + Entries(s.kids[n])
  {
  }

  /** However a span ends, it is never counted past a capacity. */
  lemma {:induction false} CutBounded(s: Span, entered: multiset<string>, depth: nat, limit: nat)
    requires |entered| <= limit && |NamesIn(entered)| <= MAX_NAMES
    ensures var c := Cut(s, entered, depth, limit).span;
            c.Some? ==> |entered + Entries(c.value)| <= limit && |NamesIn(entered + Entries(c.value))| <= MAX_NAMES
    decreases s, |s.kids| + 1
  {
    hide Cut, CutKids, KidsEntries, NamesIn;
    CutCases(s, entered, depth, limit);
    var c := Cut(s, entered, depth, limit).span;
    if c.Some? {
      OneName(entered, s.name);
      KidsBounded(s, |s.kids|, entered, depth, limit);
      var u := s.(kids := CutKids(s, |s.kids|, entered, depth, limit).kids);
      EntriesSame(u, c.value, |u.kids|);
      assert entered + multiset{s.name} + KidsEntries(u, |u.kids|) == entered + Entries(c.value);
    }
  }

  lemma {:induction false} KidsBounded(s: Span, k: nat, entered: multiset<string>, depth: nat, limit: nat)
    requires k <= |s.kids| && |entered| < limit && |NamesIn(entered + multiset{s.name})| <= MAX_NAMES
    ensures var u := s.(kids := CutKids(s, k, entered, depth, limit).kids);
            var all := entered + multiset{s.name} + KidsEntries(u, |u.kids|);
            |all| <= limit && |NamesIn(all)| <= MAX_NAMES
    decreases s, k
  {
    hide Cut, CutKids, Entries, NamesIn;
    var c := CutKids(s, k, entered, depth, limit);
    if k == 0 {
      NoKidsCut(s, entered, depth, limit);
      assert entered + multiset{s.name} + KidsEntries(s.(kids := []), 0) == entered + multiset{s.name};
    } else {
      KidsBounded(s, k - 1, entered, depth, limit);
      CutKidsStep(s, k, entered, depth, limit);
      var before := CutKids(s, k - 1, entered, depth, limit);
      var u := s.(kids := before.kids);
      var more := entered + multiset{s.name} + KidsEntries(u, |u.kids|);
      CutBounded(s.kids[k - 1], more, depth + 1, limit);
      var kid := Cut(s.kids[k - 1], more, depth + 1, limit).span;
      if !before.raised && kid.Some? {
        LastEntries(u, kid.value, entered + multiset{s.name});
      } else {
        assert c.kids == before.kids;
      }
    }
  }

  lemma LastEntries(u: Span, kid: Span, m: multiset<string>)
    ensures var v := u.(kids := u.kids + [kid]);
            m + KidsEntries(v, |v.kids|) == m + KidsEntries(u, |u.kids|) + Entries(kid)
  {
    hide Entries;
    var v := u.(kids := u.kids + [kid]);
    assert u.kids[..|u.kids|] == v.kids[..|u.kids|];
    EntriesSame(u, v, |u.kids|);
  }

  /** However a span ends, the exclusive times in it grow by exactly its own time, if it was entered at all. */
  lemma CutAddsUp(s: Span, t: Tallies, depth: nat, limit: nat)
    requires Ordered(s)
    ensures var c := Cut(s, t.entered, depth, limit).span;
            c.Some? ==>
              && Ordered(c.value) && |Plus(t, c.value).ownWall| == |t.ownWall| + s.Used(false)
              && |Plus(t, c.value).ownCpu| == |t.ownCpu| + s.Used(true)
  {
    hide Cut, Own, Ordered;
    CutOrdered(s, t.entered, depth, limit);
    var c := Cut(s, t.entered, depth, limit).span;
    if c.Some? {
      OwnAddsUp(c.value, false);
      OwnAddsUp(c.value, true);
    }
  }

  /** Without exceptions every span that is entered is finished. */
  lemma {:induction false} CalmFinishes(s: Span)
    requires Calm(s)
    ensures Finished(s) == Entries(s)
    decreases s, |s.kids| + 1
  {
    KidsFinish(s, |s.kids|);
  }

  lemma {:induction false} KidsFinish(s: Span, k: nat)
    requires Calm(s) && k <= |s.kids|
    ensures KidsFinished(s, k) == KidsEntries(s, k)
    decreases s, k
  {
    if k > 0 {
      KidsFinish(s, k - 1);
      CalmFinishes(s.kids[k - 1]);
    }
  }

  ghost function Plus(t: Tallies, s: Span): Tallies
    requires Ordered(s)
  {
    Tallies(t.entered + Entries(s), t.completed + Finished(s), t.wall + Inclusive(s, false), t.cpu + Inclusive(s, true),
            t.ownWall + Own(s, false), t.ownCpu + Own(s, true))
  }

  /** The counters inside a span, after its first k children. */
  ghost function PlusKids(t: Tallies, s: Span, k: nat): Tallies
    requires Ordered(s) && k <= |s.kids|
  {
    Tallies(t.entered + multiset{s.name} + KidsEntries(s, k), t.completed + KidsFinished(s, k),
            t.wall + KidsInclusive(s, k, false), t.cpu + KidsInclusive(s, k, true),
            t.ownWall + KidsOwn(s, k, false), t.ownCpu + KidsOwn(s, k, true))
  }

  lemma CutCases(s: Span, entered: multiset<string>, depth: nat, limit: nat)
    ensures var c := Cut(s, entered, depth, limit);
            if |entered| >= limit || depth >= MAX_DEPTH then c == Trim(None, true, ["interval_capacity"])
            else if s.name !in entered && |NamesIn(entered)| >= MAX_NAMES then
              c == Trim(None, true, ["bucket_capacity"])
            else
              var inner := CutKids(s, |s.kids|, entered, depth, limit);
              var raised := inner.raised || s.raises;
              c == Trim(Some(s.(kids := inner.kids, raises := raised)), raised,
                        inner.codes + if raised then ["interval_exception:" + s.name] else [])
  {
    hide CutKids;
  }

  lemma KidsBegin(s: Span, before: Tallies, around: seq<Frame>, limit: nat, errors: seq<string>)
    requires Ordered(s)
    ensures var c := CutKids(s, 0, before.entered, |around|, limit);
            && c == Kept([], false, []) && InOrder(s, 0, c.kids) && Noted(errors, []) == errors
            && Within(s.(kids := c.kids), before, around, before.(entered := before.entered + multiset{s.name}),
                      around + [Frame(s.name, s.enter.wall, s.enter.cpu, 0, 0)])
  {
    NoKids(s);
  }

  lemma WithinFacts(u: Span, before: Tallies, around: seq<Frame>, t: Tallies, stack: seq<Frame>)
    requires Within(u, before, around, t, stack)
    ensures Ordered(u) && t == PlusKids(before, u, |u.kids|) && |stack| == |around| + 1 && stack[..|around|] == around
    ensures t.entered == before.entered + multiset{u.name} + KidsEntries(u, |u.kids|)
    ensures stack[|around|] == FrameOf(u)
  {
    hide KidsEntries, KidsUsed, KidsFinished, KidsOwn, KidsInclusive, Ordered;
  }

  /** One more child: entered and counted, or refused without a trace but its code. */
  lemma KidDone(s: Span, k: nat, before: Tallies, around: seq<Frame>, limit: nat,
                t0: Tallies, stack0: seq<Frame>, t: Tallies, stack: seq<Frame>)
    requires Ordered(s) && k < |s.kids|
    requires var c := CutKids(s, k, before.entered, |around|, limit);
             !c.raised && InOrder(s, k, c.kids) && Within(s.(kids := c.kids), before, around, t0, stack0)
    requires var kid := Cut(s.kids[k], t0.entered, |stack0|, limit).span;
             if kid.Some? then
               && Ordered(kid.value) && t == Plus(t0, kid.value)
               && stack == Credited(stack0, s.kids[k].Used(false), s.kids[k].Used(true))
             else t == t0 && stack == stack0
    ensures var c := CutKids(s, k, before.entered, |around|, limit);
            var kid := Cut(s.kids[k], t0.entered, |stack0|, limit);
            var n := CutKids(s, k + 1, before.entered, |around|, limit);
            && n.raised == (kid.raised && !s.kids[k].caught) && n.codes == c.codes + kid.codes
            && InOrder(s, k + 1, n.kids) && Within(s.(kids := n.kids), before, around, t, stack)
  {
    hide Ordered, Cut, CutKids, InOrder, Within, Plus, Credited, PlusKids, KidsUsed, KidsEntries;
    var c := CutKids(s, k, before.entered, |around|, limit);
    WithinFacts(s.(kids := c.kids), before, around, t0, stack0);
    KidOrdered(s, k);
    CutOrdered(s.kids[k], t0.entered, |stack0|, limit);
    CutKidsOrdered(s, k + 1, before.entered, |around|, limit);
    CutKidsStep(s, k + 1, before.entered, |around|, limit);
    var n := CutKids(s, k + 1, before.entered, |around|, limit);
    InOrderIs(s, k + 1, n.kids);
    var kid := Cut(s.kids[k], t0.entered, |stack0|, limit).span;
    if kid.Some? {
      OneMore(s.(kids := c.kids), kid.value, before, around, t0, stack0, t, stack);
    } else {
      assert n.kids == c.kids;
    }
  }

  lemma InOrderIs(s: Span, k: nat, kept: seq<Span>)
    requires InOrder(s, k, kept)
    ensures Ordered(s.(kids := kept))
  {
  }

  lemma OneMore(u: Span, kid: Span, before: Tallies, around: seq<Frame>, t0: Tallies, stack0: seq<Frame>,
                t: Tallies, stack: seq<Frame>)
    requires Within(u, before, around, t0, stack0) && Ordered(kid) && Ordered(u.(kids := u.kids + [kid]))
    requires t == Plus(t0, kid) && stack == Credited(stack0, kid.Used(false), kid.Used(true))
    ensures Within(u.(kids := u.kids + [kid]), before, around, t, stack)
  {
    hide Ordered, Plus, KidsEntries, KidsFinished, KidsOwn, KidsInclusive, KidsUsed;
    var v, n := u.(kids := u.kids + [kid]), |u.kids|;
    assert u.kids[..n] == v.kids[..n];
    KidsSame(u, v, n);
    EntriesSame(u, v, n);
    PlusOne(before, v, n);
    KidsUsedStep(v, n);
  }

  lemma {:induction false} KidsOver(s: Span, k: nat, n: nat, entered: multiset<string>, depth: nat, limit: nat)
    requires Ordered(s) && k <= n <= |s.kids| && CutKids(s, k, entered, depth, limit).raised
    ensures CutKids(s, n, entered, depth, limit) == CutKids(s, k, entered, depth, limit)
    ensures InOrder(s, n, CutKids(s, n, entered, depth, limit).kids)
    decreases n
  {
    hide Ordered, Cut, InOrder;
    CutKidsOrdered(s, n, entered, depth, limit);
    if k < n { KidsOver(s, k, n - 1, entered, depth, limit); }
  }

  /** Leaving the span: its own time is what its children have left of it. */
  lemma SpanDone(s: Span, u: Span, before: Tallies, raised: bool)
    requires Ordered(u) && Ordered(u.(raises := raised)) && u.enter == s.enter && u.leave == s.leave && u.name == s.name
    ensures var inside := PlusKids(before, u, |u.kids|);
            var f := FrameOf(u);
            Positive(f, s.leave)
            && Closed(if raised then inside else inside.(completed := inside.completed + multiset{s.name}), f, s.leave)
               == Plus(before, u.(raises := raised))
  {
    hide Ordered, Plus, KidsEntries, KidsFinished, KidsOwn, KidsInclusive, KidsUsed, Closed, Positive;
    var v, n := u.(raises := raised), |u.kids|;
    KidsSame(u, v, n);
    EntriesSame(u, v, n);
    KidsFit(v, n, false);
    KidsFit(v, n, true);
    OwnTime(v);
    PlusDone(before, v);
  }

  lemma KidOrdered(s: Span, k: nat)
    requires Ordered(s) && k < |s.kids|
    ensures Ordered(s.kids[k])
  {
  }

  lemma {:induction false} EntriesPrefix(s: Span, k: nat, n: nat)
    requires k <= n <= |s.kids|
    ensures KidsEntries(s, k) <= KidsEntries(s, n)
    decreases n - k
  {
    if k < n { EntriesPrefix(s, k, n - 1); }
  }

  /** A span that fits leaves room for each of its children in turn. */
  lemma KidFits(entered: multiset<string>, s: Span, k: nat, depth: nat, limit: nat)
    requires k < |s.kids| && Fits(s, entered, depth, limit)
    ensures Fits(s.kids[k], entered + multiset{s.name} + KidsEntries(s, k), depth + 1, limit)
  {
    hide NamesIn, Entries, KidsEntries;
    KidEntries(entered, s, k);
    var part, whole := entered + multiset{s.name} + KidsEntries(s, k) + Entries(s.kids[k]), entered + Entries(s);
    Fewer(part, whole);
  }

  lemma KidEntries(entered: multiset<string>, s: Span, k: nat)
    requires k < |s.kids|
    ensures entered + multiset{s.name} + KidsEntries(s, k) + Entries(s.kids[k]) <= entered + Entries(s)
  {
    EntriesPrefix(s, k + 1, |s.kids|);
  }

  lemma Fewer(a: multiset<string>, b: multiset<string>)
    requires a <= b
    ensures |a| <= |b| && |NamesIn(a)| <= |NamesIn(b)|
  {
    assert b == a + (b - a);
    SubsetSize(NamesIn(a), NamesIn(b));
  }

  lemma PlusOne(t: Tallies, s: Span, k: nat)
    requires Ordered(s) && k < |s.kids| && Ordered(s.kids[k])
    ensures Plus(PlusKids(t, s, k), s.kids[k]) == PlusKids(t, s, k + 1)
  {
    hide Entries, Finished, Inclusive, Own, Ordered;
  }

  lemma KidsUsedStep(s: Span, k: nat)
    requires k < |s.kids|
    ensures KidsUsed(s, k + 1, false) == KidsUsed(s, k, false) + s.kids[k].Used(false)
    ensures KidsUsed(s, k + 1, true) == KidsUsed(s, k, true) + s.kids[k].Used(true)
  {
  }

  lemma OwnTime(s: Span)
    requires Ordered(s)
    ensures s.Used(false) >= 0 && s.Used(true) >= 0
  {
  }

  lemma AddTo(m: multiset<string>, kids: multiset<string>, name: string, n: nat)
    ensures (m + kids)[name := (m + kids)[name] + n] == m + (multiset{}[name := n] + kids)
  {
  }

  ghost function FrameOf(s: Span): Frame {
    Frame(s.name, s.enter.wall, s.enter.cpu, KidsUsed(s, |s.kids|, false), KidsUsed(s, |s.kids|, true))
  }

  /** The times when the span is left are those of the whole tree. */
  lemma TimesDone(t: Tallies, s: Span, inside: Tallies)
    requires Ordered(s) && s.Used(false) >= 0 && s.Used(true) >= 0
    requires KidsUsed(s, |s.kids|, false) <= s.Used(false) && KidsUsed(s, |s.kids|, true) <= s.Used(true)
    requires var k := PlusKids(t, s, |s.kids|);
             inside.wall == k.wall && inside.cpu == k.cpu && inside.ownWall == k.ownWall && inside.ownCpu == k.ownCpu
    ensures Positive(FrameOf(s), s.leave)
    ensures Closed(inside, FrameOf(s), s.leave) ==
            Plus(t, s).(entered := inside.entered, completed := inside.completed)
  {
    hide KidsOwn, KidsInclusive, KidsEntries, KidsFinished, KidsUsed, Ordered;
    var n := |s.kids|;
    AddTo(t.wall, KidsInclusive(s, n, false), s.name, s.Used(false));
    AddTo(t.cpu, KidsInclusive(s, n, true), s.name, s.Used(true));
    AddTo(t.ownWall, KidsOwn(s, n, false), s.name, s.Used(false) - KidsUsed(s, n, false));
    AddTo(t.ownCpu, KidsOwn(s, n, true), s.name, s.Used(true) - KidsUsed(s, n, true));
  }

  /** The counters when the span is left are those of the whole tree. */
  lemma PlusDone(t: Tallies, s: Span)
    requires Ordered(s) && s.Used(false) >= 0 && s.Used(true) >= 0
    requires KidsUsed(s, |s.kids|, false) <= s.Used(false) && KidsUsed(s, |s.kids|, true) <= s.Used(true)
    ensures var inside := PlusKids(t, s, |s.kids|);
            Positive(FrameOf(s), s.leave)
            && Closed(if s.raises then inside else inside.(completed := inside.completed + multiset{s.name}),
                      FrameOf(s), s.leave) == Plus(t, s)
  {
    hide KidsOwn, KidsInclusive, KidsEntries, KidsFinished, KidsUsed, Ordered, Closed, Positive, FrameOf;
    var inside, n := PlusKids(t, s, |s.kids|), |s.kids|;
    TimesDone(t, s, if s.raises then inside else inside.(completed := inside.completed + multiset{s.name}));
    assert t.entered + multiset{s.name} + KidsEntries(s, n) == t.entered + (multiset{s.name} + KidsEntries(s, n));
    var own: multiset<string> := if s.raises then multiset{} else multiset{s.name};
    assert t.completed + KidsFinished(s, n) + own == t.completed + (own + KidsFinished(s, n));
    assert s.raises ==> t.completed + KidsFinished(s, n) == t.completed + KidsFinished(s, n) + own;
  }

  predicate Positive(f: Frame, at: Clock) {
    0 <= at.wall - f.wall && 0 <= at.cpu - f.cpu && f.inWall <= at.wall - f.wall && f.inCpu <= at.cpu - f.cpu
  }

  /** The counters after a span has been left. */
  function Closed(t: Tallies, f: Frame, at: Clock): Tallies
    requires Positive(f, at)
  {
    var wall, cpu := at.wall - f.wall, at.cpu - f.cpu;
    t.(wall := t.wall[f.name := t.wall[f.name] + wall], cpu := t.cpu[f.name := t.cpu[f.name] + cpu],
       ownWall := t.ownWall[f.name := t.ownWall[f.name] + (wall - f.inWall)],
       ownCpu := t.ownCpu[f.name := t.ownCpu[f.name] + (cpu - f.inCpu)])
  }

  // ----- the closing identities -----

  const LEAVES: set<string> := {"U-hit", "U-build", "V", "F"}
  const INNER: set<string> := {"U-hit", "U-build", "V", "F", "R", "G-hit", "G-build"}

  /** Inside `to_dict` only the inner spans occur, and U, V and F contain nothing. */
  predicate Inside(s: Span) {
    s.name in INNER && (s.name in LEAVES ==> s.kids == []) && forall i | 0 <= i < |s.kids| :: Inside(s.kids[i])
  }

  predicate ToDict(s: Span) { s.name == "to_dict" && forall i | 0 <= i < |s.kids| :: Inside(s.kids[i]) }

  /** None of the names of the identity occurs. */
  predicate Outside(s: Span) {
    s.name !in INNER && s.name != "to_dict" && forall i | 0 <= i < |s.kids| :: Outside(s.kids[i])
  }

  /** Exactly one `to_dict`, and none of the inner names outside it. */
  ghost predicate Around(s: Span) {
    || ToDict(s)
    || (s.name !in INNER && s.name != "to_dict"
        && exists i ::
             0 <= i < |s.kids| && Around(s.kids[i]) && forall j | 0 <= j < |s.kids| && j != i :: Outside(s.kids[j]))
  }

  /** A name that stays out of a tree has no time in it. */
  predicate Lacks(s: Span, x: string) { s.name != x && forall i | 0 <= i < |s.kids| :: Lacks(s.kids[i], x) }

  /** A name's times in a tree: the root's share and the children's. */
  lemma TimeAt(s: Span, x: string, processor: bool)
    requires Ordered(s)
    ensures Own(s, processor)[x] ==
            (if x == s.name then s.Used(processor) - KidsUsed(s, |s.kids|, processor) else 0)
              + KidsOwn(s, |s.kids|, processor)[x]
    ensures Inclusive(s, processor)[x] ==
            (if x == s.name then s.Used(processor) else 0) + KidsInclusive(s, |s.kids|, processor)[x]
  {
    hide KidsOwn, KidsInclusive, KidsUsed;
    KidsFit(s, |s.kids|, processor);
    Share(s.name, s.Used(processor) - KidsUsed(s, |s.kids|, processor), KidsOwn(s, |s.kids|, processor), x);
    Share(s.name, s.Used(processor), KidsInclusive(s, |s.kids|, processor), x);
  }

  lemma Share(name: string, n: nat, kids: multiset<string>, x: string)
    ensures (multiset{}[name := n] + kids)[x] == (if x == name then n else 0) + kids[x]
  {
  }

  lemma {:induction false} LacksTime(s: Span, x: string, processor: bool)
    requires Ordered(s) && Lacks(s, x)
    ensures Own(s, processor)[x] == Inclusive(s, processor)[x] == 0
    decreases s, |s.kids| + 1
  {
    TimeAt(s, x, processor);
    KidsLackTime(s, |s.kids|, x, processor);
  }

  lemma {:induction false} KidsLackTime(s: Span, k: nat, x: string, processor: bool)
    requires Ordered(s) && k <= |s.kids| && forall i | 0 <= i < k :: Lacks(s.kids[i], x)
    ensures KidsOwn(s, k, processor)[x] == KidsInclusive(s, k, processor)[x] == 0
    decreases s, k
  {
    if k > 0 {
      KidsLackTime(s, k - 1, x, processor);
      LacksTime(s.kids[k - 1], x, processor);
    }
  }

  lemma {:induction false} InsideLacks(s: Span, x: string)
    requires (Inside(s) && x !in INNER) || (Outside(s) && (x in INNER || x == "to_dict"))
    ensures Lacks(s, x)
  {
    forall i | 0 <= i < |s.kids| ensures Lacks(s.kids[i], x) { InsideLacks(s.kids[i], x); }
  }

  /** For a leaf name, inclusive and exclusive time are the same. */
  lemma {:induction false} LeafTime(s: Span, x: string, processor: bool)
    requires Ordered(s) && x in LEAVES && Inside(s)
    ensures Own(s, processor)[x] == Inclusive(s, processor)[x]
    decreases s, |s.kids| + 1
  {
    TimeAt(s, x, processor);
    KidsLeafTime(s, |s.kids|, x, processor);
    if x == s.name { assert KidsUsed(s, 0, processor) == 0; }
  }

  lemma {:induction false} KidsLeafTime(s: Span, k: nat, x: string, processor: bool)
    requires Ordered(s) && k <= |s.kids| && x in LEAVES && forall i | 0 <= i < k :: Inside(s.kids[i])
    ensures KidsOwn(s, k, processor)[x] == KidsInclusive(s, k, processor)[x]
    decreases s, k
  {
    if k > 0 {
      KidsLeafTime(s, k - 1, x, processor);
      LeafTime(s.kids[k - 1], x, processor);
    }
  }

  /** U + K + rest. */
  function Parts(own: multiset<string>, inclusive: multiset<string>): nat {
    inclusive["U-hit"] + inclusive["U-build"] + own["G-hit"] + own["G-build"]
    + own["R"] + inclusive["V"] + inclusive["F"] + own["to_dict"]
  }

  function Multiplicities(m: multiset<string>): nat {
    m["U-hit"] + m["U-build"] + m["G-hit"] + m["G-build"] + m["R"] + m["V"] + m["F"] + m["to_dict"]
  }

  lemma EightNames(m: multiset<string>)
    requires forall x | x in m :: x in INNER || x == "to_dict"
    ensures |m| == Multiplicities(m)
  {
    var a := m["U-hit" := 0]["U-build" := 0];
    var b := a["G-hit" := 0]["G-build" := 0];
    var c := b["R" := 0]["V" := 0];
    var d := c["F" := 0]["to_dict" := 0];
    assert |a| == |m| - m["U-hit"] - m["U-build"];
    assert |b| == |a| - m["G-hit"] - m["G-build"];
    assert |c| == |b| - m["R"] - m["V"];
    assert |d| == |c| - m["F"] - m["to_dict"];
    assert d == multiset{} by {
      forall x ensures d[x] == 0 { }
    }
  }

  /** The identity for the `to_dict` span itself. */
  lemma ToDictCloses(s: Span, processor: bool)
    requires Ordered(s) && ToDict(s)
    ensures Parts(Own(s, processor), Inclusive(s, processor)) == s.Used(processor) == Inclusive(s, processor)["to_dict"]
  {
    hide Inside, Ordered, Own, Inclusive, KidsOwn, KidsInclusive, LEAVES, INNER;
    var own := Own(s, processor);
    forall x: string | x in own ensures x in INNER || x == "to_dict" { ToDictNames(s, x, processor); }
    OwnAddsUp(s, processor);
    EightNames(own);
    ToDictNames(s, "to_dict", processor);
    assert {"U-hit", "U-build", "V", "F"} <= LEAVES by { LeafNames(); }
    ToDictLeaf(s, "U-hit", processor);
    ToDictLeaf(s, "U-build", processor);
    ToDictLeaf(s, "V", processor);
    ToDictLeaf(s, "F", processor);
  }

  lemma LeafNames()
    ensures {"U-hit", "U-build", "V", "F"} <= LEAVES && "to_dict" !in INNER
  {
  }

  /** Inside `to_dict` there is no time under other names. */
  lemma ToDictNames(s: Span, x: string, processor: bool)
    requires Ordered(s) && ToDict(s)
    ensures x !in INNER && x != "to_dict" ==> Own(s, processor)[x] == 0
    ensures x == "to_dict" ==> Inclusive(s, processor)[x] == s.Used(processor)
  {
    hide Inside, Ordered, KidsOwn, KidsInclusive;
    if x !in INNER {
      forall i | 0 <= i < |s.kids| ensures Lacks(s.kids[i], x) { InsideLacks(s.kids[i], x); }
      TimeAt(s, x, processor);
      KidsLackTime(s, |s.kids|, x, processor);
    }
  }

  lemma ToDictLeaf(s: Span, x: string, processor: bool)
    requires Ordered(s) && ToDict(s) && x in LEAVES
    ensures Own(s, processor)[x] == Inclusive(s, processor)[x]
  {
    hide Inside, Ordered, KidsOwn, KidsInclusive;
    TimeAt(s, x, processor);
    KidsLeafTime(s, |s.kids|, x, processor);
  }

  /** The spans around `to_dict` add nothing to the names of the identity. */
  lemma {:induction false} AroundCloses(s: Span, processor: bool)
    requires Ordered(s) && Around(s)
    ensures Parts(Own(s, processor), Inclusive(s, processor)) == Inclusive(s, processor)["to_dict"]
    decreases s
  {
    if ToDict(s) {
      ToDictCloses(s, processor);
    } else {
      var i :| 0 <= i < |s.kids| && Around(s.kids[i]) && forall j | 0 <= j < |s.kids| && j != i :: Outside(s.kids[j]);
      AroundCloses(s.kids[i], processor);
      forall x: string | x in INNER || x == "to_dict"
        ensures Own(s, processor)[x] == Own(s.kids[i], processor)[x]
                && Inclusive(s, processor)[x] == Inclusive(s.kids[i], processor)[x]
      {
        TimeAt(s, x, processor);
        OnlyKid(s, |s.kids|, i, x, processor);
      }
    }
  }

  lemma {:induction false} OnlyKid(s: Span, k: nat, i: nat, x: string, processor: bool)
    requires Ordered(s) && k <= |s.kids| && i < |s.kids| && (x in INNER || x == "to_dict")
    requires forall j | 0 <= j < |s.kids| && j != i :: Outside(s.kids[j])
    ensures KidsOwn(s, k, processor)[x] == if i < k then Own(s.kids[i], processor)[x] else 0
    ensures KidsInclusive(s, k, processor)[x] == if i < k then Inclusive(s.kids[i], processor)[x] else 0
    decreases k
  {
    hide Ordered, Own, Inclusive, Outside, Lacks;
    if k > 0 {
      OnlyKid(s, k - 1, i, x, processor);
      KidOrdered(s, k - 1);
      if k - 1 != i {
        InsideLacks(s.kids[k - 1], x);
        LacksTime(s.kids[k - 1], x, processor);
      }
    }
  }

  /** A whole measurement: one `snapshot` span, once, around one `to_dict`. */
  ghost predicate Measurement(s: Span) {
    Ordered(s) && s.name == "snapshot" && Around(s) && forall i | 0 <= i < |s.kids| :: Lacks(s.kids[i], "snapshot")
  }

  /** Both identities that are checked hold of every measurement. */
  lemma MeasurementCloses(s: Span, processor: bool)
    requires Measurement(s)
    ensures |Own(s, processor)| == Inclusive(s, processor)["snapshot"]
    ensures Parts(Own(s, processor), Inclusive(s, processor)) == Inclusive(s, processor)["to_dict"]
  {
    OwnAddsUp(s, processor);
    TimeAt(s, "snapshot", processor);
    KidsLackTime(s, |s.kids|, "snapshot", processor);
    AroundCloses(s, processor);
  }

  // ----- validation -----

  function Expected(tasks: nat, nodes: nat): seq<(string, int)> {
    [("snapshot", 1), ("to_dict", 1), ("deepcopy", 1), ("R", nodes), ("V", 1), ("G-hit", tasks - 1), ("G-build", 1),
     ("U-hit", (tasks - 1) * 4), ("U-build", 4)]
  }

  ghost predicate CountsRight(t: Tallies, tasks: nat, nodes: nat) {
    forall i | 0 <= i < |Expected(tasks, nodes)| ::
      var (name, count) := Expected(tasks, nodes)[i]; t.entered[name] == count == t.completed[name]
  }

  ghost predicate Closes(t: Tallies, processor: bool) {
    && |t.Own(processor)| == t.Inclusive(processor)["snapshot"]
    && Parts(t.Own(processor), t.Inclusive(processor)) == t.Inclusive(processor)["to_dict"]
  }

  ghost predicate Wrong(t: Tallies, e: (string, int)) { t.entered[e.0] != e.1 || t.completed[e.0] != e.1 }

  /** One code for each count that is wrong, in the order of the table. */
  ghost function CountCodes(t: Tallies, expected: seq<(string, int)>): seq<string> {
    if expected == [] then []
    else
      var n := |expected| - 1;
      CountCodes(t, expected[..n]) + if Wrong(t, expected[n]) then ["count:" + expected[n].0] else []
  }

  ghost function ClosureCodes(t: Tallies, processor: bool): seq<string> {
    var clock := if processor then "cpu" else "wall";
    if |t.Own(processor)| != t.Inclusive(processor)["snapshot"] then ["closure:" + clock]
    else if Parts(t.Own(processor), t.Inclusive(processor)) != t.Inclusive(processor)["to_dict"] then
      ["to_dict_closure:" + clock]
    else []
  }

  /** What validation complains about: identities are looked at only when nothing else is wrong, wall clock first. */
  ghost function Complaints(t: Tallies, unsound: bool, tasks: nat, nodes: nat): seq<string> {
    var counts := CountCodes(t, Expected(tasks, nodes));
    if unsound || counts != [] then counts
    else if ClosureCodes(t, false) != [] then ClosureCodes(t, false)
    else ClosureCodes(t, true)
  }

  lemma {:induction false} NoCountCodes(t: Tallies, expected: seq<(string, int)>)
    ensures CountCodes(t, expected) == [] <==>
            forall i | 0 <= i < |expected| :: t.entered[expected[i].0] == expected[i].1 == t.completed[expected[i].0]
    decreases |expected|
  {
    if expected != [] {
      var n := |expected| - 1;
      NoCountCodes(t, expected[..n]);
      assert forall i | 0 <= i < n :: expected[..n][i] == expected[i];
    }
  }

  /** `validate_observation`: counts, an empty stack, and both identities on both clocks. */
  method Validate(o: Observation, tasks: nat, nodes: nat) returns (ok: bool)
    modifies o
    ensures ok <==>
              CountsRight(o.t, tasks, nodes) && o.stack == [] && !old(o.invalid) && Closes(o.t, false)
              && Closes(o.t, true)
    ensures o.t == old(o.t) && o.stack == old(o.stack)
    ensures o.errors == Noted(old(o.errors), Complaints(o.t, o.stack != [] || old(o.invalid), tasks, nodes))
    ensures o.invalid <==> old(o.invalid) || Complaints(o.t, o.stack != [] || old(o.invalid), tasks, nodes) != []
  {
    var expected := Expected(tasks, nodes);
    hide Parts, Expected, Noted;
    NotedMore(o.errors, [], []);
    for i := 0 to |expected|
      invariant o.t == old(o.t) && o.stack == old(o.stack)
      invariant o.errors == Noted(old(o.errors), CountCodes(o.t, expected[..i]))
      invariant o.invalid <==> old(o.invalid) || CountCodes(o.t, expected[..i]) != []
    {
      var (name, count) := expected[i];
      assert expected[..i + 1][..i] == expected[..i];
      NotedMore(old(o.errors), CountCodes(o.t, expected[..i]), ["count:" + name]);
      assert CountCodes(o.t, expected[..i]) + [] == CountCodes(o.t, expected[..i]);
      if o.t.entered[name] != count || o.t.completed[name] != count {
        o.Fail("count:" + name);
      }
    }
    assert expected[..|expected|] == expected;
    NoCountCodes(o.t, expected);
    if o.stack != [] || o.invalid {
      return false;
    }
    ok := CheckClosure(o, false);
    if ok {
      ok := CheckClosure(o, true);
    }
  }

  method CheckClosure(o: Observation, processor: bool) returns (ok: bool)
    modifies o`invalid, o`errors
    ensures ok <==> Closes(o.t, processor)
    ensures o.errors == Noted(old(o.errors), ClosureCodes(o.t, processor))
    ensures o.invalid <==> old(o.invalid) || !ok
    ensures ok <==> ClosureCodes(o.t, processor) == []
  {
    hide Parts, Noted;
    NotedMore(o.errors, [], []);
    var own, inclusive := o.t.Own(processor), o.t.Inclusive(processor);
    if |own| != inclusive["snapshot"] {
      o.Fail("closure:" + (if processor then "cpu" else "wall"));
      return false;
    }
    if Parts(own, inclusive) != inclusive["to_dict"] {
      o.Fail("to_dict_closure:" + (if processor then "cpu" else "wall"));
      return false;
    }
    return true;
  }

  /**
   Observing a measurement passes validation exactly when it raises no exception, stays within the capacities
   and has the expected counts: the identities cannot fail through rounding or bookkeeping.
   */
  method Observe(s: Span, limit: nat, tasks: nat, nodes: nat) returns (ok: bool)
    requires Measurement(s)
    ensures ok <==>
              && Fits(s, multiset{}, 0, limit)
              && forall i | 0 <= i < |Expected(tasks, nodes)| ::
                   Entries(s)[Expected(tasks, nodes)[i].0] == Expected(tasks, nodes)[i].1
  {
    hide Own, Inclusive, Entries, Around, Ordered, Fits, Parts, Expected, Lacks, Cut, Noted, Plus, Complaints;
    var o := new Observation(limit);
    var raised, counted := o.Run(s);
    assert NamesIn(multiset{}) == {};
    CleanExactly(s, multiset{}, 0, limit);
    ok := Validate(o, tasks, nodes);
    if Fits(s, multiset{}, 0, limit) {
      FitsCalm(s, multiset{}, 0, limit);
      FromNothing(s);
      MeasurementCloses(s, false);
      MeasurementCloses(s, true);
    }
  }

  lemma FitsCalm(s: Span, entered: multiset<string>, depth: nat, limit: nat)
    requires Fits(s, entered, depth, limit)
    ensures Calm(s)
  {
  }

  lemma FromNothing(s: Span)
    requires Ordered(s) && Calm(s)
    ensures Plus(Tallies(multiset{}, multiset{}, multiset{}, multiset{}, multiset{}, multiset{}), s) ==
            Tallies(Entries(s), Entries(s), Inclusive(s, false), Inclusive(s, true), Own(s, false), Own(s, true))
  {
    CalmFinishes(s);
  }
}
