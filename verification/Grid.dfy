/**
 The fixed arrival grid: an integer timetable made of constant-rate segments, and the poll
 that turns a wake-up time into a half-open range of expired slots and at most one live slot.
 */
module ArrivalGrid {
  import opened Common

  /** Slots lo..hi, the first at `start`, `period` nanoseconds apart. */
  datatype Segment = Segment(lo: nat, hi: nat, start: int, period: nat) {

    ghost predicate Valid() { lo < hi && 0 < period }

    function Time(i: int): int { start + (i - lo) * period }

    /** The moment the segment is over. */
    function End(): int { start + (hi - lo) * period }
  }

  datatype Timetable = Timetable(start: int, end: int, total: nat, segments: seq<Segment>)

  datatype Window = Window(lo: int, hi: int, rate: nat)

  datatype PollResult = PollResult(expiredLo: nat, expiredHi: nat, live: Option<nat>)

  /** Segments follow each other without a gap, in slots and in time. */
  ghost predicate Chained(segs: seq<Segment>) {
    && (forall k | 0 <= k < |segs| :: segs[k].Valid())
    && (forall k | 0 < k < |segs| :: segs[k].lo == segs[k-1].hi && segs[k].start == segs[k-1].End())
  }

  ghost predicate Valid(g: Timetable) {
    && |g.segments| > 0
    && Chained(g.segments)
    && g.segments[0].lo == 0 && g.segments[0].start == g.start
    && g.segments[|g.segments|-1].hi == g.total
    && g.segments[|g.segments|-1].End() == g.end
  }

  function Windows(seconds: int, rate: nat, burst: bool): seq<Window> {
    if burst then [Window(0, 60, rate), Window(60, 70, 1000), Window(70, seconds, rate)]
    else [Window(0, seconds, rate)]
  }

  predicate Accepted(w: Window) { w.lo < w.hi && w.rate != 0 && NS % w.rate == 0 }

  lemma PeriodDivides(w: Window, start: int, index: nat)
    requires Accepted(w)
    ensures NS / w.rate > 0
    ensures Segment(index, index + (w.hi - w.lo) * w.rate, start + w.lo * NS, NS / w.rate).End() == start + w.hi * NS
    ensures (w.hi - w.lo) * w.rate > 0
  {
    var n, q := w.hi - w.lo, NS / w.rate;
    assert w.rate * q == NS;
    Regroup(n, w.rate, q);
    Distribute(w.lo, n, NS);
    AtLeast(n, w.rate);
  }

  lemma Regroup(a: int, b: int, c: int)
    ensures a * b * c == a * (b * c)
  {
  }

  /** The time of slot i, in closed form: a thousand slots a second from 60 s to 70 s of a burst, `rate` else. */
  function SlotTime(start: int, rate: nat, burst: bool, i: nat): int
    requires rate > 0
  {
    if !burst || i < 60 * rate then start + i * (NS / rate)
    else if i < 60 * rate + 10_000 then start + 60 * NS + (i - 60 * rate) * 1_000_000
    else start + 70 * NS + (i - 60 * rate - 10_000) * (NS / rate)
  }

  /** The k-th segment of the plan: its first slot, its start and its period. */
  function Plan(start: int, rate: nat, k: nat): (nat, int, nat)
    requires rate > 0
  {
    if k == 0 then (0, start, NS / rate)
    else if k == 1 then (60 * rate, start + 60 * NS, 1_000_000)
    else (60 * rate + 10_000, start + 70 * NS, NS / rate)
  }

  ghost predicate Follows(segs: seq<Segment>, start: int, rate: nat) {
    rate > 0 && forall k: nat | k < |segs| :: (segs[k].lo, segs[k].start, segs[k].period) == Plan(start, rate, k)
  }

  /** The constructor: refuses an empty window or a rate that does not divide the second. */
  method Build(start: int, seconds: int, rate: nat, burst: bool) returns (r: Result<Timetable, string>)
    ensures r.Success? <==> forall w | w in Windows(seconds, rate, burst) :: Accepted(w)
    ensures r.Success? ==> Valid(r.value) && r.value.start == start && r.value.end == start + seconds * NS
    ensures r.Success? ==> r.value.total == if burst then 10000 + (seconds - 10) * rate else seconds * rate
    ensures r.Success? ==>
              rate > 0 && forall i: nat | i < r.value.total :: Time(r.value, i) == SlotTime(start, rate, burst, i)
  {
    var windows := Windows(seconds, rate, burst);
    var segs: seq<Segment> := [];
    var index: nat := 0;
    var k := 0;
    while k < |windows|
      invariant 0 <= k <= |windows|
      invariant forall j | 0 <= j < k :: Accepted(windows[j])
      invariant |segs| == k && Chained(segs)
      invariant k > 0 ==> Follows(segs, start, rate)
      invariant k == 0 ==> index == 0
      invariant k > 0 ==> segs[0].lo == 0 && segs[0].start == start + windows[0].lo * NS
      invariant k > 0 ==> segs[k-1].hi == index && segs[k-1].End() == start + windows[k-1].hi * NS
      invariant k == 1 ==> index == (windows[0].hi - windows[0].lo) * rate
      invariant k == 2 ==> index == 60 * rate + 10000
      invariant k == 3 ==> index == 60 * rate + 10000 + (seconds - 70) * rate
    {
      var w := windows[k];
      if !Accepted(w) {
        return Failure("invalid fixed grid");
      }
      PeriodDivides(w, start, index);
      var count := (w.hi - w.lo) * w.rate;
      segs := segs + [Segment(index, index + count, start + w.lo * NS, NS / w.rate)];
      index := index + count;
      k := k + 1;
    }
    r := Success(Timetable(start, start + seconds * NS, index, segs));
    forall i: nat | i < index ensures Time(r.value, i) == SlotTime(start, rate, burst, i) {
      PlannedTime(r.value, rate, burst, i);
    }
  }

  lemma PlannedTime(g: Timetable, rate: nat, burst: bool, i: nat)
    requires Valid(g) && Follows(g.segments, g.start, rate) && i < g.total
    requires |g.segments| == if burst then 3 else 1
    ensures Time(g, i) == SlotTime(g.start, rate, burst, i)
  {
    hide Time, Segment.End;
    if burst {
      assert g.segments[0].hi == g.segments[1].lo == 60 * rate;
      assert g.segments[1].hi == g.segments[2].lo == 60 * rate + 10_000;
    }
    LastSlot(g, if !burst || i < 60 * rate then 0 else if i < 60 * rate + 10_000 then 1 else 2, i);
  }

  // ----- the time of a slot -----

  /** The segment holding slot i. */
  function Find(segs: seq<Segment>, i: int): (r: Option<Segment>)
    ensures r.Some? ==> r.value in segs && r.value.lo <= i < r.value.hi
    ensures r.None? ==> forall s | s in segs :: !(s.lo <= i < s.hi)
  {
    if segs == [] then None
    else if segs[0].lo <= i < segs[0].hi then Some(segs[0])
    else Find(segs[1..], i)
  }

  /** `Grid.at`: the slot's own time, the end of the grid one past the last slot, an error elsewhere. */
  function At(g: Timetable, i: int): (r: Result<int, string>) {
    if i == g.total then Success(g.end)
    else match Find(g.segments, i)
      case Some(s) => Success(s.Time(i))
      case None => Failure("index")
  }

  /** The time of a slot that is known to exist. */
  function Time(g: Timetable, i: int): int {
    match At(g, i) case Success(t) => t case Failure(_) => g.end
  }

  /** Slots run through the segments in order. */
  lemma {:induction false} Ordered(segs: seq<Segment>, j: nat, k: nat)
    requires Chained(segs) && j < k < |segs|
    ensures segs[j].hi <= segs[k].lo && segs[j].End() <= segs[k].start
    decreases k
  {
    if j < k - 1 {
      Ordered(segs, j, k - 1);
      Grows(segs[k-1], segs[k-1].lo, segs[k-1].hi);
    }
  }

  lemma Grows(s: Segment, i: int, j: int)
    requires 0 < s.period && i <= j
    ensures s.Time(i) + (j - i) <= s.Time(j)
  {
    Distribute(i - s.lo, j - i, s.period);
    AtLeast(j - i, s.period);
  }

  lemma Distribute(a: int, b: int, p: int)
    ensures (a + b) * p == a * p + b * p
  {
  }

  lemma AtLeast(n: int, p: int)
    requires n >= 0 && p >= 1
    ensures n * p >= n
  {
  }

  lemma {:induction false} FindIndex(segs: seq<Segment>, k: nat, i: int)
    requires Chained(segs) && k < |segs| && segs[k].lo <= i < segs[k].hi
    ensures Find(segs, i) == Some(segs[k])
  {
    if k > 0 {
      Ordered(segs, 0, k);
      assert Chained(segs[1..]);
      FindIndex(segs[1..], k - 1, i);
    }
  }

  /** Every slot below the total lies in a segment. */
  lemma {:induction false} Covered(segs: seq<Segment>, i: int) returns (k: nat)
    requires |segs| > 0 && Chained(segs)
    requires segs[0].lo <= i < segs[|segs|-1].hi
    ensures k < |segs| && segs[k].lo <= i < segs[k].hi
    decreases |segs|
  {
    var n := |segs| - 1;
    if i >= segs[n].lo {
      k := n;
    } else {
      assert Chained(segs[..n]);
      k := Covered(segs[..n], i);
    }
  }

  /** The facts about a segment's times that the rest needs, free of multiplication. */
  lemma SegmentTimes(s: Segment, i: int)
    requires s.Valid()
    ensures s.Time(s.lo) == s.start && s.Time(s.hi) == s.End()
    ensures s.Time(i) < s.Time(i + 1)
    ensures s.start < s.End()
  {
  }

  /** `at` is defined exactly on 0..total. */
  lemma {:induction false} SlotDomain(g: Timetable, i: int)
    requires Valid(g)
    ensures At(g, i).Success? <==> 0 <= i <= g.total
  {
    hide Segment.Time, Segment.End;
    if 0 <= i < g.total {
      var k := Covered(g.segments, i);
      FindIndex(g.segments, k, i);
    } else if i != g.total {
      forall s | s in g.segments ensures !(s.lo <= i < s.hi) {
        var k :| 0 <= k < |g.segments| && g.segments[k] == s;
        if k < |g.segments| - 1 { Ordered(g.segments, k, |g.segments| - 1); }
        if k > 0 { Ordered(g.segments, 0, k); }
      }
    }
  }

  /** The grid's times strictly increase, across rate changes too. */
  lemma {:induction false} SlotTimes(g: Timetable, i: int)
    requires Valid(g) && 0 <= i < g.total
    ensures Time(g, i) < Time(g, i + 1)
  {
    hide Segment.Time, Segment.End;
    var k := Covered(g.segments, i);
    var s := g.segments[k];
    LastSlot(g, k, i);
    SegmentTimes(s, i);
    if i + 1 < s.hi {
      LastSlot(g, k, i + 1);
    } else if k + 1 < |g.segments| {
      SegmentTimes(g.segments[k+1], i);
      LastSlot(g, k + 1, i + 1);
    }
  }

  lemma StartTime(g: Timetable)
    requires Valid(g)
    ensures g.total > 0 && Time(g, 0) == g.start
  {
  }

  lemma EndTime(g: Timetable)
    ensures Time(g, g.total) == g.end
  {
  }

  lemma {:induction false} Increasing(g: Timetable, i: int, j: int)
    requires Valid(g) && 0 <= i <= j <= g.total
    ensures Time(g, i) + (j - i) <= Time(g, j)
    decreases j - i
  {
    hide Time, Valid;
    if i < j {
      SlotTimes(g, j - 1);
      Increasing(g, i, j - 1);
    }
  }

  // ----- polling -----

  /** The last slot whose time has come by `now` among the first k segments, -1 if there is none. */
  function Due(segs: seq<Segment>, now: int, k: nat): int
    requires k <= |segs|
  {
    if k == 0 then -1
    else
      var s := segs[k-1];
      if now >= s.start && s.period > 0 then Min(s.hi - 1, s.lo + (now - s.start) / s.period)
      else Due(segs, now, k - 1)
  }

  /** `Grid.poll` as a function of the cursor; returns the new cursor too. */
  function Poll(g: Timetable, cursor: nat, now: int): (r: (nat, PollResult))
    requires cursor <= g.total
    ensures r.0 <= g.total && r.1.expiredLo == cursor <= r.1.expiredHi
  {
    var due := Min(Due(g.segments, now, |g.segments|), g.total - 1);
    if now >= g.end then (g.total, PollResult(cursor, g.total, None))
    else if due < cursor then (cursor, PollResult(cursor, cursor, None))
    else (due + 1, PollResult(cursor, due, Some(due)))
  }

  /** Within one segment, division finds the last slot that has started. */
  lemma DueInSegment(s: Segment, now: int)
    requires s.Valid() && s.start <= now
    ensures var q := s.lo + (now - s.start) / s.period;
            s.lo <= q && s.Time(q) <= now < s.Time(q + 1)
            && (s.hi <= q ==> s.End() <= now)
  {
  }

  /** Before the end of the grid, the due slot is the last one that has started. */
  lemma {:induction false} DueIsLatest(g: Timetable, now: int)
    requires Valid(g) && now < g.end
    ensures var due := Due(g.segments, now, |g.segments|);
            && -1 <= due < g.total
            && (due == -1 <==> now < g.start)
            && (due >= 0 ==> Time(g, due) <= now < Time(g, due + 1))
  {
    var n := |g.segments|;
    StartTime(g);
    DueUpTo(g, now, n);
    var due := Due(g.segments, now, n);
    if due >= 0 && due + 1 == g.total {
      assert Time(g, due + 1) == g.end;
    }
  }

  /** Among the first k segments the due slot is the last one that has started. */
  lemma {:induction false} DueUpTo(g: Timetable, now: int, k: nat)
    requires Valid(g) && 0 < k <= |g.segments|
    ensures var due := Due(g.segments, now, k);
            && -1 <= due < g.segments[k-1].hi
            && (due == -1 <==> now < g.start)
            && (due >= 0 ==> Time(g, due) <= now)
            && (due >= 0 && due + 1 < g.segments[k-1].hi ==> now < Time(g, due + 1))
  {
    hide Segment.Time, Segment.End;
    var s := g.segments[k-1];
    if k > 1 {
      SegmentTimes(g.segments[0], 0);
      Ordered(g.segments, 0, k - 1);
    }
    if now >= s.start {
      DueInSegment(s, now);
      DueHere(g, now, k);
    } else if k > 1 {
      DueUpTo(g, now, k - 1);
      var due := Due(g.segments, now, k - 1);
      if due + 1 == s.lo {
        SegmentTimes(s, s.lo);
        LastSlot(g, k - 1, s.lo);
      }
    } else {
      assert Due(g.segments, now, 0) == -1;
    }
  }

  lemma DueHere(g: Timetable, now: int, k: nat)
    requires Valid(g) && 0 < k <= |g.segments| && g.segments[k-1].start <= now
    ensures var due := Due(g.segments, now, k);
            && g.segments[k-1].lo <= due < g.segments[k-1].hi
            && Time(g, due) <= now
            && (due + 1 < g.segments[k-1].hi ==> now < Time(g, due + 1))
  {
    hide Segment.Time, Segment.End;
    var s := g.segments[k-1];
    DueInSegment(s, now);
    var q := s.lo + (now - s.start) / s.period;
    var due := Due(g.segments, now, k);
    assert due == Min(s.hi - 1, q);
    LastSlot(g, k - 1, due);
    if due + 1 < s.hi {
      LastSlot(g, k - 1, due + 1);
    } else {
      Grows(s, due, q);
    }
  }

  /** A slot inside a segment is not the end mark, so `at` reads it from that segment. */
  lemma LastSlot(g: Timetable, k: nat, i: int)
    requires Valid(g) && k < |g.segments| && g.segments[k].lo <= i < g.segments[k].hi
    ensures i < g.total && Time(g, i) == g.segments[k].Time(i)
  {
    if k < |g.segments| - 1 { Ordered(g.segments, k, |g.segments| - 1); }
    FindIndex(g.segments, k, i);
  }

  /**
   What one poll promises: the cursor never moves back, exactly the slots it passes are reported,
   a live slot is inside its own window, an expired slot's window is over, nothing due is left behind.
   */
  lemma {:induction false} PollMeaning(g: Timetable, cursor: nat, now: int)
    requires Valid(g) && cursor <= g.total
    ensures var (next, p) := Poll(g, cursor, now);
            && p.expiredLo == cursor <= p.expiredHi <= next <= g.total
            && (p.live.Some? ==> p.expiredHi == p.live.value && next == p.live.value + 1
                                 && Time(g, p.live.value) <= now < Time(g, p.live.value + 1))
            && (p.live.None? ==> next == p.expiredHi)
            && (forall i | p.expiredLo < i <= p.expiredHi :: Time(g, i) <= now)
            && (next < g.total ==> now < Time(g, next))
  {
    hide Time, Valid, Due;
    var (next, p) := Poll(g, cursor, now);
    if now < g.end {
      DueIsLatest(g, now);
      var due := Due(g.segments, now, |g.segments|);
      if due < cursor && cursor < g.total {
        if due >= 0 { Increasing(g, due + 1, cursor); } else { StartTime(g); Increasing(g, 0, cursor); }
      }
    }
    EndTime(g);
    forall i | p.expiredLo < i <= p.expiredHi ensures Time(g, i) <= now {
      Increasing(g, i, p.expiredHi);
    }
  }

  /** The slot whose window holds the moment is live, if the cursor has not passed it, and all before it expire. */
  lemma PollLive(g: Timetable, cursor: nat, now: int, i: nat)
    requires Valid(g) && cursor <= i < g.total && Time(g, i) <= now < Time(g, i + 1)
    ensures Poll(g, cursor, now) == (i + 1, PollResult(cursor, i, Some(i)))
  {
    hide Poll, Time, Valid;
    PollMeaning(g, cursor, now);
    forall k | 0 <= k <= i ensures Time(g, k) <= now { Increasing(g, k, i); }
    forall k | i < k <= g.total ensures now < Time(g, k) { Increasing(g, i + 1, k); }
  }

  /** Outside every remaining window nothing is live: the grid is over, or nothing is due. */
  lemma PollIdle(g: Timetable, cursor: nat, now: int)
    requires Valid(g) && cursor <= g.total
    requires forall i: nat | cursor <= i < g.total :: !(Time(g, i) <= now < Time(g, i + 1))
    ensures Poll(g, cursor, now) == if now >= g.end then (g.total, PollResult(cursor, g.total, None))
                                    else (cursor, PollResult(cursor, cursor, None))
  {
    PollMeaning(g, cursor, now);
  }

  /** The slots one poll reports, in order. */
  function Reported(p: PollResult): seq<nat>
    requires p.expiredLo <= p.expiredHi
  {
    seq(p.expiredHi - p.expiredLo, i requires 0 <= i => p.expiredLo + i) + (if p.live.Some? then [p.live.value] else [])
  }

  /** All slots reported by polls at the given times, in order, with the final cursor. */
  function PollAll(g: Timetable, cursor: nat, times: seq<int>): (r: (nat, seq<nat>))
    requires cursor <= g.total
    decreases |times|
  {
    if times == [] then (cursor, [])
    else
      var (next, p) := Poll(g, cursor, times[0]);
      var (last, rest) := PollAll(g, next, times[1..]);
      (last, Reported(p) + rest)
  }

  lemma ReportedSlots(p: PollResult)
    requires p.expiredLo <= p.expiredHi && (p.live.Some? ==> p.live.value == p.expiredHi)
    ensures |Reported(p)| == p.expiredHi - p.expiredLo + (if p.live.Some? then 1 else 0)
    ensures forall i | 0 <= i < |Reported(p)| :: Reported(p)[i] == p.expiredLo + i
  {
  }

  /**
   Whatever the wake-up times, even if they go back, the reported slots are cursor, cursor+1, ...
   up to the final cursor: each slot exactly once and none skipped.
   */
  lemma {:induction false} PollPartition(g: Timetable, cursor: nat, times: seq<int>)
    requires Valid(g) && cursor <= g.total
    ensures var (last, slots) := PollAll(g, cursor, times);
            && cursor <= last <= g.total
            && |slots| == last - cursor
            && (forall i | 0 <= i < |slots| :: slots[i] == cursor + i)
    decreases |times|
  {
    hide Poll, Time, At, Valid, Reported;
    if times != [] {
      PollMeaning(g, cursor, times[0]);
      var (next, p) := Poll(g, cursor, times[0]);
      ReportedSlots(p);
      PollPartition(g, next, times[1..]);
    }
  }

  /** A poll at or after the end of the grid leaves no slot unreported. */
  lemma {:induction false} PollEnds(g: Timetable, cursor: nat, times: seq<int>, k: nat)
    requires Valid(g) && cursor <= g.total && k < |times| && times[k] >= g.end
    ensures PollAll(g, cursor, times).0 == g.total
    decreases |times|
  {
    hide Time, At, Valid, Reported;
    var next := Poll(g, cursor, times[0]).0;
    if k == 0 {
      PollPartition(g, next, times[1..]);
    } else {
      PollEnds(g, next, times[1..], k - 1);
    }
  }

  /** The grid object: the timetable never changes, the cursor moves. */
  class Grid {
    const table: Timetable
    var cursor: nat

    ghost predicate Ok() reads this { Valid(table) && cursor <= table.total }

    constructor (table: Timetable)
      requires Valid(table)
      ensures Ok() && this.table == table && cursor == 0
    {
      this.table := table;
      cursor := 0;
    }

    method PollAt(now: int) returns (p: PollResult)
      requires Ok()
      modifies this
      ensures Ok()
      ensures (cursor, p) == Poll(table, old(cursor), now)
    {
      var due := -1;
      for k := 0 to |table.segments|
        invariant due == Due(table.segments, now, k)
        invariant cursor == old(cursor)
      {
        var s := table.segments[k];
        if now >= s.start {
          due := Min(s.hi - 1, s.lo + (now - s.start) / s.period);
        }
      }
      due := Min(due, table.total - 1);
      var before := cursor;
      if now >= table.end {
        cursor := table.total;
        return PollResult(before, table.total, None);
      }
      if due < before {
        return PollResult(before, before, None);
      }
      cursor := due + 1;
      return PollResult(before, due, Some(due));
    }
  }
}
