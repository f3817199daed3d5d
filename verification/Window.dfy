/** The bounded receipt window, and the receipt that checks a producer's final totals against it. */
module ReceiptWindow {
  import opened Common

  datatype Rejection = Duplicate | OutOfWindow

  datatype WindowState = WindowState(capacity: nat, next: int, received: nat, waiting: set<int>) {

    /** Take the run of numbers that starts at `next` out of the waiting set. */
    function Drained(): WindowState
      decreases |waiting|
    {
      if next in waiting then this.(waiting := waiting - {next}, next := next + 1).Drained() else this
    }

    function Accept(x: int): Result<WindowState, Rejection> {
      if x < next || x in waiting then Failure(Duplicate)
      else if x >= next + capacity then Failure(OutOfWindow)
      else Success(this.(waiting := waiting + {x}, received := received + 1).Drained())
    }

    predicate Known(produced: int) { waiting == {} && received == produced && next == produced + 1 }
  }

  function Empty(capacity: nat): WindowState { WindowState(capacity, 1, 0, {}) }

  /** What a window says about the set of numbers it has accepted. */
  ghost predicate Shows(w: WindowState, s: set<int>) {
    && (forall x | x in s :: 1 <= x < w.next + w.capacity)
    && w.next >= 1 && w.next !in s && (forall x | 1 <= x < w.next :: x in s)
    && w.waiting == (set x | x in s && x > w.next)
    && w.received == |s|
  }

  // ----- the state depends on the accepted set alone -----

  /** Before draining, `next` itself may be waiting. */
  ghost predicate Loaded(w: WindowState, s: set<int>) {
    && (forall x | x in s :: 1 <= x < w.next + w.capacity)
    && w.next >= 1 && (forall x | 1 <= x < w.next :: x in s)
    && w.waiting == (set x | x in s && x >= w.next)
    && w.received == |s|
  }

  lemma {:induction false} DrainShows(w: WindowState, s: set<int>)
    requires Loaded(w, s)
    ensures Shows(w.Drained(), s) && w.Drained().capacity == w.capacity
    decreases |w.waiting|
  {
    if w.next in w.waiting {
      var v := w.(waiting := w.waiting - {w.next}, next := w.next + 1);
      DrainShows(v, s);
    }
  }

  /** A number is accepted exactly when it is new, positive and inside the window. */
  lemma AcceptMeaning(w: WindowState, s: set<int>, x: int)
    requires Shows(w, s)
    ensures w.Accept(x).Success? <==> x >= 1 && x !in s && x < w.next + w.capacity
    ensures w.Accept(x) == Failure(Duplicate) <==> x < 1 || x in s
    ensures w.Accept(x).Success? ==> Shows(w.Accept(x).value, s + {x}) && w.Accept(x).value.capacity == w.capacity
  {
    if w.Accept(x).Success? {
      DrainShows(w.(waiting := w.waiting + {x}, received := w.received + 1), s + {x});
    }
  }

  lemma ShowsUnique(v: WindowState, w: WindowState, s: set<int>)
    requires Shows(v, s) && Shows(w, s) && v.capacity == w.capacity
    ensures v == w
  {
  }

  function Elements(xs: seq<int>): set<int> { set x | x in xs }

  function AcceptAll(w: WindowState, xs: seq<int>): Result<WindowState, Rejection> {
    if xs == [] then Success(w)
    else match AcceptAll(w, xs[..|xs|-1])
      case Failure(e) => Failure(e)
      case Success(v) => v.Accept(xs[|xs|-1])
  }

  lemma EmptyShows(capacity: nat)
    ensures Shows(Empty(capacity), {})
  {
  }

  lemma {:induction false} AcceptAllMeaning(capacity: nat, xs: seq<int>)
    requires AcceptAll(Empty(capacity), xs).Success?
    ensures Shows(AcceptAll(Empty(capacity), xs).value, Elements(xs))
    ensures AcceptAll(Empty(capacity), xs).value.capacity == capacity
  {
    hide WindowState.Accept, Shows;
    if xs == [] {
      assert Elements(xs) == {};
      EmptyShows(capacity);
    } else {
      var init, last := xs[..|xs|-1], xs[|xs|-1];
      AcceptAllMeaning(capacity, init);
      AcceptMeaning(AcceptAll(Empty(capacity), init).value, Elements(init), last);
      assert xs == init + [last];
      assert Elements(xs) == Elements(init) + {last};
    }
  }

  /** Two orders of arrival of the same numbers end in the same window. */
  lemma OrderFree(capacity: nat, xs: seq<int>, ys: seq<int>)
    requires Elements(xs) == Elements(ys)
    requires AcceptAll(Empty(capacity), xs).Success? && AcceptAll(Empty(capacity), ys).Success?
    ensures AcceptAll(Empty(capacity), xs) == AcceptAll(Empty(capacity), ys)
  {
    AcceptAllMeaning(capacity, xs);
    AcceptAllMeaning(capacity, ys);
    ShowsUnique(AcceptAll(Empty(capacity), xs).value, AcceptAll(Empty(capacity), ys).value, Elements(xs));
  }

  /** lo, lo + 1, ..., hi - 1. */
  function Range(lo: int, hi: int): (r: set<int>)
    ensures forall x :: x in r <==> lo <= x < hi
    ensures |r| == if lo <= hi then hi - lo else 0
    decreases hi - lo
  {
    if lo >= hi then {} else Range(lo, hi - 1) + {hi - 1}
  }

  /** `next` is the least missing number; what was received is the run before it plus what waits. */
  lemma WindowCounts(w: WindowState, s: set<int>)
    requires Shows(w, s)
    ensures w.received == |s| == w.next - 1 + |w.waiting|
    ensures |w.waiting| < w.capacity || w.waiting == {}
  {
    assert s == Range(1, w.next) + w.waiting;
    if w.waiting != {} {
      var x :| x in w.waiting;
      SubsetSize(w.waiting, Range(w.next + 1, w.next + w.capacity));
    }
  }

  lemma Full(a: set<int>, b: set<int>)
    requires a <= b && |a| == |b|
    ensures a == b
  {
    Minus(b, a);
  }

  /** The final check succeeds exactly when the accepted numbers are 1..produced. */
  lemma KnownMeaning(w: WindowState, s: set<int>, produced: int)
    requires Shows(w, s)
    ensures w.Known(produced) <==> produced >= 0 && s == Range(1, produced + 1)
  {
    WindowCounts(w, s);
    if w.Known(produced) {
      assert s == Range(1, produced + 1);
    }
    if produced >= 0 && s == Range(1, produced + 1) {
      assert w.next in s <==> 1 <= w.next <= produced;
      assert produced >= 1 ==> produced in s;
      assert w.next == produced + 1;
    }
  }

  class SequenceWindow {
    const capacity: nat
    var next: int
    var received: nat
    var waiting: set<int>

    function State(): WindowState reads this { WindowState(capacity, next, received, waiting) }

    constructor (capacity: nat)
      ensures State() == Empty(capacity)
    {
      this.capacity := capacity;
      next, received, waiting := 1, 0, {};
    }

    /** A refusal leaves the window as it was. */
    method Accept(sequence: int) returns (r: Result<(), Rejection>)
      modifies this
      ensures match old(State()).Accept(sequence)
              case Success(w) => r == Success(()) && State() == w
              case Failure(e) => r == Failure(e) && State() == old(State())
    {
      if sequence < next || sequence in waiting {
        return Failure(Duplicate);
      }
      if sequence >= next + capacity {
        return Failure(OutOfWindow);
      }
      waiting := waiting + {sequence};
      received := received + 1;
      ghost var loaded := State();
      while next in waiting
        invariant State().Drained() == loaded.Drained()
        decreases |waiting|
      {
        waiting := waiting - {next};
        next := next + 1;
      }
      return Success(());
    }
  }

  // ----- the receipt -----

  datatype Record = Malformed | Event(pid: nat, sequence: nat)

  datatype Category = MalformedFrame | ProducerIdentity | InvalidSequence | Repeated | TooFar
                    | UnknownFinal | InvalidFinal | Missing

  /** The producer's closing report; `Unreadable` when it is absent, `Strange` when its fields are no counts. */
  datatype Final = Unreadable | Strange | Final(produced: int, emitted: int, dropped: int, abandoned: int,
                                                stopped: bool)

  /** The window's next number is the smallest that has not been accepted. */
  lemma NextIsFirst(w: WindowState, logged: seq<int>, x: int)
    requires Shows(w, Elements(logged))
    ensures x >= 1 && x !in logged ==> (x != w.next <==> exists y :: 1 <= y < x && y !in logged)
  {
    if x > w.next { assert w.next !in logged; }
    forall y | 1 <= y < w.next ensures y in logged {
      assert y in Elements(logged);
    }
  }

  class ObservationReceipt {
    const producer: nat
    const window: SequenceWindow
    var highest: int
    var reordered: nat
    var logged: seq<int>

    /** The window shows exactly the logged numbers, none of them twice. */
    ghost predicate Ok()
      reads this, window
    {
      && Shows(window.State(), Elements(logged)) && |logged| == |Elements(logged)|
      && highest >= 0 && (forall x | x in logged :: x <= highest) && (highest == 0 || highest in logged)
    }

    constructor (producer: nat, capacity: nat)
      ensures Ok() && logged == [] && this.producer == producer && fresh(window)
    {
      this.producer := producer;
      window := new SequenceWindow(capacity);
      highest, reordered, logged := 0, 0, [];
      new;
      assert Elements(logged) == {};
    }

    /** A record that can be logged now: the registered producer's, positive, new and inside the window. */
    predicate Takes(row: Record)
      reads this, window
    {
      && row.Event? && row.pid == producer && row.sequence >= 1
      && row.sequence !in logged && row.sequence < window.next + window.capacity
    }

    /** Why a record cannot be taken, the first reason that applies. */
    function WhyNot(row: Record): Category
      reads this
    {
      if row.Malformed? then MalformedFrame
      else if row.pid != producer then ProducerIdentity
      else if row.sequence == 0 then InvalidSequence
      else if row.sequence in logged then Repeated
      else TooFar
    }

    /** Some smaller number has not been logged yet. */
    ghost predicate Early(x: int)
      reads this
    {
      exists y :: 1 <= y < x && y !in logged
    }

    /** One event: logged exactly when it is the registered producer's and the window takes it. */
    method Take(row: Record) returns (r: Result<(), Category>)
      requires Ok()
      modifies this, window
      ensures Ok()
      ensures r.Success? <==> old(Takes(row))
      ensures logged == if r.Success? then old(logged) + [row.sequence] else old(logged)
      ensures reordered == old(reordered) + if r.Success? && old(Early(row.sequence)) then 1 else 0
      ensures r.Failure? ==> r.error == old(WhyNot(row)) && window.State() == old(window.State())
      ensures r.Failure? ==> highest == old(highest)
    {
      hide Shows, WindowState.Accept, WindowState.Drained;
      if row.Malformed? {
        return Failure(MalformedFrame);
      }
      if row.pid != producer {
        return Failure(ProducerIdentity);
      }
      if row.sequence == 0 {
        return Failure(InvalidSequence);
      }
      var expected := window.next;
      NextIsFirst(window.State(), logged, row.sequence);
      AcceptMeaning(window.State(), Elements(logged), row.sequence);
      var taken := window.Accept(row.sequence);
      if taken.Failure? {
        return Failure(if taken.error == Duplicate then Repeated else TooFar);
      }
      highest := Max(highest, row.sequence);
      reordered := reordered + if row.sequence != expected then 1 else 0;
      assert Elements(logged + [row.sequence]) == Elements(logged) + {row.sequence as int};
      logged := logged + [row.sequence];
      return Success(());
    }

    /** A frame is taken record by record up to the first bad one; everything before it stays logged. */
    method Accept(frame: seq<Record>, truncated: bool) returns (r: Result<(), Category>, count: nat)
      requires Ok()
      modifies this, window
      ensures Ok()
      ensures count <= |frame| && (r.Success? <==> count == |frame| && !truncated)
      ensures truncated ==> count == 0
      ensures truncated ==> r == Failure(MalformedFrame) && logged == old(logged)
      ensures r.Failure? && !truncated ==> !Takes(frame[count]) && r.error == WhyNot(frame[count])
      ensures forall k | 0 <= k < count :: frame[k].Event? && frame[k].pid == producer
      ensures |logged| == |old(logged)| + count && logged[..|old(logged)|] == old(logged)
      ensures forall k | 0 <= k < count :: logged[|old(logged)| + k] == frame[k].sequence
    {
      if truncated {
        return Failure(MalformedFrame), 0;
      }
      count := 0;
      while count < |frame|
        invariant Ok() && 0 <= count <= |frame|
        invariant forall k | 0 <= k < count :: frame[k].Event? && frame[k].pid == producer
        invariant |logged| == |old(logged)| + count && logged[..|old(logged)|] == old(logged)
        invariant forall k | 0 <= k < count :: logged[|old(logged)| + k] == frame[k].sequence
      {
        r := Take(frame[count]);
        if r.Failure? {
          return;
        }
        count := count + 1;
      }
      return Success(()), count;
    }

    /** The report's counts agree with each other and with what has been logged. */
    ghost predicate Agrees(final: Final)
      reads this
    {
      && final.Final? && final.produced >= 0 && final.emitted >= 0 && final.dropped >= 0 && final.abandoned >= 0
      && final.produced == final.emitted + final.dropped
      && (forall x | x in logged :: x <= final.produced) && |logged| <= final.emitted
    }

    /** How the receipt closes: the first objection, or the number of records. */
    ghost function Closing(final: Final): Result<int, Category>
      reads this
    {
      if final.Unreadable? then Failure(UnknownFinal)
      else if !Agrees(final) then Failure(InvalidFinal)
      else if !final.stopped || final.abandoned != 0 then Failure(UnknownFinal)
      else if final.dropped != 0 || Elements(logged) != Range(1, final.produced + 1) then Failure(Missing)
      else Success(final.produced)
    }

    /**
     The receipt closes exactly when the producer's totals are consistent, nothing was dropped or left
     behind, the sender has stopped, and the logged numbers are 1..produced.
     */
    method Finish(final: Final) returns (r: Result<int, Category>)
      requires Ok()
      ensures r == Closing(final)
      ensures r.Success? <==>
                && final.Final? && final.stopped && final.abandoned == 0 && final.dropped == 0
                && final.produced == final.emitted >= 0 && Elements(logged) == Range(1, final.produced + 1)
      ensures r.Success? ==> r.value == final.produced == |logged|
    {
      var w := window.State();
      WindowCounts(w, Elements(logged));
      if final.Final? && final.produced >= 0 {
        KnownMeaning(w, Elements(logged), final.produced);
        if highest <= final.produced == |logged| { Full(Elements(logged), Range(1, final.produced + 1)); }
        assert highest == 0 || highest in Elements(logged);
      }
      if final.Unreadable? {
        return Failure(UnknownFinal);
      }
      if final.Strange? || final.produced < 0 || final.emitted < 0 || final.dropped < 0 || final.abandoned < 0 {
        return Failure(InvalidFinal);
      }
      if final.produced != final.emitted + final.dropped || highest > final.produced
         || window.received > final.emitted
      {
        return Failure(InvalidFinal);
      }
      if !final.stopped || final.abandoned != 0 {
        return Failure(UnknownFinal);
      }
      if final.dropped != 0 || window.received != final.produced || window.waiting != {} {
        return Failure(Missing);
      }
      return Success(window.next - 1);
    }
  }
}
