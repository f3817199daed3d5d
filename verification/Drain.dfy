/** How the emitter drains: when the sender stops, what it leaves, in which order it sends, and what it counts. */
module EmitterDrain {
  import opened Common
  import opened EventEmitter

  // ----- when the sender stops -----

  /** The sender stops with nothing left to send, or because the drain deadline has passed; in no other step. */
  lemma StopMeans(s: State, step: Step)
    requires Enabled(s, step) && !s.sender.Stopped?
    ensures Next(s, step).sender.Stopped? <==>
              s.door.done && ((step == Loop && s.ready == [])
                              || (step == Round(true) && s.ready != [] && s.sender.left > 0))
  {
  }

  /** Step j of the run stops the sender. */
  ghost predicate StopsAt(run: seq<State>, steps: seq<Step>, j: nat)
    requires |run| == |steps| + 1 && j < |steps|
  {
    && !run[j].sender.Stopped? && run[j + 1].sender.Stopped? && run[j].door.done
    && (run[j].ready == [] || steps[j] == Round(true))
  }

  /** A record is published by step j after the sender has stopped. */
  ghost predicate Straggles(run: seq<State>, steps: seq<Step>, j: nat)
    requires |run| == |steps| + 1 && j < |steps|
  {
    run[j].sender.Stopped? && steps[j].Produce? && steps[j].act == Publish
  }

  lemma {:induction false} StoppedOnce(run: seq<State>, steps: seq<Step>, capacity: nat, producers: nat, k: nat)
    requires IsRun(run, steps) && run[0] == Start(capacity, producers) && k < |run| && run[k].sender.Stopped?
    ensures exists j: nat :: j < k && StopsAt(run, steps, j)
  {
    hide Next, Enabled, Start;
    StartFacts(capacity, producers);
    assert k > 0;
    assert run[k] == Next(run[k - 1], steps[k - 1]) && Enabled(run[k - 1], steps[k - 1]);
    if run[k - 1].sender.Stopped? {
      StoppedOnce(run, steps, capacity, producers, k - 1);
    } else {
      StopMeans(run[k - 1], steps[k - 1]);
      assert StopsAt(run, steps, k - 1);
    }
  }

  /** With the sender stopped, only a publication makes the queue longer. */
  lemma StoppedQueue(s: State, step: Step)
    requires Enabled(s, step) && (s.sender.Stopped? || Next(s, step).sender.Stopped?)
    ensures Next(s, step).ready == s.ready || (step.Produce? && step.act == Publish)
    ensures s.sender.Stopped? ==> Next(s, step).sender.Stopped?
  {
  }

  /** Records are abandoned only if the drain deadline had passed or a call of `emit` came too late. */
  lemma {:induction false} AbandonedMeans(run: seq<State>, steps: seq<Step>, capacity: nat, producers: nat, k: nat)
    requires IsRun(run, steps) && run[0] == Start(capacity, producers) && k < |run|
    requires run[k].sender.Stopped? && ReportOf(run[k]).abandoned > 0
    ensures exists j: nat :: j < k && ((StopsAt(run, steps, j) && steps[j] == Round(true)) || Straggles(run, steps, j))
  {
    hide Next, Enabled, Start;
    StartFacts(capacity, producers);
    var s, step := run[k - 1], steps[k - 1];
    assert run[k] == Next(s, step) && Enabled(s, step);
    StoppedQueue(s, step);
    if s.sender.Stopped? {
      if s.ready != [] {
        AbandonedMeans(run, steps, capacity, producers, k - 1);
      } else {
        assert Straggles(run, steps, k - 1);
      }
    } else {
      StopMeans(s, step);
      assert StopsAt(run, steps, k - 1) && step == Round(true);
    }
  }

  // ----- the drain ends -----

  /** The sender's own steps; a retry of a blocked send changes nothing. */
  predicate OfSender(step: Step) {
    step in {StartSender, Loop, Round(false), Round(true), Collect, Seal, SendOk, SendBlocked(true), SendFailed,
             PutBack}
  }

  /** How many steps the sender may still need, once `close` has begun. */
  function DrainWork(s: State): nat {
    var r := 12 * |s.ready|;
    match s.sender
    case Unstarted => r + 5
    case Top => if s.ready == [] then 1 else r + 3
    case Inner(left) => if s.ready == [] then 2 else if left == 0 then r + 4 else r + 2
    case Filling(_, _, batch, _) => r + (if batch == [] then 1 else 8 + |batch|)
    case Sending(_, batch, _) => r + 7 + |batch|
    case Returning(_, batch) => r + 6 + |batch|
    case Stopped => 0
  }

  /** After `close` has begun, every step of the sender leaves less to do, and only a publication more. */
  lemma DrainStep(s: State, step: Step)
    requires Inv(s) && Enabled(s, step) && s.door.done
    ensures !(step.Produce? && step.act == Publish) ==> DrainWork(Next(s, step)) <= DrainWork(s)
    ensures OfSender(step) ==> DrainWork(Next(s, step)) < DrainWork(s)
    ensures Next(s, step).door.done
  {
    hide Placed, Decided, ProducersOk, Counted;
    if s.ready != [] { QueueFits(s); }
  }

  lemma QueueFits(s: State)
    requires Placed(s)
    ensures s.ready != [] ==> s.capacity > 0
    ensures forall i | 0 <= i < |s.ready| :: s.ready[i] < s.capacity
  {
    forall i | 0 <= i < |s.ready| ensures s.ready[i] < s.capacity {
      CountAt(s.ready, i);
      assert Places(s, s.ready[i]) == if s.ready[i] < s.capacity then 1 else 0;
    }
    if s.ready != [] { assert s.ready[0] < s.capacity; }
  }

  /** Until it has stopped, the sender has a next step, whatever the other threads do. */
  lemma SenderAble(s: State)
    requires Inv(s) && !s.sender.Stopped?
    ensures exists step :: OfSender(step) && step != Round(true) && Enabled(s, step)
  {
    hide Placed, Decided, ProducersOk, Counted;
    match s.sender {
      case Unstarted => assert Enabled(s, StartSender);
      case Top => assert Enabled(s, Loop);
      case Inner(_) => assert Enabled(s, Round(false));
      case Filling(left, quota, batch, packet) =>
        if |batch| < quota && s.ready != [] {
          QueueFits(s);
          assert Enabled(s, Collect);
        } else {
          assert Enabled(s, Seal);
        }
      case Sending(_, _, _) => assert Enabled(s, SendOk);
      case Returning(_, _) => assert Enabled(s, PutBack);
    }
  }

  /** How many of the steps j..k are the sender's. */
  function SenderSteps(steps: seq<Step>, j: nat, k: nat): nat
    requires j <= k <= |steps|
  {
    if k == j then 0 else SenderSteps(steps, j, k - 1) + (if OfSender(steps[k - 1]) then 1 else 0)
  }

  /**
   After `close` has begun and while nothing more is published, the sender takes at most `DrainWork` steps. It is
   then stopped, and unless the deadline had passed, nothing is abandoned.
   */
  lemma {:induction false} DrainEnds(run: seq<State>, steps: seq<Step>, capacity: nat, producers: nat, j: nat, k: nat)
    requires IsRun(run, steps) && run[0] == Start(capacity, producers) && j <= k < |run| && run[j].door.done
    requires forall i | j <= i < k :: !(steps[i].Produce? && steps[i].act == Publish)
    ensures SenderSteps(steps, j, k) + DrainWork(run[k]) <= DrainWork(run[j]) && run[k].door.done
    ensures DrainWork(run[k]) == 0 <==> run[k].sender.Stopped?
    ensures !run[j].sender.Stopped? && run[k].sender.Stopped? && (forall i | j <= i < k :: steps[i] != Round(true)) ==>
              run[k].ready == []
  {
    hide Next, Enabled, Start, Inv, DrainWork;
    assert DrainWork(run[k]) == 0 <==> run[k].sender.Stopped? by { NothingToDo(run[k]); }
    if k > j {
      DrainEnds(run, steps, capacity, producers, j, k - 1);
      RunKeeps(run, steps, capacity, producers, k - 1);
      var s, step := run[k - 1], steps[k - 1];
      assert run[k] == Next(s, step) && Enabled(s, step);
      DrainStep(s, step);
      if run[k].sender.Stopped? {
        StoppedQueue(s, step);
        if !s.sender.Stopped? { StopMeans(s, step); }
      }
    }
  }

  lemma NothingToDo(s: State)
    ensures DrainWork(s) == 0 <==> s.sender.Stopped?
  {
  }

  // ----- first in, first out -----

  /** The numbers published by the first k steps, in order. */
  function Published(run: seq<State>, steps: seq<Step>, k: nat): seq<nat>
    requires |run| == |steps| + 1 && k <= |steps|
  {
    if k == 0 then []
    else
      Published(run, steps, k - 1)
      + (match steps[k - 1]
         case Produce(p, Publish) =>
           if p < |run[k - 1].producers| && run[k - 1].producers[p].Packed? then [run[k - 1].producers[p].n] else []
         case _ => [])
  }

  /** The numbers the sender has been done with in the first k steps, sent or given up, packet by packet. */
  function Handled(run: seq<State>, steps: seq<Step>, k: nat): seq<nat>
    requires |run| == |steps| + 1 && k <= |steps|
  {
    if k == 0 then []
    else Handled(run, steps, k - 1) + (if Empties(run[k - 1], steps[k - 1]) then run[k - 1].sender.Packet() else [])
  }

  lemma SenderOrder(s: State, step: Step)
    requires Inv(s) && Enabled(s, step) && !step.Produce?
    ensures var t := Next(s, step);
            (if Empties(s, step) then s.sender.Packet() else []) + t.sender.Packet() + Contents(t.memory, t.ready)
            == s.sender.Packet() + Contents(s.memory, s.ready)
  {
    hide Placed, Decided, ProducersOk, Counted, Contents, Drops.Plus, Acted;
    var t := Next(s, step);
    if step == Collect {
      FirstWaiting(s.memory, s.ready);
      Associates(s.sender.packet, [s.memory[s.ready[0]]], Contents(t.memory, t.ready));
    } else {
      assert t.memory == s.memory && t.ready == s.ready;
      assert (if Empties(s, step) then s.sender.Packet() else []) + t.sender.Packet() == s.sender.Packet();
    }
  }

  lemma FirstWaiting(memory: seq<nat>, ready: seq<nat>)
    requires ready != [] && ready[0] < |memory|
    ensures Contents(memory, ready) == [memory[ready[0]]] + Contents(memory, ready[1..])
  {
  }

  lemma Associates(a: seq<nat>, b: seq<nat>, c: seq<nat>)
    ensures [] + (a + b) + c == a + (b + c)
  {
  }

  /** The queue is first in, first out: what was published has been handled, is in the packet, or waits, in order. */
  lemma {:induction false} PublishedInOrder(run: seq<State>, steps: seq<Step>, capacity: nat, producers: nat, k: nat)
    requires IsRun(run, steps) && run[0] == Start(capacity, producers) && k < |run|
    ensures Published(run, steps, k) ==
            Handled(run, steps, k) + run[k].sender.Packet() + Contents(run[k].memory, run[k].ready)
  {
    hide Next, Enabled, Start, Inv, Acted, Contents, Empties;
    if k == 0 {
      StartFacts(capacity, producers);
      NoContents(run[0].memory);
    } else {
      PublishedInOrder(run, steps, capacity, producers, k - 1);
      RunKeeps(run, steps, capacity, producers, k - 1);
      var s, step := run[k - 1], steps[k - 1];
      var waiting := Contents(s.memory, s.ready);
      assert run[k] == Next(s, step) && Enabled(s, step);
      if step.Produce? {
        ProducerOrder(s, step.p, step.act);
        assert Handled(run, steps, k - 1) + s.sender.Packet() + waiting + Joined(s, step.p, step.act) ==
               Handled(run, steps, k - 1) + s.sender.Packet() + (waiting + Joined(s, step.p, step.act));
      } else {
        SenderOrder(s, step);
        Regroup(Handled(run, steps, k - 1), s.sender.Packet(), waiting,
                if Empties(s, step) then s.sender.Packet() else [], run[k].sender.Packet(),
                Contents(run[k].memory, run[k].ready));
      }
    }
  }

  lemma NoContents(memory: seq<nat>)
    ensures Contents(memory, []) == []
  {
  }

  /** What an action of a producer adds to the queue. */
  function Joined(s: State, p: nat, act: Act): seq<nat> {
    if act == Publish && p < |s.producers| && s.producers[p].Packed? then [s.producers[p].n] else []
  }

  lemma ProducerOrder(s: State, p: nat, act: Act)
    requires Inv(s) && Enabled(s, Produce(p, act))
    ensures var t := Next(s, Produce(p, act));
            t.sender == s.sender && Contents(t.memory, t.ready) == Contents(s.memory, s.ready) + Joined(s, p, act)
    ensures !Empties(s, Produce(p, act))
  {
    hide Placed, Decided, ProducersOk, Counted, Contents;
    ActedContents(s, p, act);
  }

  lemma Regroup(done: seq<nat>, packet: seq<nat>, waiting: seq<nat>, left: seq<nat>, next: seq<nat>, rest: seq<nat>)
    requires left + next + rest == packet + waiting
    ensures done + packet + waiting == done + left + next + rest
  {
    assert done + packet + waiting == done + (packet + waiting);
    assert done + left + next + rest == done + (left + next + rest);
  }

  // ----- what the counters count -----

  /** The records a step drops for the given reason. */
  function Lost(s: State, step: Step, why: Reason): nat {
    match why
    case Closed => if step.Produce? && step.act == CheckDone && s.door.done then 1 else 0
    case Contention => 0
    case Overflow => if step.Produce? && step.act == Take && s.available == [] then 1 else 0
    case Oversize => if step.Produce? && step.act == TooLong then 1 else 0
    case Ipc => if step == SendFailed then |s.sender.Packet()| else 0
    case DrainTimeout => if step == SendBlocked(true) && s.door.done then |s.sender.Packet()| else 0
  }

  function Of(d: Drops, why: Reason): nat {
    match why
    case Closed => d.closed
    case Contention => d.contention
    case Overflow => d.overflow
    case Oversize => d.oversize
    case Ipc => d.ipc
    case DrainTimeout => d.drainTimeout
  }

  function LostBefore(run: seq<State>, steps: seq<Step>, why: Reason, k: nat): nat
    requires |run| == |steps| + 1 && k <= |steps|
  {
    if k == 0 then 0 else LostBefore(run, steps, why, k - 1) + Lost(run[k - 1], steps[k - 1], why)
  }

  /** Each drop counter is the number of records lost for its reason, plus one for every report that came back. */
  lemma {:induction false} DropsMean(run: seq<State>, steps: seq<Step>, capacity: nat, producers: nat, why: Reason,
                                     k: nat)
    requires IsRun(run, steps) && run[0] == Start(capacity, producers) && k < |run|
    ensures Of(run[k].drops, why) == LostBefore(run, steps, why, k) + run[k].door.reports
  {
    hide Next, Enabled, Start;
    if k == 0 {
      StartFacts(capacity, producers);
    } else {
      DropsMean(run, steps, capacity, producers, why, k - 1);
      assert run[k] == Next(run[k - 1], steps[k - 1]) && Enabled(run[k - 1], steps[k - 1]);
      DropStep(run[k - 1], steps[k - 1], why);
    }
  }

  lemma DropStep(s: State, step: Step, why: Reason)
    requires Enabled(s, step)
    ensures var t := Next(s, step);
            Of(t.drops, why) - t.door.reports == Of(s.drops, why) - s.door.reports + Lost(s, step, why)
  {
    hide Acted;
    if step.Produce? { DropActed(s, step.p, step.act, why); }
  }

  lemma DropActed(s: State, p: nat, act: Act, why: Reason)
    requires p < |s.producers| && Ready(s, s.producers[p], act)
    ensures Of(Acted(s, p, act).drops, why) == Of(s.drops, why) + Lost(s, Produce(p, act), why)
    ensures Acted(s, p, act).door == s.door
  {
  }

  /** The most records in use that a call of `emit` has seen in the first k steps. */
  function MostUsed(run: seq<State>, steps: seq<Step>, k: nat): int
    requires |run| == |steps| + 1 && k <= |steps|
  {
    if k == 0 then 0
    else
      var before := MostUsed(run, steps, k - 1);
      if steps[k - 1].Produce? && steps[k - 1].act == ReadPeak
      then Max(before, run[k - 1].capacity - |run[k - 1].available|) else before
  }

  /** With one producer the peak is the most records it has seen in use; several may overwrite each other's. */
  lemma {:induction false} PeakMeans(run: seq<State>, steps: seq<Step>, capacity: nat, k: nat)
    requires IsRun(run, steps) && run[0] == Start(capacity, 1) && k < |run|
    ensures |run[k].producers| == 1
    ensures var s := run[k];
            MostUsed(run, steps, k) == if s.producers[0].Measured? then s.producers[0].seen else s.peak
  {
    hide Next, Enabled, Start;
    if k == 0 {
      StartFacts(capacity, 1);
    } else {
      PeakMeans(run, steps, capacity, k - 1);
      assert run[k] == Next(run[k - 1], steps[k - 1]) && Enabled(run[k - 1], steps[k - 1]);
      PeakStep(run[k - 1], steps[k - 1]);
    }
  }

  lemma PeakStep(s: State, step: Step)
    requires Enabled(s, step) && |s.producers| == 1
    ensures var t := Next(s, step);
            && |t.producers| == 1
            && var seen := if s.producers[0].Measured? then s.producers[0].seen else s.peak;
               (if t.producers[0].Measured? then t.producers[0].seen else t.peak) ==
                 if step.Produce? && step.act == ReadPeak then Max(seen, s.capacity - |s.available|) else seen
  {
  }

  /** A call of `emit` never waits: whatever the other threads do, it has a next action. */
  lemma ProducerAble(s: State, p: nat)
    requires Inv(s) && p < |s.producers|
    ensures exists act: Act :: Enabled(s, Produce(p, act))
  {
    hide Placed, Decided, ProducersOk, Counted;
    match s.producers[p] {
      case Quiet => assert Enabled(s, Produce(p, Begin));
      case Numbered(_) => assert Enabled(s, Produce(p, CheckDone));
      case Admitted(_) => assert Enabled(s, Produce(p, Take));
      case Holding(_, _) => assert Enabled(s, Produce(p, ReadPeak));
      case Measured(_, _, _) => assert Enabled(s, Produce(p, WritePeak));
      case Labelled(_, rec) =>
        HeldAlone(s, p);
        assert Enabled(s, Produce(p, Pack));
      case Packed(_, _) => assert Enabled(s, Produce(p, Publish));
      case Dropping(_) => assert Enabled(s, Produce(p, GiveBack));
    }
  }

  // ----- the socket -----

  /** A `close` that ends after the sender has stopped closes the socket. */
  ghost predicate Shuts(s: State, step: Step) { step == EndClose && s.sender.Stopped? }

  /** The socket is closed exactly when some `close` has ended after the sender stopped. */
  lemma {:induction false} ShutExactly(run: seq<State>, steps: seq<Step>, k: nat)
    requires IsRun(run, steps) && k < |run| && run[0].door.open
    ensures !run[k].door.open <==> exists j :: 0 <= j < k && Shuts(run[j], steps[j])
  {
    if k > 0 {
      ShutExactly(run, steps, k - 1);
      assert Enabled(run[k - 1], steps[k - 1]) && run[k] == Next(run[k - 1], steps[k - 1]);
      DoorStep(run[k - 1], steps[k - 1]);
      if !run[k - 1].door.open {
        var j :| 0 <= j < k - 1 && Shuts(run[j], steps[j]);
        assert 0 <= j < k && Shuts(run[j], steps[j]);
      }
    }
  }

  lemma DoorStep(s: State, step: Step)
    requires Enabled(s, step)
    ensures Next(s, step).door.open <==> s.door.open && !Shuts(s, step)
  {
  }
}
