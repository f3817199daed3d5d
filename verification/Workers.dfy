/** The worker's `execute`: which events one job can produce, in which order. */
module Workers {
  import opened Common
  import opened Channels
  import opened AccountingLedger
  import opened EngineModel

  /**
   What a worker has emitted for a job so far: nothing; a refusal; a transport failure; or a send
   before the slot's expiry, followed at most by one completion that is not earlier.
   */
  predicate TracePrefix(row: Row, h: seq<Event>) {
    && |h| <= 2
    && (forall k | 0 <= k < |h| :: h[k].id == row.id)
    && (|h| >= 1 ==>
          || h[0] == NotSentEvent(row.id, Expired)
          || h[0] == TransportFailure(row.id)
          || (h[0].SentEvent? && h[0].at < row.expires))
    && (|h| == 2 ==>
          && h[0].SentEvent? && h[1].CompletedEvent? && h[0].at <= h[1].at
          && h[1].outcome in {Succeeded, Erred, TimedOut, Lost})
  }

  /** A trace to which nothing can be added. */
  predicate Finished(row: Row, h: seq<Event>) {
    TracePrefix(row, h) && |h| >= 1 && (h[0].SentEvent? ==> |h| == 2)
  }

  /** How a call of the transport ends. */
  datatype Ending =
    | Returned(flag: int, proof: Option<Proof>, identity: Option<Identity>)
    | Raised(timeout: bool)

  /**
   The transport's behaviour: the clock readings at its calls of `boundary`, whether it swallows an
   exception from each call, and how it ends.
   */
  datatype Behaviour = Behaviour(calls: seq<(int, bool)>, ending: Ending)

  ghost predicate Monotone(clock: seq<int>) {
    forall i, j | 0 <= i <= j < |clock| :: clock[i] <= clock[j]
  }

  /** Every reading the job takes, in order: at the start, at the boundary calls, at the end. */
  function Readings(start: int, b: Behaviour, end: int): seq<int> {
    [start] + seq(|b.calls|, i requires 0 <= i < |b.calls| => b.calls[i].0) + [end]
  }

  /** The transport called the boundary while the slot was good. */
  predicate InTime(row: Row, b: Behaviour) { b.calls != [] && b.calls[0].0 < row.expires }

  /** Some call of the boundary, from the given one on, let its exception escape. */
  predicate Escapes(b: Behaviour, from: nat) { exists k :: from <= k < |b.calls| && !b.calls[k].1 }

  /** How a job that was sent ends: a second call of the boundary loses it, else the transport's ending decides. */
  function EndOf(row: Row, b: Behaviour, end: int): Event {
    if Escapes(b, 1) then CompletedEvent(row.id, end, Lost, None, None)
    else match b.ending
         case Returned(flag, proof, identity) =>
           CompletedEvent(row.id, end, if flag == 0 then Succeeded else Erred, proof, identity)
         case Raised(timeout) => CompletedEvent(row.id, end, if timeout then TimedOut else Lost, None, None)
  }

  /**
   `execute` with its captured `sent` flag. Whatever the transport does, however often it calls the
   boundary, the job ends with a finished trace, and with which one depends on the first call alone:
   sent exactly if that call is in time; not sent if the slot had expired or a time-out escapes; a failure else.
   */
  method Execute(row: Row, start: int, b: Behaviour, end: int) returns (trace: seq<Event>)
    requires Monotone(Readings(start, b, end))
    ensures Finished(row, trace)
    ensures start >= row.expires ==> trace == [NotSentEvent(row.id, Expired)]
    ensures start < row.expires && InTime(row, b) ==>
              trace == [SentEvent(row.id, b.calls[0].0), EndOf(row, b, end)]
    ensures start < row.expires && !InTime(row, b) ==>
              trace == [if Escapes(b, 0) || b.ending == Raised(true) then NotSentEvent(row.id, Expired)
                        else TransportFailure(row.id)]
  {
    trace := [];
    if start >= row.expires {
      return [NotSentEvent(row.id, Expired)];
    }
    var sent := false;
    var raised: Option<bool> := None;
    var k := 0;
    while k < |b.calls| && raised.None?
      invariant 0 <= k <= |b.calls|
      invariant sent <==> k > 0 && InTime(row, b)
      invariant trace == if sent then [SentEvent(row.id, b.calls[0].0)] else []
      invariant raised.None? ==> forall j | (if sent then 1 else 0) <= j < k :: b.calls[j].1
      invariant raised.Some? ==> k > (if sent then 1 else 0) && !b.calls[k-1].1 && raised.value == !sent
    {
      var (now, swallows) := b.calls[k];
      if k > 0 { Later(start, b, end, k); }
      if sent {
        if !swallows { raised := Some(false); }
      } else if now >= row.expires {
        if !swallows { raised := Some(true); }
      } else {
        sent := true;
        trace := [SentEvent(row.id, now)];
      }
      k := k + 1;
    }
    if b.calls != [] { Later(start, b, end, 0); }
    if raised.None? {
      match b.ending {
        case Raised(timeout) => raised := Some(timeout);
        case Returned(flag, proof, identity) =>
          if sent {
            return trace + [CompletedEvent(row.id, end, if flag == 0 then Succeeded else Erred, proof, identity)];
          }
          raised := Some(false);
      }
    }
    if !sent && raised.value {
      return [NotSentEvent(row.id, Expired)];
    }
    if sent {
      return trace + [CompletedEvent(row.id, end, if raised.value then TimedOut else Lost, None, None)];
    }
    return [TransportFailure(row.id)];
  }

  /** The clock does not go back between the boundary calls, nor before the end. */
  lemma Later(start: int, b: Behaviour, end: int, k: nat)
    requires Monotone(Readings(start, b, end)) && k < |b.calls|
    ensures b.calls[0].0 <= b.calls[k].0 <= end
  {
    var r := Readings(start, b, end);
    assert r[1] == b.calls[0].0 && r[k+1] == b.calls[k].0 && r[|r|-1] == end;
  }

  /** A finished trace is never the beginning of a longer one. */
  lemma FinishedIsLast(row: Row, h: seq<Event>, ev: Event)
    requires Finished(row, h)
    ensures !TracePrefix(row, h + [ev])
  {
  }
}
