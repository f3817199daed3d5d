/**
 * The writer-side verifier: the stage and attempt it expects of each
 * pool task, and the proofs it keeps for hand-off.
 */
module WriterProofs {
  import opened Common
  import opened ReservationPool
  import opened EngineModel

  const PROOF_BYTES: nat := 65536
  const TOTAL_BYTES: nat := 1024 * 1024
  const PROOF_SLOTS: nat := 252

  /** A stored proof, with the length of its canonical encoding. */
  datatype Handoff = Handoff(proof: Proof, identity: Option<Identity>, size: nat)

  /** What the server did with a write, as far as the verifier can see. */
  datatype Effect = Effect(checksPass: bool, identity: Identity, size: nat)

  datatype VerifierState = VerifierState(stages: map<string, nat>, attempts: map<string, Attempt>,
                                         proofs: map<string, Handoff>, bytes: int) {

    function Store(path: string, value: Handoff): Result<VerifierState, string> {
      if value.size > PROOF_BYTES || bytes + value.size > TOTAL_BYTES then Failure("proof byte capacity exceeded")
      else if path in proofs || |proofs| >= PROOF_SLOTS then Failure("unconsumed proof or proof capacity exceeded")
      else Success(this.(proofs := proofs[path := value], bytes := bytes + value.size))
    }

    /**
     `_verify`: the command must be the one the path's stage expects, a child command must name the attempt on
     record, and every check must pass.
     */
    function Verify(path: string, command: Command, attempt: Attempt, effect: Effect): Result<VerifierState, string> {
      if path !in stages || path !in attempts || command != CommandAt(stages[path])
         || (stages[path] < 10 && attempt != attempts[path]) || !effect.checksPass
         || (stages[path] == 11 && effect.identity.attempt.Empty())
      then Failure("stage or attempt mismatch")
      else
        var stage := stages[path];
        var value := Handoff(Proof(true, Some(path), Some(stage), Some(attempts[path])),
                             if stage == 11 then Some(effect.identity) else None, effect.size);
        match Store(path, value)
        case Failure(why) => Failure(why)
        case Success(v) =>
          Success(v.(attempts := if stage == 11 then attempts[path := effect.identity.attempt] else attempts,
                     stages := stages[path := (stage + 1) % STAGES]))
    }

    /** A control write leaves a proof under its target path. */
    function StoreControl(target: string, effect: Effect): Result<VerifierState, string> {
      if !effect.checksPass then Failure("structural check")
      else Store(target, Handoff(Proof(true, None, None, None), None, effect.size))
    }

    /** `handoff`: a proof leaves once, to a job whose reservation it matches. */
    function HandOff(path: string, token: Option<Reservation>): Result<(VerifierState, Handoff), string> {
      if path !in proofs then Failure("key")
      else
        var value := proofs[path];
        if token.Some?
           && (value.proof.stage != Some(token.value.stage) || value.proof.attempt != Some(token.value.attempt))
        then Failure("handoff reservation mismatch")
        else Success((this.(proofs := proofs - {path}, bytes := bytes - value.size), value))
    }

    /** The byte counter is the sum of the stored sizes, within both capacities. */
    ghost predicate Accounted() {
      && bytes == Total(proofs) && bytes <= TOTAL_BYTES && |proofs| <= PROOF_SLOTS
    }
  }

  /** The sizes of all stored proofs, added up. */
  ghost function Total(m: map<string, Handoff>): nat
    decreases m.Keys
  {
    if m.Keys == {} then 0
    else
      var k :| k in m.Keys;
      m[k].size + Total(m - {k})
  }

  lemma {:induction false} TotalWithout(m: map<string, Handoff>, k: string)
    requires k in m
    ensures Total(m) == m[k].size + Total(m - {k})
    decreases m.Keys
  {
    var j :| j in m.Keys && Total(m) == m[j].size + Total(m - {j});
    if j != k {
      TotalWithout(m - {j}, k);
      TotalWithout(m - {k}, j);
      assert m - {j} - {k} == m - {k} - {j};
    }
  }

  lemma StoreAccounted(v: VerifierState, path: string, value: Handoff)
    requires v.Accounted() && v.Store(path, value).Success?
    ensures v.Store(path, value).value.Accounted()
  {
    var w := v.Store(path, value).value;
    TotalWithout(w.proofs, path);
    assert w.proofs - {path} == v.proofs;
    assert w.proofs.Keys == v.proofs.Keys + {path};
  }

  /** Storing and handing off keep the byte account exact. */
  lemma HandOffAccounted(v: VerifierState, path: string, token: Option<Reservation>)
    requires v.Accounted() && v.HandOff(path, token).Success?
    ensures v.HandOff(path, token).value.0.Accounted()
  {
    var w := v.HandOff(path, token).value.0;
    TotalWithout(v.proofs, path);
    assert w.proofs.Keys == v.proofs.Keys - {path};
  }

  lemma VerifyAccounted(v: VerifierState, path: string, command: Command, attempt: Attempt, effect: Effect)
    requires v.Accounted() && v.Verify(path, command, attempt, effect).Success?
    ensures v.Verify(path, command, attempt, effect).value.Accounted()
  {
    var stage := v.stages[path];
    StoreAccounted(v, path, Handoff(Proof(true, Some(path), Some(stage), Some(v.attempts[path])),
                                    if stage == 11 then Some(effect.identity) else None, effect.size));
  }

  /** Storing a proof and handing it off to its own reservation returns it and restores the store. */
  lemma StoreThenHandOff(v: VerifierState, path: string, value: Handoff, token: Option<Reservation>)
    requires v.Store(path, value).Success?
    requires token.Some? ==>
               value.proof.stage == Some(token.value.stage) && value.proof.attempt == Some(token.value.attempt)
    ensures v.Store(path, value).value.HandOff(path, token) == Success((v, value))
  {
    assert v.proofs[path := value] - {path} == v.proofs;
  }

  // ----- the verifier over a whole history -----

  datatype Call =
    | Write(path: string, command: Command, attempt: Attempt, effect: Effect)
    | Control(path: string, effect: Effect)
    | Fetch(path: string, token: Option<Reservation>)

  predicate Passes(v: VerifierState, c: Call) {
    match c
    case Write(path, command, attempt, effect) => v.Verify(path, command, attempt, effect).Success?
    case Control(path, effect) => v.StoreControl(path, effect).Success?
    case Fetch(path, token) => v.HandOff(path, token).Success?
  }

  /** A call that fails changes nothing. */
  function Called(v: VerifierState, c: Call): VerifierState {
    if !Passes(v, c) then v
    else
      match c
      case Write(path, command, attempt, effect) => v.Verify(path, command, attempt, effect).value
      case Control(path, effect) => v.StoreControl(path, effect).value
      case Fetch(path, token) => v.HandOff(path, token).value.0
  }

  function Replay(v: VerifierState, calls: seq<Call>): VerifierState {
    if calls == [] then v else Called(Replay(v, calls[..|calls|-1]), calls[|calls|-1])
  }

  /** How many writes to p have passed. */
  function Writes(v: VerifierState, calls: seq<Call>, p: string): nat {
    if calls == [] then 0
    else
      var before, c := calls[..|calls|-1], calls[|calls|-1];
      Writes(v, before, p) + if c.Write? && c.path == p && Passes(Replay(v, before), c) then 1 else 0
  }

  /** The attempt that the latest RUN of p has brought. */
  function LatestRun(v: VerifierState, calls: seq<Call>, p: string): Attempt
    requires p in v.attempts
  {
    if calls == [] then v.attempts[p]
    else
      var before, c := calls[..|calls|-1], calls[|calls|-1];
      if c.Write? && c.path == p && c.command == Run && Passes(Replay(v, before), c) then c.effect.identity.attempt
      else LatestRun(v, before, p)
  }

  /** The proof under p that nobody has fetched yet. */
  function Unfetched(v: VerifierState, calls: seq<Call>, p: string): Option<Handoff>
    requires p in v.attempts && p in v.stages
  {
    if calls == [] then if p in v.proofs then Some(v.proofs[p]) else None
    else
      var before, c := calls[..|calls|-1], calls[|calls|-1];
      if c.path != p || !Passes(Replay(v, before), c) then Unfetched(v, before, p)
      else
        match c
        case Write(_, command, _, effect) =>
          var stage := (v.stages[p] + Writes(v, before, p)) % STAGES;
          Some(Handoff(Proof(true, Some(p), Some(stage), Some(LatestRun(v, before, p))),
                       if command == Run then Some(effect.identity) else None, effect.size))
        case Control(_, effect) => Some(Handoff(Proof(true, None, None, None), None, effect.size))
        case Fetch(_, _) => None
  }

  /** The verifier's record of a task is what the writes that have passed make it. */
  lemma {:induction false} HistoryMeans(v: VerifierState, calls: seq<Call>, p: string)
    requires p in v.stages && p in v.attempts && v.stages[p] < STAGES
    ensures var w := Replay(v, calls);
            && p in w.stages && p in w.attempts
            && w.stages[p] == (v.stages[p] + Writes(v, calls, p)) % STAGES
            && w.attempts[p] == LatestRun(v, calls, p)
            && Unfetched(v, calls, p) == if p in w.proofs then Some(w.proofs[p]) else None
    decreases |calls|
  {
    hide Passes, Called;
    if calls != [] {
      var before, c := calls[..|calls|-1], calls[|calls|-1];
      HistoryMeans(v, before, p);
      CallMeans(Replay(v, before), c, p);
    }
  }

  /** What one call does to the record of p. */
  lemma CallMeans(w: VerifierState, c: Call, p: string)
    requires p in w.stages && p in w.attempts && w.stages[p] < STAGES
    ensures var x := Called(w, c);
            && p in x.stages && p in x.attempts
            && (c.path != p || !Passes(w, c) || !c.Write? ==>
                  x.stages[p] == w.stages[p] && x.attempts[p] == w.attempts[p])
            && (c.path != p || !Passes(w, c) ==>
                  (p in x.proofs <==> p in w.proofs) && (p in w.proofs ==> x.proofs[p] == w.proofs[p]))
            && (c.path == p && Passes(w, c) ==>
                  match c
                  case Write(_, command, _, effect) =>
                    && x.stages[p] == (w.stages[p] + 1) % STAGES
                    && x.attempts[p] == (if command == Run then effect.identity.attempt else w.attempts[p])
                    && p in x.proofs
                    && x.proofs[p] == Handoff(Proof(true, Some(p), Some(w.stages[p]), Some(w.attempts[p])),
                                              if command == Run then Some(effect.identity) else None, effect.size)
                  case Control(_, effect) =>
                    p in x.proofs && x.proofs[p] == Handoff(Proof(true, None, None, None), None, effect.size)
                  case Fetch(_, _) => p !in x.proofs)
  {
  }

  /** Room for one more proof, under a path that has none. */
  predicate Room(v: VerifierState, path: string, size: nat) {
    size <= PROOF_BYTES && v.bytes + size <= TOTAL_BYTES && path !in v.proofs && |v.proofs| < PROOF_SLOTS
  }

  lemma WritePasses(w: VerifierState, p: string, command: Command, attempt: Attempt, effect: Effect)
    requires p in w.stages && p in w.attempts && w.stages[p] < STAGES
    ensures Passes(w, Write(p, command, attempt, effect)) <==>
            && command == CommandAt(w.stages[p])
            && (command != Requeue && command != Run ==> attempt == w.attempts[p])
            && effect.checksPass && (command == Run ==> !effect.identity.attempt.Empty())
            && Room(w, p, effect.size)
  {
  }

  /**
   After any history, a write passes exactly if its command is the one due by the number of writes that have
   passed, it names the attempt of the latest RUN unless it starts or takes back an attempt, its checks pass, a
   RUN brings an attempt, and there is room for its proof.
   */
  lemma WriteInTurn(v: VerifierState, calls: seq<Call>, p: string, command: Command, attempt: Attempt, effect: Effect)
    requires p in v.stages && p in v.attempts && v.stages[p] < STAGES
    ensures Passes(Replay(v, calls), Write(p, command, attempt, effect)) <==>
            && command == CommandAt((v.stages[p] + Writes(v, calls, p)) % STAGES)
            && (command != Requeue && command != Run ==> attempt == LatestRun(v, calls, p))
            && effect.checksPass && (command == Run ==> !effect.identity.attempt.Empty())
            && Room(Replay(v, calls), p, effect.size)
  {
    hide Replay, Writes, LatestRun, Unfetched, Passes, CommandAt, Room;
    HistoryMeans(v, calls, p);
    WritePasses(Replay(v, calls), p, command, attempt, effect);
  }

  /** After any history, a fetch passes exactly if an unfetched proof is there and is of the reserved step. */
  lemma FetchInTurn(v: VerifierState, calls: seq<Call>, p: string, token: Option<Reservation>)
    requires p in v.stages && p in v.attempts && v.stages[p] < STAGES
    ensures var value, r := Unfetched(v, calls, p), Replay(v, calls).HandOff(p, token);
            && (r.Success? <==>
                  && value.Some?
                  && (token.Some? ==>
                        && value.value.proof.stage == Some(token.value.stage)
                        && value.value.proof.attempt == Some(token.value.attempt)))
            && (r.Success? ==> r.value.1 == value.value)
  {
    hide Replay, Writes, LatestRun, Unfetched;
    HistoryMeans(v, calls, p);
  }

  class WriteVerifier {
    var stages: map<string, nat>
    var attempts: map<string, Attempt>
    var proofs: map<string, Handoff>
    var bytes: int

    function State(): VerifierState reads this { VerifierState(stages, attempts, proofs, bytes) }

    /** Task i of the pool starts at stage i / 25, with the attempt the server reports. */
    constructor (paths: seq<string>, given: seq<Attempt>)
      requires |given| == |paths| && Distinct(paths)
      ensures State().Accounted() && proofs == map[]
      ensures forall i | 0 <= i < |paths| ::
                paths[i] in stages && stages[paths[i]] == i / 25 && paths[i] in attempts
                && attempts[paths[i]] == given[i]
    {
      var s: map<string, nat> := map[];
      var a: map<string, Attempt> := map[];
      for i := 0 to |paths|
        invariant forall j | 0 <= j < i ::
                    paths[j] in s && s[paths[j]] == j / 25 && paths[j] in a && a[paths[j]] == given[j]
      {
        s, a := s[paths[i] := i / 25], a[paths[i] := given[i]];
      }
      stages, attempts, proofs, bytes := s, a, map[], 0;
    }

    method StoreProof(path: string, value: Handoff) returns (r: Result<(), string>)
      modifies this
      ensures match old(State()).Store(path, value)
              case Success(v) => r == Success(()) && State() == v
              case Failure(why) => r == Failure(why) && State() == old(State())
    {
      if value.size > PROOF_BYTES || bytes + value.size > TOTAL_BYTES {
        return Failure("proof byte capacity exceeded");
      }
      if path in proofs || |proofs| >= PROOF_SLOTS {
        return Failure("unconsumed proof or proof capacity exceeded");
      }
      proofs := proofs[path := value];
      bytes := bytes + value.size;
      return Success(());
    }

    method Verify(path: string, command: Command, attempt: Attempt, effect: Effect) returns (r: Result<(), string>)
      modifies this
      ensures match old(State()).Verify(path, command, attempt, effect)
              case Success(v) => r == Success(()) && State() == v
              case Failure(why) => r == Failure(why) && State() == old(State())
    {
      if path !in stages || path !in attempts || command != CommandAt(stages[path])
         || (stages[path] < 10 && attempt != attempts[path]) || !effect.checksPass
         || (stages[path] == 11 && effect.identity.attempt.Empty()) {
        return Failure("stage or attempt mismatch");
      }
      var stage := stages[path];
      var identity := if stage == 11 then Some(effect.identity) else None;
      r := StoreProof(path, Handoff(Proof(true, Some(path), Some(stage), Some(attempts[path])), identity, effect.size));
      if r.Success? {
        if stage == 11 {
          attempts := attempts[path := effect.identity.attempt];
        }
        stages := stages[path := (stage + 1) % STAGES];
      }
    }

    method HandOff(path: string, token: Option<Reservation>) returns (r: Result<Handoff, string>)
      modifies this
      ensures match old(State()).HandOff(path, token)
              case Success((v, value)) => r == Success(value) && State() == v
              case Failure(why) => r == Failure(why) && State() == old(State())
    {
      if path !in proofs {
        return Failure("key");
      }
      var value := proofs[path];
      if token.Some?
         && (value.proof.stage != Some(token.value.stage) || value.proof.attempt != Some(token.value.attempt))
      {
        return Failure("handoff reservation mismatch");
      }
      proofs := proofs - {path};
      bytes := bytes - value.size;
      return Success(value);
    }

    /** `close` reports what was never consumed and forgets it. */
    method Close() returns (unconsumed: set<string>, retained: int)
      modifies this
      ensures unconsumed == old(proofs).Keys && retained == old(bytes)
      ensures State() == old(State()).(proofs := map[], bytes := 0) && State().Accounted()
    {
      unconsumed, retained := proofs.Keys, bytes;
      proofs, bytes := map[], 0;
    }
  }
}
