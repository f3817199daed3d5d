/** Optimistic capture: one writer that brackets each change with revisions, one reader that copies in chunks. */
module OptimisticCapture {
  import opened Common

  const SHARD_NODES: nat := 256
  const ATTEMPTS: nat := 3

  /** The writer's place in its loop; with nothing to write to it dies after the first revision. */
  datatype Writer = Resting | Odd | Wrote | Dead

  /** A copy under way: the revision read first, and the chunks so far. */
  datatype Reader = Starting | Copying(before: nat, chunks: seq<seq<int>>, position: nat) | Over

  datatype Capture = Capture(before: nat, chunks: seq<seq<int>>)

  datatype State = State(
    values: seq<int>, revision: nat, writer: Writer, index: nat,
    reader: Reader, trials: nat, attempt: nat, captures: seq<Capture>, attempts: seq<nat>)

  datatype Step = RaiseFirst | WriteValue | RaiseSecond | ReadRevision | CopyChunk | Check

  function Start(size: nat, trials: nat): State {
    State(seq(size, _ => 0), 0, Resting, 0, if trials == 0 then Over else Starting, trials, 1, [], [])
  }

  predicate Enabled(s: State, step: Step) {
    match step
    case RaiseFirst => s.writer == Resting
    case WriteValue => s.writer == Odd
    case RaiseSecond => s.writer == Wrote
    case ReadRevision => s.reader.Starting?
    case CopyChunk => s.reader.Copying? && s.reader.position < |s.values|
    case Check => s.reader.Copying? && s.reader.position >= |s.values| && s.trials > 0
  }

  function Next(s: State, step: Step): State
    requires Enabled(s, step)
  {
    match step
    case RaiseFirst => s.(revision := s.revision + 1, writer := Odd)
    case WriteValue =>
      if |s.values| == 0 then s.(writer := Dead)
      else
        var i := s.index % |s.values|;
        s.(values := s.values[i := s.values[i] + 1], writer := Wrote)
    case RaiseSecond => s.(revision := s.revision + 1, index := s.index + 1, writer := Resting)
    case ReadRevision => s.(reader := Copying(s.revision, [], 0))
    case CopyChunk =>
      var end := Min(s.reader.position + SHARD_NODES, |s.values|);
      s.(reader := Copying(s.reader.before, s.reader.chunks + [s.values[s.reader.position..end]],
                           s.reader.position + SHARD_NODES))
    case Check =>
      var taken := s.reader.before % 2 == 0 && s.reader.before == s.revision;
      var t := if taken then s.(captures := s.captures + [Capture(s.reader.before, s.reader.chunks)]) else s;
      if taken || s.attempt == ATTEMPTS
      then t.(trials := s.trials - 1, attempt := 1, attempts := s.attempts + [s.attempt],
              reader := if s.trials == 1 then Over else Starting)
      else t.(attempt := s.attempt + 1, reader := Starting)
  }

  // ----- what a revision means -----

  /** The array after k rounds of the writer. */
  function After(size: nat, k: nat): (r: seq<int>)
    ensures |r| == size
  {
    if k == 0 || size == 0 then seq(size, _ => 0)
    else
      var before := After(size, k - 1);
      var i := (k - 1) % size;
      before[i := before[i] + 1]
  }

  /** The chunks of an array, in order and covering it. */
  function Chunked(values: seq<int>, position: nat): seq<seq<int>>
    decreases |values| - position
  {
    if position >= |values| then []
    else [values[position..Min(position + SHARD_NODES, |values|)]] + Chunked(values, position + SHARD_NODES)
  }

  function Flat(chunks: seq<seq<int>>): seq<int> { if chunks == [] then [] else chunks[0] + Flat(chunks[1..]) }

  lemma {:induction false} ChunksCover(values: seq<int>, position: nat)
    requires position <= |values|
    ensures Flat(Chunked(values, position)) == values[position..]
    decreases |values| - position
  {
    if position < |values| {
      var end := Min(position + SHARD_NODES, |values|);
      var rest := Chunked(values, position + SHARD_NODES);
      assert ([values[position..end]] + rest)[1..] == rest;
      if position + SHARD_NODES <= |values| { ChunksCover(values, position + SHARD_NODES); }
      assert values[position..] == values[position..end] + values[end..];
    }
  }

  // ----- the invariant -----

  /** The writer's own view: even revisions are exactly the finished rounds. */
  ghost predicate WriterOk(s: State) {
    && (s.values == [] ==> s.index == 0 && s.writer != Wrote)
    && match s.writer
    case Resting => s.revision == 2 * s.index && s.values == After(|s.values|, s.index)
    case Odd => s.revision == 2 * s.index + 1 && s.values == After(|s.values|, s.index)
    case Wrote => s.revision == 2 * s.index + 1 && s.values == After(|s.values|, s.index + 1)
    case Dead => s.revision == 1 && s.index == 0 && s.values == []
  }

  /** While the first revision is even and has not moved, the copy is a piece of the array of that revision. */
  ghost predicate ReaderOk(s: State) {
    s.reader.Copying? ==>
      && s.reader.before <= s.revision
      && (s.reader.before % 2 == 0 && s.reader.before == s.revision ==>
            var whole := After(|s.values|, s.reader.before / 2);
            s.reader.chunks + Chunked(whole, s.reader.position) == Chunked(whole, 0))
  }

  ghost predicate Exact(size: nat, c: Capture) {
    c.before % 2 == 0 && c.chunks == Chunked(After(size, c.before / 2), 0)
  }

  ghost predicate Inv(s: State) {
    && WriterOk(s) && ReaderOk(s) && 1 <= s.attempt <= ATTEMPTS
    && (forall c | c in s.captures :: Exact(|s.values|, c) && c.before <= s.revision)
    && (forall a | a in s.attempts :: 1 <= a <= ATTEMPTS)
    && |s.captures| <= |s.attempts|
  }

  lemma NextKeeps(s: State, step: Step)
    requires Inv(s) && Enabled(s, step)
    ensures Inv(Next(s, step))
  {
    hide Exact, Chunked;
    match step
    case CopyChunk =>
      if s.reader.before % 2 == 0 && s.reader.before == s.revision { CopyKeeps(s); }
    case Check =>
      if s.reader.before % 2 == 0 && s.reader.before == s.revision { CheckedExact(s); }
    case ReadRevision => assert ReaderOk(Next(s, step));
    case _ =>
  }

  /** A copy that reaches the end under an unchanged even revision is exact. */
  lemma CheckedExact(s: State)
    requires ReaderOk(s) && Enabled(s, Check) && s.reader.before % 2 == 0 && s.reader.before == s.revision
    ensures Exact(|s.values|, Capture(s.reader.before, s.reader.chunks))
  {
    var whole := After(|s.values|, s.reader.before / 2);
    assert Chunked(whole, s.reader.position) == [];
  }

  /** A chunk copied under an unchanged even revision is the next chunk of that revision's array. */
  lemma CopyKeeps(s: State)
    requires Inv(s) && Enabled(s, CopyChunk) && s.reader.before % 2 == 0 && s.reader.before == s.revision
    ensures ReaderOk(Next(s, CopyChunk))
  {
  }

  ghost predicate IsRun(run: seq<State>, steps: seq<Step>) {
    && |run| == |steps| + 1
    && forall k | 0 <= k < |steps| :: Enabled(run[k], steps[k]) && run[k + 1] == Next(run[k], steps[k])
  }

  lemma {:induction false} RunKeeps(run: seq<State>, steps: seq<Step>, size: nat, trials: nat, k: nat)
    requires IsRun(run, steps) && run[0] == Start(size, trials) && k < |run|
    ensures Inv(run[k]) && |run[k].values| == size && |run[k].attempts| + run[k].trials == trials
  {
    hide Inv;
    if k == 0 {
      StartInv(size, trials);
    } else {
      RunKeeps(run, steps, size, trials, k - 1);
      assert run[k] == Next(run[k - 1], steps[k - 1]);
      NextKeeps(run[k - 1], steps[k - 1]);
    }
  }

  lemma StartInv(size: nat, trials: nat)
    ensures Inv(Start(size, trials))
  {
  }

  /** Step j of the run read the revision `before`. */
  ghost predicate ReadAt(run: seq<State>, steps: seq<Step>, j: nat, before: nat) {
    j < |steps| && j < |run| && steps[j] == ReadRevision && run[j].revision == before
  }

  /** Every copy, under way or accepted, began with a reading of its revision earlier in the run. */
  lemma {:induction false} WasRead(run: seq<State>, steps: seq<Step>, size: nat, trials: nat, k: nat, before: nat)
    requires IsRun(run, steps) && run[0] == Start(size, trials) && k < |run|
    requires || (run[k].reader.Copying? && run[k].reader.before == before)
             || exists c :: c in run[k].captures && c.before == before
    ensures exists j :: 0 <= j < k && ReadAt(run, steps, j, before)
  {
    hide Inv, After, Chunked;
    if k > 0 {
      var s, t := run[k - 1], run[k];
      assert t == Next(s, steps[k - 1]);
      if (s.reader.Copying? && s.reader.before == before) || exists c :: c in s.captures && c.before == before {
        WasRead(run, steps, size, trials, k - 1, before);
      } else {
        assert ReadAt(run, steps, k - 1, before);
      }
    }
  }

  /**
   In every interleaving, an accepted copy is exactly the array as it stood when the copy's first revision was
   read, chunk by chunk and covering every index: at revision 2k the array after k rounds of the writer.
   */
  lemma CapturesAreExact(run: seq<State>, steps: seq<Step>, size: nat, trials: nat, k: nat, c: Capture)
    requires IsRun(run, steps) && run[0] == Start(size, trials) && k < |run| && c in run[k].captures
    ensures c.before % 2 == 0 && Flat(c.chunks) == After(size, c.before / 2) && |Flat(c.chunks)| == size
    ensures exists j :: 0 <= j < k && ReadAt(run, steps, j, c.before) && run[j].values == Flat(c.chunks)
  {
    RunKeeps(run, steps, size, trials, k);
    assert Exact(size, c);
    ChunksCover(After(size, c.before / 2), 0);
    WasRead(run, steps, size, trials, k, c.before);
    var j :| 0 <= j < k && ReadAt(run, steps, j, c.before);
    RevisionMeans(run, steps, size, trials, j);
  }

  lemma RevisionMeans(run: seq<State>, steps: seq<Step>, size: nat, trials: nat, k: nat)
    requires IsRun(run, steps) && run[0] == Start(size, trials) && k < |run| && run[k].revision % 2 == 0
    ensures run[k].values == After(size, run[k].revision / 2)
  {
    RunKeeps(run, steps, size, trials, k);
  }

  /** Each trial makes one to three attempts, and no trial counts more than one success. */
  lemma TrialsBounded(run: seq<State>, steps: seq<Step>, size: nat, trials: nat, k: nat)
    requires IsRun(run, steps) && run[0] == Start(size, trials) && k < |run|
    ensures |run[k].captures| <= |run[k].attempts| <= trials
    ensures forall a | a in run[k].attempts :: 1 <= a <= ATTEMPTS
  {
    RunKeeps(run, steps, size, trials, k);
  }

  // ----- which attempts succeed -----

  /** The last step before k that read a revision. */
  function LastRead(steps: seq<Step>, k: nat): (j: Option<nat>)
    requires k <= |steps|
    ensures j.Some? ==> j.value < k && steps[j.value] == ReadRevision
    ensures j.Some? ==> forall i | j.value < i < k :: steps[i] != ReadRevision
  {
    if k == 0 then None else if steps[k - 1] == ReadRevision then Some(k - 1) else LastRead(steps, k - 1)
  }

  /** The checks of the trial under way: those since a trial was last recorded. */
  function Tries(run: seq<State>, steps: seq<Step>, k: nat): nat
    requires k <= |steps| < |run|
  {
    if k == 0 || |run[k].attempts| != |run[k - 1].attempts| then 0
    else Tries(run, steps, k - 1) + (if steps[k - 1] == Check then 1 else 0)
  }

  /** A copy under way compares with the revision of the last reading, and `attempt` counts the trial's checks. */
  lemma {:induction false} AttemptMeans(run: seq<State>, steps: seq<Step>, size: nat, trials: nat, k: nat)
    requires IsRun(run, steps) && run[0] == Start(size, trials) && k < |run|
    ensures run[k].reader.Copying? ==>
              LastRead(steps, k).Some? && run[LastRead(steps, k).value].revision == run[k].reader.before
    ensures run[k].attempt == Tries(run, steps, k) + 1
  {
    if k > 0 {
      AttemptMeans(run, steps, size, trials, k - 1);
      assert run[k] == Next(run[k - 1], steps[k - 1]);
    }
  }

  /**
   A check accepts the copy exactly if the revision this attempt read first is even and still the current one.
   It ends the trial exactly if it accepts or is the trial's third check, and records how many checks it took.
   */
  lemma CheckMeans(run: seq<State>, steps: seq<Step>, size: nat, trials: nat, k: nat)
    requires IsRun(run, steps) && run[0] == Start(size, trials) && k < |steps| && steps[k] == Check
    ensures LastRead(steps, k).Some?
    ensures var s, t, first := run[k], run[k + 1], run[LastRead(steps, k).value].revision;
            var accepts := first % 2 == 0 && first == s.revision;
            var ends := accepts || Tries(run, steps, k) == 2;
            && |t.captures| == |s.captures| + (if accepts then 1 else 0) && s.captures <= t.captures
            && (accepts ==> t.captures[|s.captures|].before == first)
            && t.attempts == (if ends then s.attempts + [Tries(run, steps, k) + 1] else s.attempts)
            && t.trials == (if ends then s.trials - 1 else s.trials)
            && t.reader == (if t.trials == 0 then Over else Starting)
  {
    AttemptMeans(run, steps, size, trials, k);
    assert run[k + 1] == Next(run[k], steps[k]);
  }

  /** Captures and records change in no other step. */
  lemma OnlyChecksRecord(run: seq<State>, steps: seq<Step>, k: nat)
    requires IsRun(run, steps) && k < |steps| && steps[k] != Check
    ensures run[k + 1].captures == run[k].captures && run[k + 1].attempts == run[k].attempts
    ensures run[k + 1].trials == run[k].trials
  {
    assert run[k + 1] == Next(run[k], steps[k]);
  }

  /** Neither thread ever waits for the other: until it is over, each has a next step. */
  lemma NobodyWaits(run: seq<State>, steps: seq<Step>, size: nat, trials: nat, k: nat)
    requires IsRun(run, steps) && run[0] == Start(size, trials) && k < |run|
    ensures var s := run[k];
            && (s.writer == Dead || (exists step :: step in {RaiseFirst, WriteValue, RaiseSecond} && Enabled(s, step)))
            && (s.reader == Over || (exists step :: step in {ReadRevision, CopyChunk, Check} && Enabled(s, step)))
            && (s.reader == Over <==> s.trials == 0)
  {
    hide Inv;
    TrialsLeft(run, steps, size, trials, k);
    var s := run[k];
    match s.writer {
      case Resting => assert Enabled(s, RaiseFirst);
      case Odd => assert Enabled(s, WriteValue);
      case Wrote => assert Enabled(s, RaiseSecond);
      case Dead =>
    }
    match s.reader {
      case Starting => assert Enabled(s, ReadRevision);
      case Copying(_, _, position) =>
        if position < |s.values| { assert Enabled(s, CopyChunk); } else { assert Enabled(s, Check); }
      case Over =>
    }
  }

  lemma {:induction false} TrialsLeft(run: seq<State>, steps: seq<Step>, size: nat, trials: nat, k: nat)
    requires IsRun(run, steps) && run[0] == Start(size, trials) && k < |run|
    ensures run[k].reader == Over <==> run[k].trials == 0
  {
    if k > 0 {
      TrialsLeft(run, steps, size, trials, k - 1);
      assert run[k] == Next(run[k - 1], steps[k - 1]);
    }
  }

  lemma EmptyStep(s: State, step: Step)
    requires Inv(s) && s.values == [] && s.writer != Resting && Enabled(s, step)
    ensures s.revision == 1 && Next(s, step).writer != Resting && Next(s, step).captures == s.captures
  {
  }

  /** With an empty array the writer stops inside its first round, and from then on no copy is accepted. */
  lemma {:induction false} EmptyArrayBlocks(run: seq<State>, steps: seq<Step>, trials: nat, j: nat, k: nat)
    requires IsRun(run, steps) && run[0] == Start(0, trials) && j <= k < |run| && run[j].writer != Resting
    ensures run[k].writer != Resting && run[k].captures == run[j].captures
  {
    hide Inv, Next, Enabled, Start;
    if k > j {
      EmptyArrayBlocks(run, steps, trials, j, k - 1);
      RunKeeps(run, steps, 0, trials, k - 1);
      assert run[k] == Next(run[k - 1], steps[k - 1]);
      EmptyStep(run[k - 1], steps[k - 1]);
    }
  }
}
