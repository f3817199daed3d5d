/** A frozen version: rows in shards of 256 behind a path index, updated by copying only the shards that change. */
module FrozenVersions {
  import opened Common

  const SHARD_NODES: nat := 256

  type Bytes = seq<nat>
  type Row = (string, Bytes)

  /** Where a row is: its shard and its place in the shard. */
  datatype Spot = Spot(shard: nat, place: nat)

  datatype Version = Version(definition: Bytes, shards: seq<seq<Row>>, secrets: Bytes, paths: map<string, Spot>) {

    predicate Has(at: Spot) { at.shard < |shards| && at.place < |shards[at.shard]| }

    function Row(at: Spot): Row
      requires Has(at)
    {
      shards[at.shard][at.place]
    }

    /** The index and the rows point at each other, so every path is in exactly one place. */
    ghost predicate Valid() {
      && (forall p | p in paths :: Has(paths[p]) && Row(paths[p]).0 == p)
      && (forall at: Spot | Has(at) :: Row(at).0 in paths && paths[Row(at).0] == at)
    }

    /** `record`; an unknown path is a key error. */
    function Record(path: string): Option<Bytes> {
      if path in paths && Has(paths[path]) then Some(Row(paths[path]).1) else None
    }

    /** The plain map this version stands for. */
    ghost function AsMap(): map<string, Bytes>
      requires Valid()
    {
      map p | p in paths :: Row(paths[p]).1
    }
  }

  /** Row by row the two versions hold the same paths in the same places. */
  ghost predicate SameOrder(v: Version, w: Version) {
    && |v.shards| == |w.shards| && v.paths == w.paths
    && (forall i: nat | i < |v.shards| :: |v.shards[i]| == |w.shards[i]|)
    && (forall at: Spot | v.Has(at) :: w.Has(at) && w.Row(at).0 == v.Row(at).0)
  }

  // ----- building -----

  predicate DistinctPaths(rows: seq<Row>) {
    forall i, j | 0 <= i < j < |rows| :: rows[i].0 != rows[j].0
  }

  function ShardsOf(rows: seq<Row>): seq<seq<Row>>
    decreases |rows|
  {
    if rows == [] then [] else [rows[..Min(SHARD_NODES, |rows|)]] + ShardsOf(rows[Min(SHARD_NODES, |rows|)..])
  }

  function Join(shards: seq<seq<Row>>): seq<Row> { if shards == [] then [] else shards[0] + Join(shards[1..]) }

  /** Cutting into shards loses nothing and keeps the order. */
  lemma {:induction false} ShardsJoin(rows: seq<Row>)
    ensures Join(ShardsOf(rows)) == rows
    decreases |rows|
  {
    if rows != [] {
      var n := Min(SHARD_NODES, |rows|);
      ShardsJoin(rows[n..]);
      assert ShardsOf(rows)[1..] == ShardsOf(rows[n..]);
      assert rows == rows[..n] + rows[n..];
    }
  }

  /** Row k is at place k modulo 256 of shard k / 256. */
  lemma {:induction false} ShardsAt(rows: seq<Row>, at: Spot)
    ensures at.shard < |ShardsOf(rows)| && at.place < |ShardsOf(rows)[at.shard]|
            <==> at.place < SHARD_NODES && at.shard * SHARD_NODES + at.place < |rows|
    ensures at.place < SHARD_NODES && at.shard * SHARD_NODES + at.place < |rows| ==>
              ShardsOf(rows)[at.shard][at.place] == rows[at.shard * SHARD_NODES + at.place]
    decreases |rows|
  {
    if rows != [] {
      var n := Min(SHARD_NODES, |rows|);
      if at.shard > 0 { ShardsAt(rows[n..], Spot(at.shard - 1, at.place)); }
    }
  }

  function IndexOf(rows: seq<Row>): map<string, Spot>
    requires DistinctPaths(rows)
  {
    map k: nat | k < |rows| :: rows[k].0 := Spot(k / SHARD_NODES, k % SHARD_NODES)
  }

  /** `from_document`: the rows of the document's runtime part, in its order. */
  function FromDocument(definition: Bytes, rows: seq<Row>, secrets: Bytes): Version
    requires DistinctPaths(rows)
  {
    Version(definition, ShardsOf(rows), secrets, IndexOf(rows))
  }

  /** A new version is consistent, keeps the document's order and says what the document says. */
  lemma FromDocumentMeaning(definition: Bytes, rows: seq<Row>, secrets: Bytes)
    requires DistinctPaths(rows)
    ensures var v := FromDocument(definition, rows, secrets);
            && v.Valid() && Join(v.shards) == rows && v.definition == definition && v.secrets == secrets
            && (forall k | 0 <= k < |rows| :: rows[k].0 in v.paths && v.AsMap()[rows[k].0] == rows[k].1)
            && (forall p | p in v.paths :: exists k :: 0 <= k < |rows| && rows[k].0 == p)
  {
    hide ShardsOf, Join;
    var v := FromDocument(definition, rows, secrets);
    ShardsJoin(rows);
    forall k: nat | k < |rows| ensures Indexed(v, rows, k) { IndexedRow(definition, rows, secrets, k); }
    forall at: Spot | v.Has(at) ensures v.Row(at).0 in v.paths && v.paths[v.Row(at).0] == at {
      ShardsAt(rows, at);
      var k := at.shard * SHARD_NODES + at.place;
      assert Indexed(v, rows, k);
    }
    forall p | p in v.paths ensures exists k :: 0 <= k < |rows| && rows[k].0 == p && Indexed(v, rows, k) {
      var k: nat :| k < |rows| && rows[k].0 == p;
      assert Indexed(v, rows, k);
    }
  }

  ghost predicate Indexed(v: Version, rows: seq<Row>, k: nat)
    requires k < |rows|
  {
    && rows[k].0 in v.paths && v.paths[rows[k].0] == Spot(k / SHARD_NODES, k % SHARD_NODES)
    && v.Has(v.paths[rows[k].0]) && v.Row(v.paths[rows[k].0]) == rows[k]
  }

  lemma IndexedRow(definition: Bytes, rows: seq<Row>, secrets: Bytes, k: nat)
    requires DistinctPaths(rows) && k < |rows|
    ensures Indexed(FromDocument(definition, rows, secrets), rows, k)
  {
    hide ShardsOf;
    ShardsAt(rows, Spot(k / SHARD_NODES, k % SHARD_NODES));
  }

  // ----- updating -----

  predicate Known(v: Version, changes: seq<Row>) { forall k | 0 <= k < |changes| :: changes[k].0 in v.paths }

  /** The changes written one after the other, the last one winning. */
  function Written(v: Version, changes: seq<Row>): Version {
    if changes == [] then v
    else
      var before := Written(v, changes[..|changes|-1]);
      var (path, record) := changes[|changes|-1];
      if path in v.paths && before.Has(v.paths[path]) then
        var at := v.paths[path];
        before.(shards := before.shards[at.shard := before.shards[at.shard][at.place := (path, record)]])
      else before
  }

  /** The same changes on the plain map. */
  ghost function Folded(m: map<string, Bytes>, changes: seq<Row>): map<string, Bytes> {
    if changes == [] then m
    else Folded(m, changes[..|changes|-1])[changes[|changes|-1].0 := changes[|changes|-1].1]
  }

  /** Shard i holds none of the changed rows. */
  ghost predicate Untouched(v: Version, changes: seq<Row>, i: nat) {
    forall k | 0 <= k < |changes| && changes[k].0 in v.paths :: v.paths[changes[k].0].shard != i
  }

  lemma {:induction false} WrittenMeaning(v: Version, changes: seq<Row>)
    requires v.Valid() && Known(v, changes)
    ensures var w := Written(v, changes);
            && w.Valid() && w == v.(shards := w.shards) && SameOrder(v, w)
            && w.AsMap() == Folded(v.AsMap(), changes)
            && (forall i: nat | i < |v.shards| && Untouched(v, changes, i) :: w.shards[i] == v.shards[i])
  {
    if changes != [] {
      var n := |changes| - 1;
      WrittenMeaning(v, changes[..n]);
      var u := Written(v, changes[..n]);
      var (path, record) := changes[n];
      assert path in v.paths && u.Valid();
      OneWritten(u, path, record);
      forall i: nat | i < |v.shards| && Untouched(v, changes, i) ensures Written(v, changes).shards[i] == v.shards[i] {
        assert Untouched(v, changes[..n], i);
        assert v.paths[path].shard != i;
      }
    }
  }

  lemma OneWritten(u: Version, path: string, record: Bytes)
    requires u.Valid() && path in u.paths
    ensures var at := u.paths[path];
            var w := u.(shards := u.shards[at.shard := u.shards[at.shard][at.place := (path, record)]]);
            w.Valid() && SameOrder(u, w) && w.AsMap() == u.AsMap()[path := record]
  {
    var at := u.paths[path];
    var w := u.(shards := u.shards[at.shard := u.shards[at.shard][at.place := (path, record)]]);
    forall b: Spot
      ensures w.Has(b) == u.Has(b) && (u.Has(b) ==> w.Row(b) == if b == at then (path, record) else u.Row(b))
    {
    }
  }

  /** `update_runtime`: copies each shard it changes once, and shares the others. */
  method UpdateRuntime(v: Version, changes: seq<Row>) returns (r: Result<Version, string>)
    requires v.Valid()
    ensures r.Success? <==> Known(v, changes)
    ensures r.Success? ==> r.value == Written(v, changes)
    ensures r.Success? ==> r.value.Valid() && r.value.AsMap() == Folded(v.AsMap(), changes) && SameOrder(v, r.value)
  {
    hide Version.Valid, Version.AsMap, Folded, Written, Pending, SameOrder, Untouched;
    var changed: map<nat, seq<Row>> := map[];
    PendingStart(v, changes);
    for k := 0 to |changes|
      invariant Known(v, changes[..k]) && Pending(v, changed, Written(v, changes[..k]))
    {
      var (path, record) := changes[k];
      if path !in v.paths {
        return Failure("key");
      }
      var at := v.paths[path];
      PendingStep(v, changes, k, changed);
      var shard := if at.shard in changed then changed[at.shard] else v.shards[at.shard];
      changed := changed[at.shard := shard[at.place := (path, record)]];
    }
    assert changes[..|changes|] == changes;
    WrittenMeaning(v, changes);
    var shards := Merge(v, changed, Written(v, changes));
    return Success(v.(shards := shards));
  }

  lemma PendingStart(v: Version, changes: seq<Row>)
    ensures Pending(v, map[], Written(v, changes[..0]))
  {
  }

  lemma PendingStep(v: Version, changes: seq<Row>, k: nat, changed: map<nat, seq<Row>>)
    requires v.Valid() && k < |changes| && Known(v, changes[..k]) && changes[k].0 in v.paths
    requires Pending(v, changed, Written(v, changes[..k]))
    ensures var at := v.paths[changes[k].0];
            && at.shard < |v.shards|
            && var shard := if at.shard in changed then changed[at.shard] else v.shards[at.shard];
               at.place < |shard|
               && Pending(v, changed[at.shard := shard[at.place := changes[k]]], Written(v, changes[..k+1]))
  {
    hide Version.Valid;
    var u := Written(v, changes[..k]);
    WrittenHas(v, changes[..k], changes[k].0);
    assert changes[..k+1][..k] == changes[..k];
    assert Written(v, changes[..k+1]) == u.(shards := u.shards[v.paths[changes[k].0].shard :=
             u.shards[v.paths[changes[k].0].shard][v.paths[changes[k].0].place := changes[k]]]);
    hide Written;
  }

  lemma WrittenHas(v: Version, changes: seq<Row>, path: string)
    requires v.Valid() && Known(v, changes) && path in v.paths
    ensures Written(v, changes).Has(v.paths[path])
  {
  }

  /** The changed shards, laid over the old ones, are the shards of w. */
  ghost predicate Pending(v: Version, changed: map<nat, seq<Row>>, w: Version) {
    && |w.shards| == |v.shards| && (forall i | i in changed :: i < |v.shards|)
    && forall i: nat | i < |v.shards| :: w.shards[i] == if i in changed then changed[i] else v.shards[i]
  }

  method Merge(v: Version, changed: map<nat, seq<Row>>, ghost w: Version) returns (shards: seq<seq<Row>>)
    requires Pending(v, changed, w)
    ensures shards == w.shards
  {
    shards := v.shards;
    var todo := changed.Keys;
    while todo != {}
      invariant todo <= changed.Keys && |shards| == |v.shards|
      invariant forall i: nat | i < |shards| ::
                  shards[i] == if i in changed && i !in todo then changed[i] else v.shards[i]
      decreases |todo|
    {
      var i :| i in todo;
      shards := shards[i := changed[i]];
      todo := todo - {i};
    }
  }

  /** The version after a chain of updates. */
  function Chain(v: Version, updates: seq<seq<Row>>): Version {
    if updates == [] then v else Written(Chain(v, updates[..|updates|-1]), updates[|updates|-1])
  }

  ghost function FoldedAll(m: map<string, Bytes>, updates: seq<seq<Row>>): map<string, Bytes> {
    if updates == [] then m else Folded(FoldedAll(m, updates[..|updates|-1]), updates[|updates|-1])
  }

  /**
   A chain of updates on known paths refines the plain map: the version after it reads like the map with the
   updates folded in, every row is where it was, and shards that no update touches are the original ones.
   */
  lemma {:induction false} ChainRefines(v: Version, updates: seq<seq<Row>>)
    requires v.Valid() && forall k | 0 <= k < |updates| :: Known(v, updates[k])
    ensures var w := Chain(v, updates);
            && w.Valid() && SameOrder(v, w) && w.AsMap() == FoldedAll(v.AsMap(), updates)
            && (forall p :: w.Record(p) == if p in w.AsMap() then Some(w.AsMap()[p]) else None)
            && (forall i: nat | i < |v.shards| && (forall k | 0 <= k < |updates| :: Untouched(v, updates[k], i)) ::
                  w.shards[i] == v.shards[i])
  {
    if updates != [] {
      var n := |updates| - 1;
      var u := Chain(v, updates[..n]);
      forall k | 0 <= k < n ensures Known(v, updates[..n][k]) { assert updates[..n][k] == updates[k]; }
      ChainRefines(v, updates[..n]);
      assert Known(v, updates[n]);
      WrittenMeaning(u, updates[n]);
      forall i: nat | i < |v.shards| && (forall k | 0 <= k < |updates| :: Untouched(v, updates[k], i))
        ensures Chain(v, updates).shards[i] == v.shards[i]
      {
        forall k | 0 <= k < n ensures Untouched(v, updates[..n][k], i) { assert updates[..n][k] == updates[k]; }
        assert Untouched(u, updates[n], i);
      }
    }
  }
}
