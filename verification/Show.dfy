/** The show view: a nested document is flattened into a table of nodes, and parameters are looked up through it. */
module ShowView {
  import opened Common
  import opened TreePaths

  /** `value` is None for null. */
  datatype ParameterValue = ParameterValue(value: Option<string>, redacted: bool) {

    function Text(): string { if redacted then "<redacted>" else if value.Some? then value.value else "" }
  }

  type Parameters = map<string, ParameterValue>

  /** A node of the document; `sound` says that its fields other than name and children parse. */
  datatype Raw = Raw(name: string, sound: bool, parameters: Parameters, generated: Parameters, children: seq<Raw>)

  datatype NodeInfo = NodeInfo(name: string, path: string, level: nat, parent: Option<string>,
                               parameters: Parameters, generated: Parameters, children: seq<string>)

  type Table = map<string, NodeInfo>

  predicate GoodName(name: string) { name != "" && '/' !in name && name != "." && name != ".." }

  // ----- what a document must look like -----

  predicate SiblingsDiffer(raw: Raw) {
    forall i, j | 0 <= i < j < |raw.children| :: raw.children[i].name != raw.children[j].name
  }

  /** Every node below `raw` is sound and well named, and no two siblings share a name. */
  predicate KidsFormed(raw: Raw)
    decreases raw, 0
  {
    SiblingsDiffer(raw) && forall i | 0 <= i < |raw.children| :: Formed(raw.children[i])
  }

  predicate Formed(raw: Raw)
    decreases raw, 1
  {
    GoodName(raw.name) && raw.sound && KidsFormed(raw)
  }

  // ----- the table a document stands for -----

  function Kid(at: seq<string>, raw: Raw, i: nat): seq<string>
    requires i < |raw.children|
  {
    at + [raw.children[i].name]
  }

  function ParentPath(at: seq<string>): Option<string> { if |at| <= 1 then None else Some(Render(at[..|at|-1])) }

  function InfoOf(at: seq<string>, raw: Raw): NodeInfo
    requires at != []
  {
    NodeInfo(raw.name, Render(at), |at| - 1, ParentPath(at), raw.parameters, raw.generated,
             KidPaths(at, raw, |raw.children|))
  }

  function KidPaths(at: seq<string>, raw: Raw, k: nat): seq<string>
    requires k <= |raw.children|
  {
    seq(k, i requires 0 <= i < k => Render(Kid(at, raw, i)))
  }

  /** The table holds `raw` and everything below it, starting at `at`. */
  ghost predicate Holds(nodes: Table, at: seq<string>, raw: Raw)
    requires at != []
    decreases raw
  {
    && Render(at) in nodes && nodes[Render(at)] == InfoOf(at, raw)
    && forall i | 0 <= i < |raw.children| :: Holds(nodes, Kid(at, raw, i), raw.children[i])
  }

  /** The paths of `raw` and everything below it. */
  function Under(at: seq<string>, raw: Raw): set<string>
    decreases raw, |raw.children| + 1
  {
    {Render(at)} + UnderKids(at, raw, |raw.children|)
  }

  function UnderKids(at: seq<string>, raw: Raw, k: nat): set<string>
    requires k <= |raw.children|
    decreases raw, k
  {
    if k == 0 then {} else UnderKids(at, raw, k - 1) + Under(Kid(at, raw, k - 1), raw.children[k - 1])
  }

  /** A proper path: the rendering of its own non-empty segment list, which extends `at`. */
  ghost predicate Beneath(at: seq<string>, p: string) {
    && Segments(p) != [] && Plain(Segments(p)) && p == Render(Segments(p)) && at <= Segments(p)
  }

  lemma BelowSelf(at: seq<string>)
    requires at != [] && Plain(at)
    ensures Beneath(at, Render(at)) && Segments(Render(at)) == at
  {
    SegmentsRender(at);
  }

  lemma {:induction false} UnderBelow(at: seq<string>, raw: Raw, p: string)
    requires at != [] && Plain(at) && KidsFormed(raw) && p in Under(at, raw)
    ensures Beneath(at, p)
    decreases raw, |raw.children| + 1
  {
    hide Render, Plain, Beneath;
    if p == Render(at) { BelowSelf(at); } else {
      var i := UnderKidsBelow(at, raw, |raw.children|, p);
      BelowTrans(at, Kid(at, raw, i), p);
    }
  }

  lemma BelowTrans(at: seq<string>, longer: seq<string>, p: string)
    requires at <= longer && Beneath(longer, p)
    ensures Beneath(at, p)
  {
  }

  lemma KidPlain(at: seq<string>, raw: Raw, i: nat)
    requires Plain(at) && i < |raw.children| && GoodName(raw.children[i].name)
    ensures Plain(Kid(at, raw, i)) && Kid(at, raw, i) != [] && at <= Kid(at, raw, i)
  {
  }

  lemma {:induction false} UnderKidsBelow(at: seq<string>, raw: Raw, k: nat, p: string) returns (i: nat)
    requires Plain(at) && KidsFormed(raw) && k <= |raw.children| && p in UnderKids(at, raw, k)
    ensures i < k && Beneath(Kid(at, raw, i), p)
    decreases raw, k
  {
    hide Render, Plain, Beneath;
    if p in UnderKids(at, raw, k - 1) {
      i := UnderKidsBelow(at, raw, k - 1, p);
    } else {
      i := k - 1;
      assert Formed(raw.children[i]);
      KidPlain(at, raw, i);
      UnderBelow(Kid(at, raw, i), raw.children[i], p);
    }
  }

  /** Siblings with different names have nothing in common. */
  lemma KidsApart(at: seq<string>, raw: Raw, i: nat, j: nat, p: string)
    requires i < |raw.children| && j < |raw.children| && raw.children[i].name != raw.children[j].name
    requires Beneath(Kid(at, raw, i), p)
    ensures !Beneath(Kid(at, raw, j), p)
  {
    assert Kid(at, raw, i)[|at|] == raw.children[i].name && Kid(at, raw, j)[|at|] == raw.children[j].name;
  }

  /** A node holds as long as its own part of the table does not change. */
  lemma {:induction false} HoldsFrame(before: Table, after: Table, at: seq<string>, raw: Raw)
    requires at != [] && Holds(before, at, raw)
    requires forall p | p in Under(at, raw) && p in before :: p in after && after[p] == before[p]
    ensures Holds(after, at, raw)
    decreases raw
  {
    assert Render(at) in Under(at, raw);
    forall i | 0 <= i < |raw.children| ensures Holds(after, Kid(at, raw, i), raw.children[i]) {
      forall p | p in Under(Kid(at, raw, i), raw.children[i]) && p in before
        ensures p in after && after[p] == before[p]
      {
        UnderHasKids(at, raw, |raw.children|, i);
      }
      HoldsFrame(before, after, Kid(at, raw, i), raw.children[i]);
    }
  }

  lemma {:induction false} UnderHasKids(at: seq<string>, raw: Raw, k: nat, i: nat)
    requires i < k <= |raw.children|
    ensures Under(Kid(at, raw, i), raw.children[i]) <= UnderKids(at, raw, k)
    decreases k
  {
    if i < k - 1 { UnderHasKids(at, raw, k - 1, i); }
  }

  // ----- the parser -----

  ghost predicate Grown(before: Table, after: Table, added: set<string>) {
    after.Keys == before.Keys + added && forall p | p in before :: after[p] == before[p]
  }

  /** Nothing in the table lies strictly below `at`. */
  ghost predicate Clear(nodes: Table, at: seq<string>) {
    forall p | p in nodes :: Beneath([], p) && !(at < Segments(p))
  }

  /** After the first k children: they are in the table, and nothing else is new. */
  ghost predicate Walked(before: Table, after: Table, at: seq<string>, raw: Raw, k: nat)
    requires k <= |raw.children|
  {
    && Grown(before, after, UnderKids(at, raw, k))
    && (forall i | 0 <= i < k :: Formed(raw.children[i]) && Holds(after, Kid(at, raw, i), raw.children[i]))
    && (forall i, j | 0 <= i < j < k :: raw.children[i].name != raw.children[j].name)
  }

  class Parser {
    var nodes: Table

    constructor ()
      ensures nodes == map[]
    {
      nodes := map[];
    }

    /** `walk`: succeeds exactly on a well-formed node whose path is new, and then the table holds all of it. */
    method Walk(raw: Raw, parent: Option<string>, level: nat, ghost above: seq<string>)
      returns (r: Result<string, string>)
      requires Plain(above) && level == |above| && parent == (if above == [] then None else Some(Render(above)))
      requires forall p | p in nodes :: Beneath([], p)
      requires GoodName(raw.name) && Render(above + [raw.name]) !in nodes ==> Clear(nodes, above + [raw.name])
      modifies this
      ensures r.Success? <==> Formed(raw) && Render(above + [raw.name]) !in old(nodes)
      ensures r.Success? ==>
                var here := above + [raw.name];
                && r.value == Render(here) && Grown(old(nodes), nodes, Under(here, raw)) && Holds(nodes, here, raw)
      decreases raw, 1
    {
      hide Holds, Under, UnderKids, Beneath, Render, Plain, Walked, KidsFormed, Clear, InfoOf, ParentPath, KidPaths;
      hide Segments;
      if !GoodName(raw.name) {
        return Failure("invalid_query");
      }
      ghost var here := above + [raw.name];
      var path := (if parent.Some? then parent.value else "") + "/" + raw.name;
      HerePath(above, raw.name);
      InfoHere(above, raw, path);
      if path in nodes || !raw.sound {
        return Failure("invalid_query");
      }
      ghost var before := nodes;
      nodes := nodes[path := NodeInfo(raw.name, path, level, parent, raw.parameters, raw.generated, [])];
      ghost var entered := nodes;
      BelowSelf(here);
      ClearAfter(before, entered, here);
      var kids := WalkChildren(raw, Some(path), level + 1, here);
      if kids.Failure? {
        return Failure("invalid_query");
      }
      ghost var walked := nodes;
      WalkedKeeps(entered, walked, here, raw, path);
      nodes := nodes[path := nodes[path].(children := kids.value)];
      WalkDone(before, entered, walked, nodes, above, raw);
      return Success(path);
    }

    /** The children of a node, or the flows of the document. */
    method WalkChildren(raw: Raw, parent: Option<string>, level: nat, ghost at: seq<string>)
      returns (r: Result<seq<string>, string>)
      requires Plain(at) && level == |at| && parent == (if at == [] then None else Some(Render(at)))
      requires Clear(nodes, at)
      modifies this
      ensures r.Success? <==> KidsFormed(raw)
      ensures r.Success? ==>
                r.value == KidPaths(at, raw, |raw.children|) && Walked(old(nodes), nodes, at, raw, |raw.children|)
      decreases raw, 0
    {
      hide Holds, Under, UnderKids, Beneath, Render, Plain, Walked, Clear;
      var paths: seq<string> := [];
      ghost var before := nodes;
      WalkedStart(before, at, raw);
      for k := 0 to |raw.children|
        invariant Walked(before, nodes, at, raw, k)
        invariant paths == KidPaths(at, raw, k)
      {
        ghost var now := nodes;
        NextKid(before, now, at, raw, k);
        var path := Walk(raw.children[k], parent, level, at);
        if path.Failure? {
          return Failure("invalid_query");
        }
        KidWalked(before, now, nodes, at, raw, k);
        paths := paths + [path.value];
      }
      WalkedFormed(before, nodes, at, raw);
      return Success(paths);
    }
  }

  lemma HerePath(above: seq<string>, name: string)
    requires Plain(above) && GoodName(name)
    ensures Render(above + [name]) == Render(above) + "/" + name && Plain(above + [name])
    ensures Render([]) == ""
  {
    RenderLast(above + [name]);
    assert (above + [name])[..|above|] == above;
  }

  /** What the parser enters for a node is what the document says of it. */
  lemma InfoHere(above: seq<string>, raw: Raw, path: string)
    requires path == Render(above + [raw.name])
    ensures var parent := if above == [] then None else Some(Render(above));
            InfoOf(above + [raw.name], raw) ==
            NodeInfo(raw.name, path, |above|, parent, raw.parameters, raw.generated,
                     KidPaths(above + [raw.name], raw, |raw.children|))
  {
  }

  lemma ClearAfter(before: Table, entered: Table, here: seq<string>)
    requires Clear(before, here) && here != [] && Plain(here) && Segments(Render(here)) == here
             && Beneath(here, Render(here))
    requires Grown(before, entered, {Render(here)})
    ensures Clear(entered, here)
  {
  }

  lemma WalkedStart(before: Table, at: seq<string>, raw: Raw)
    ensures Walked(before, before, at, raw, 0)
  {
  }

  /** Walking the children does not touch the node itself. */
  lemma WalkedKeeps(entered: Table, walked: Table, here: seq<string>, raw: Raw, path: string)
    requires Walked(entered, walked, here, raw, |raw.children|) && path in entered
    ensures path in walked && walked[path] == entered[path]
  {
  }

  /**
   * Before the next child: its path is taken exactly if an earlier
   * sibling has its name, else all is clear below it.
   */
  lemma NextKid(before: Table, now: Table, at: seq<string>, raw: Raw, k: nat)
    requires Plain(at) && Clear(before, at) && k < |raw.children| && Walked(before, now, at, raw, k)
    ensures forall p | p in now :: Beneath([], p)
    ensures GoodName(raw.children[k].name) ==>
              (Render(Kid(at, raw, k)) in now <==>
                 exists i :: 0 <= i < k && raw.children[i].name == raw.children[k].name)
    ensures GoodName(raw.children[k].name) && Render(Kid(at, raw, k)) !in now ==> Clear(now, Kid(at, raw, k))
  {
    hide Holds, Under, Render, Plain, Beneath;
    forall p | p in now
      ensures Beneath([], p) && (p in before || exists i :: 0 <= i < k && Beneath(Kid(at, raw, i), p))
    {
      if p !in before {
        var i := SomeKid(at, raw, k, p);
        BelowTrans([], Kid(at, raw, i), p);
      }
    }
    if GoodName(raw.children[k].name) {
      var here := Kid(at, raw, k);
      KidPlain(at, raw, k);
      BelowSelf(here);
      if i :| 0 <= i < k && raw.children[i].name == raw.children[k].name {
        UnderHasKids(at, raw, k, i);
        assert Render(here) in Under(Kid(at, raw, i), raw.children[i])
          by { SelfUnder(Kid(at, raw, i), raw.children[i]); }
      } else {
        forall p | p in now ensures p != Render(here) && !(here < Segments(p)) {
          if p in before {
            assert !(at < Segments(p));
          } else {
            var i :| 0 <= i < k && Beneath(Kid(at, raw, i), p);
            KidsApart(at, raw, i, k, p);
            NotBelow(here, p);
          }
        }
      }
    }
  }

  lemma SelfUnder(at: seq<string>, raw: Raw)
    ensures Render(at) in Under(at, raw)
  {
  }

  lemma NotBelow(at: seq<string>, p: string)
    requires Beneath([], p) && !Beneath(at, p)
    ensures !(at <= Segments(p))
  {
  }

  lemma SomeKid(at: seq<string>, raw: Raw, k: nat, p: string) returns (i: nat)
    requires Plain(at) && k <= |raw.children| && p in UnderKids(at, raw, k)
    requires forall j | 0 <= j < k :: Formed(raw.children[j])
    ensures i < k && Beneath(Kid(at, raw, i), p)
    decreases k
  {
    hide Render, Plain, Beneath, Under;
    if p in UnderKids(at, raw, k - 1) {
      i := SomeKid(at, raw, k - 1, p);
    } else {
      i := k - 1;
      assert Formed(raw.children[i]);
      KidPlain(at, raw, i);
      UnderBelow(Kid(at, raw, i), raw.children[i], p);
    }
  }

  /** One more child in the table; the earlier ones are apart from it and stay. */
  lemma KidWalked(before: Table, now: Table, after: Table, at: seq<string>, raw: Raw, k: nat)
    requires Plain(at) && k < |raw.children| && Walked(before, now, at, raw, k)
    requires Formed(raw.children[k]) && Render(Kid(at, raw, k)) !in now
    requires Grown(now, after, Under(Kid(at, raw, k), raw.children[k]))
             && Holds(after, Kid(at, raw, k), raw.children[k])
    ensures Walked(before, after, at, raw, k + 1)
  {
    hide Holds, Under, Render, Plain, Beneath;
    assert before.Keys + UnderKids(at, raw, k + 1) == after.Keys;
    forall i | 0 <= i < k
      ensures Holds(after, Kid(at, raw, i), raw.children[i]) && raw.children[i].name != raw.children[k].name
    {
      HoldsFrame(now, after, Kid(at, raw, i), raw.children[i]);
      UnderHasKids(at, raw, k, i);
      SelfUnder(Kid(at, raw, i), raw.children[i]);
    }
  }

  lemma WalkedFormed(before: Table, after: Table, at: seq<string>, raw: Raw)
    requires Walked(before, after, at, raw, |raw.children|)
    ensures KidsFormed(raw)
  {
  }

  /** The node with its list of children completes the subtree. */
  lemma WalkDone(before: Table, entered: Table, walked: Table, after: Table, above: seq<string>, raw: Raw)
    requires Plain(above) && Formed(raw) && Clear(before, above + [raw.name])
    requires var here := above + [raw.name];
             && Render(here) !in before
             && entered == before[Render(here) := InfoOf(here, raw).(children := [])]
             && Walked(entered, walked, here, raw, |raw.children|)
             && after == walked[Render(here) := InfoOf(here, raw)]
    ensures var here := above + [raw.name];
            Grown(before, after, Under(here, raw)) && Holds(after, here, raw)
  {
    hide Render, Plain, Beneath;
    var here := above + [raw.name];
    assert after.Keys == before.Keys + Under(here, raw);
    PlainHere(above, raw.name);
    forall i | 0 <= i < |raw.children| ensures Holds(after, Kid(here, raw, i), raw.children[i]) {
      forall p | p in Under(Kid(here, raw, i), raw.children[i]) ensures p != Render(here) {
        KidPlain(here, raw, i);
        UnderBelow(Kid(here, raw, i), raw.children[i], p);
        Longer(here, Kid(here, raw, i), p);
      }
      HoldsFrame(walked, after, Kid(here, raw, i), raw.children[i]);
    }
  }

  lemma PlainHere(above: seq<string>, name: string)
    requires Plain(above) && GoodName(name)
    ensures Plain(above + [name])
  {
  }

  lemma Longer(at: seq<string>, longer: seq<string>, p: string)
    requires at != [] && Plain(at) && |at| < |longer| && Beneath(longer, p)
    ensures p != Render(at)
  {
    BelowSelf(at);
  }

  // ----- the snapshot -----

  datatype Snapshot = Snapshot(nodes: Table, roots: seq<string>, rootParameters: Parameters,
                               serverGenerated: Parameters)

  /** `parse_show`: the flows of the document are the children of a nameless node. */
  method ParseShow(document: Raw) returns (r: Result<Snapshot, string>)
    ensures r.Success? <==> KidsFormed(document)
    ensures r.Success? ==>
              && r.value.roots == KidPaths([], document, |document.children|)
              && r.value.nodes.Keys == UnderKids([], document, |document.children|)
              && (forall i | 0 <= i < |document.children| ::
                    Holds(r.value.nodes, Kid([], document, i), document.children[i]))
              && r.value.rootParameters == document.parameters && r.value.serverGenerated == document.generated
              && Rooted(r.value.nodes) && Forest(r.value) == NamesOf(document).kids
  {
    hide Holds, Under, UnderKids, Forest;
    var parser := new Parser();
    var roots := parser.WalkChildren(document, None, 0, []);
    if roots.Failure? {
      return Failure("invalid_query");
    }
    AllRooted(parser.nodes, document);
    var snapshot := Snapshot(parser.nodes, roots.value, document.parameters, document.generated);
    RebuildDocument(snapshot, document);
    return Success(snapshot);
  }

  /** A node sits at the path of its segments, one level below its parent, which is in the table. */
  ghost predicate Anchored(nodes: Table, p: string)
    requires p in nodes
  {
    var info := nodes[p];
    && Beneath([], p) && info.path == p && info.level == |Segments(p)| - 1
    && info.parent == ParentPath(Segments(p)) && (info.parent.Some? ==> info.parent.value in nodes)
  }

  ghost predicate Rooted(nodes: Table) { forall p | p in nodes :: Anchored(nodes, p) }

  lemma AllRooted(nodes: Table, document: Raw)
    requires KidsFormed(document) && nodes.Keys == UnderKids([], document, |document.children|)
    requires forall i | 0 <= i < |document.children| :: Holds(nodes, Kid([], document, i), document.children[i])
    ensures Rooted(nodes)
  {
    hide Holds, Under, UnderKids, Render, Anchored;
    forall p | p in nodes ensures Anchored(nodes, p) {
      var i := WhichKid([], document, |document.children|, p);
      assert Formed(document.children[i]);
      KidPlain([], document, i);
      HeldAnchored(nodes, Kid([], document, i), document.children[i], p);
    }
  }

  lemma WhichKid(at: seq<string>, raw: Raw, k: nat, p: string) returns (i: nat)
    requires k <= |raw.children| && p in UnderKids(at, raw, k)
    ensures i < k && p in Under(Kid(at, raw, i), raw.children[i])
    decreases k
  {
    if p in UnderKids(at, raw, k - 1) { i := WhichKid(at, raw, k - 1, p); } else { i := k - 1; }
  }

  lemma {:induction false} HeldAnchored(nodes: Table, at: seq<string>, raw: Raw, p: string)
    requires at != [] && Plain(at) && Formed(raw) && Holds(nodes, at, raw) && p in Under(at, raw)
    requires |at| == 1 || Render(at[..|at|-1]) in nodes
    ensures p in nodes && Anchored(nodes, p)
    decreases raw
  {
    hide Render, Plain, Beneath, Under, UnderKids;
    if p == Render(at) {
      BelowSelf(at);
      BelowTrans([], at, p);
    } else {
      assert p in UnderKids(at, raw, |raw.children|) by { UnderParts(at, raw); }
      var i := WhichKid(at, raw, |raw.children|, p);
      assert Formed(raw.children[i]);
      KidPlain(at, raw, i);
      assert Kid(at, raw, i)[..|at|] == at;
      HeldAnchored(nodes, Kid(at, raw, i), raw.children[i], p);
    }
  }

  lemma UnderParts(at: seq<string>, raw: Raw)
    ensures Under(at, raw) == {Render(at)} + UnderKids(at, raw, |raw.children|)
  {
  }

  // ----- rebuilding -----

  datatype Names = Names(name: string, kids: seq<Names>)

  function NamesOf(raw: Raw): Names {
    Names(raw.name, seq(|raw.children|, i requires 0 <= i < |raw.children| => NamesOf(raw.children[i])))
  }

  /** The tree of names read back from the table, following the lists of children. */
  function Rebuild(nodes: Table, path: string): Names
    decreases |nodes|
  {
    if path !in nodes then Names("", [])
    else
      var kids := nodes[path].children;
      var rest := nodes - {path};
      Smaller(nodes, path);
      Names(nodes[path].name, seq(|kids|, i requires 0 <= i < |kids| => Rebuild(rest, kids[i])))
  }

  lemma Smaller(nodes: Table, path: string)
    requires path in nodes
    ensures |nodes - {path}| < |nodes|
  {
  }

  /** Rebuilding gives the names of the document back. */
  lemma {:induction false} RebuildIsNames(nodes: Table, at: seq<string>, raw: Raw)
    requires at != [] && Plain(at) && Formed(raw) && Holds(nodes, at, raw)
    ensures Rebuild(nodes, Render(at)) == NamesOf(raw)
    decreases raw
  {
    hide Render, Plain, Beneath, Under, UnderKids;
    var rest := nodes - {Render(at)};
    forall i | 0 <= i < |raw.children| ensures Rebuild(rest, Render(Kid(at, raw, i))) == NamesOf(raw.children[i]) {
      var kid := Kid(at, raw, i);
      assert Formed(raw.children[i]);
      KidPlain(at, raw, i);
      forall p | p in Under(kid, raw.children[i]) ensures p != Render(at) {
        UnderBelow(kid, raw.children[i], p);
        Longer(at, kid, p);
      }
      HoldsFrame(nodes, rest, kid, raw.children[i]);
      RebuildIsNames(rest, kid, raw.children[i]);
    }
  }

  /** The trees of names read back from the roots. */
  function Forest(s: Snapshot): seq<Names> {
    seq(|s.roots|, i requires 0 <= i < |s.roots| => Rebuild(s.nodes, s.roots[i]))
  }

  /** Rebuilding from the roots gives the whole document's trees of names back. */
  lemma RebuildDocument(s: Snapshot, document: Raw)
    requires KidsFormed(document) && s.roots == KidPaths([], document, |document.children|)
    requires forall i | 0 <= i < |document.children| :: Holds(s.nodes, Kid([], document, i), document.children[i])
    ensures Forest(s) == NamesOf(document).kids
  {
    hide Holds, Render, Rebuild;
    forall i | 0 <= i < |document.children| ensures Rebuild(s.nodes, s.roots[i]) == NamesOf(document.children[i]) {
      assert Formed(document.children[i]);
      KidPlain([], document, i);
      RebuildIsNames(s.nodes, Kid([], document, i), document.children[i]);
    }
  }

  // ----- ancestors -----

  /** The proper ancestors of a node, nearest first. */
  function Ancestors(nodes: Table, p: string): seq<NodeInfo>
    decreases if p in nodes then nodes[p].level + 1 else 0
  {
    if p !in nodes || nodes[p].parent.None? then []
    else
      var q := nodes[p].parent.value;
      if q !in nodes || nodes[q].level >= nodes[p].level then []
      else [nodes[q]] + Ancestors(nodes, q)
  }

  lemma ParentAnchored(nodes: Table, p: string)
    requires Rooted(nodes) && p in nodes
    ensures |Segments(p)| == nodes[p].level + 1 && Plain(Segments(p)) && p == Render(Segments(p))
    ensures nodes[p].parent.Some? <==> nodes[p].level > 0
    ensures nodes[p].parent.Some? ==>
              var q := nodes[p].parent.value;
              && q in nodes && nodes[q].level == nodes[p].level - 1
              && Segments(q) == Segments(p)[..nodes[p].level] && q == Render(Segments(q))
  {
    assert Anchored(nodes, p);
    if nodes[p].parent.Some? {
      var q := nodes[p].parent.value;
      assert Anchored(nodes, q);
      SegmentsRender(Segments(p)[..nodes[p].level]);
    }
  }

  /** The ancestors are exactly the nodes at the proper prefixes of the node's segments, longest first. */
  lemma {:induction false} AncestorsMeaning(nodes: Table, p: string)
    requires Rooted(nodes) && p in nodes
    ensures |Ancestors(nodes, p)| == nodes[p].level < |Segments(p)|
    ensures forall i | 0 <= i < nodes[p].level ::
              Ancestors(nodes, p)[i].path == Render(Segments(p)[..nodes[p].level - i])
              && Ancestors(nodes, p)[i].path in nodes
              && nodes[Ancestors(nodes, p)[i].path] == Ancestors(nodes, p)[i]
    decreases nodes[p].level
  {
    hide Render, Rooted, Plain, Segments;
    ParentAnchored(nodes, p);
    if nodes[p].parent.Some? {
      var q := nodes[p].parent.value;
      var n := nodes[p].level;
      AncestorsMeaning(nodes, q);
      assert nodes[q].path == q by { assert Rooted(nodes); PathOf(nodes, q); }
      assert Ancestors(nodes, p) == [nodes[q]] + Ancestors(nodes, q);
      forall i | 1 <= i < n
        ensures Ancestors(nodes, p)[i] == Ancestors(nodes, q)[i - 1] && Segments(q)[..n - i] == Segments(p)[..n - i]
      {
      }
    }
  }

  lemma PathOf(nodes: Table, p: string)
    requires Rooted(nodes) && p in nodes
    ensures nodes[p].path == p
  {
  }

  /** `parents_of`: follows the parent links; on a parsed table it ends and lists the proper ancestors. */
  method ParentsOf(nodes: Table, path: string) returns (result: seq<NodeInfo>)
    requires Rooted(nodes)
    ensures result == Ancestors(nodes, path)
  {
    hide Rooted, Render, Segments, Plain;
    result := [];
    if path !in nodes {
      return;
    }
    var current := nodes[path];
    PathOf(nodes, path);
    while current.parent.Some?
      invariant current.path in nodes && nodes[current.path] == current
      invariant Ancestors(nodes, path) == result + Ancestors(nodes, current.path)
      decreases current.level
    {
      ParentAnchored(nodes, current.path);
      PathOf(nodes, current.parent.value);
      current := nodes[current.parent.value];
      result := result + [current];
    }
  }

  // ----- parameters -----

  /** The first source that has the name decides. */
  function FirstIn(sources: seq<Parameters>, name: string): Option<ParameterValue> {
    if sources == [] then None else if name in sources[0] then Some(sources[0][name]) else FirstIn(sources[1..], name)
  }

  function SourcesOf(infos: seq<NodeInfo>): seq<Parameters> {
    if infos == [] then []
    else SourcesOf(infos[..|infos|-1]) + [infos[|infos|-1].parameters, infos[|infos|-1].generated]
  }

  lemma {:induction false} FirstInAppend(a: seq<Parameters>, b: seq<Parameters>, name: string)
    ensures FirstIn(a + b, name) == if FirstIn(a, name).Some? then FirstIn(a, name) else FirstIn(b, name)
  {
    if a == [] {
      assert a + b == b;
    } else {
      FirstInAppend(a[1..], b, name);
      assert (a + b)[1..] == a[1..] + b;
    }
  }

  /** Where a node's parameters come from: its ancestors, then the document. */
  function Inheritable(s: Snapshot, path: string): seq<Parameters> {
    SourcesOf(Ancestors(s.nodes, path)) + [s.rootParameters, s.serverGenerated]
  }

  /** `resolve_parameter`: the node itself first, then what it inherits. */
  method ResolveParameter(s: Snapshot, path: string, name: string) returns (r: Option<ParameterValue>)
    requires Rooted(s.nodes)
    ensures r == if path !in s.nodes then None
                 else FirstIn([s.nodes[path].parameters, s.nodes[path].generated] + Inheritable(s, path), name)
  {
    hide Rooted, FirstIn, SourcesOf, Inheritable, Ancestors;
    if path !in s.nodes {
      return None;
    }
    var node := s.nodes[path];
    var parents := ParentsOf(s.nodes, path);
    var chain := [node] + parents;
    ghost var last := [s.rootParameters, s.serverGenerated];
    WholeChain(s, path);
    NoSources(name);
    for k := 0 to |chain|
      invariant FirstIn(SourcesOf(chain[..k]), name).None?
    {
      SourceStep(chain, k, name);
      SourcePrefix(chain, k + 1, last, name);
      if name in chain[k].parameters {
        return Some(chain[k].parameters[name]);
      }
      if name in chain[k].generated {
        return Some(chain[k].generated[name]);
      }
    }
    assert chain[..|chain|] == chain;
    FirstInAppend(SourcesOf(chain), last, name);
    FirstOfTwo(s.rootParameters, s.serverGenerated, name);
    return if name in s.rootParameters then Some(s.rootParameters[name])
           else if name in s.serverGenerated then Some(s.serverGenerated[name]) else None;
  }

  /** What `resolve_parameter` finds: the first of the node's own and its inherited sources that has the name. */
  ghost function Resolved(s: Snapshot, path: string, name: string): Option<ParameterValue>
    requires Rooted(s.nodes)
  {
    if path !in s.nodes then None
    else FirstIn([s.nodes[path].parameters, s.nodes[path].generated] + Inheritable(s, path), name)
  }

  /** `lookup_parameter`: a redacted or null value hides those behind it, and is itself not given away. */
  method LookupParameter(s: Snapshot, path: string, name: string) returns (r: Option<string>)
    requires Rooted(s.nodes)
    ensures var v := Resolved(s, path, name);
            r == if v.Some? && !v.value.redacted then v.value.value else None
  {
    hide Rooted, FirstIn, Inheritable;
    var value := ResolveParameter(s, path, name);
    if value.None? || value.value.redacted || value.value.value.None? {
      return None;
    }
    return Some(value.value.Text());
  }

  lemma WholeChain(s: Snapshot, path: string)
    requires path in s.nodes
    ensures [s.nodes[path].parameters, s.nodes[path].generated] + Inheritable(s, path) ==
            SourcesOf([s.nodes[path]] + Ancestors(s.nodes, path)) + [s.rootParameters, s.serverGenerated]
  {
    ChainSources(s.nodes[path], Ancestors(s.nodes, path));
  }

  lemma NoSources(name: string)
    ensures forall chain: seq<NodeInfo> :: FirstIn(SourcesOf(chain[..0]), name).None?
  {
  }

  lemma FirstOfTwo(a: Parameters, b: Parameters, name: string)
    ensures FirstIn([a, b], name) == if name in a then Some(a[name]) else if name in b then Some(b[name]) else None
  {
    var none: seq<Parameters> := [];
    assert FirstIn(none, name).None? && [b][1..] == none;
    assert FirstIn([b], name) == if name in b then Some(b[name]) else None;
    assert [a, b][1..] == [b];
  }

  lemma {:induction false} ChainSources(node: NodeInfo, parents: seq<NodeInfo>)
    ensures SourcesOf([node] + parents) == [node.parameters, node.generated] + SourcesOf(parents)
  {
    var n := |parents|;
    if n == 0 {
      assert [node] + parents == [node];
      assert SourcesOf([node][..0]) == [];
    } else {
      ChainSources(node, parents[..n-1]);
      assert ([node] + parents)[..n] == [node] + parents[..n-1];
    }
  }

  lemma SourceStep(chain: seq<NodeInfo>, k: nat, name: string)
    requires k < |chain|
    ensures FirstIn(SourcesOf(chain[..k+1]), name) ==
            if FirstIn(SourcesOf(chain[..k]), name).Some? then FirstIn(SourcesOf(chain[..k]), name)
            else if name in chain[k].parameters then Some(chain[k].parameters[name])
            else if name in chain[k].generated then Some(chain[k].generated[name]) else None
  {
    assert chain[..k+1][..k] == chain[..k];
    var two := [chain[k].parameters, chain[k].generated];
    FirstInAppend(SourcesOf(chain[..k]), two, name);
    FirstOfTwo(chain[k].parameters, chain[k].generated, name);
  }

  /** Once a prefix of the chain has decided, the rest does not matter. */
  lemma {:induction false} SourcePrefix(chain: seq<NodeInfo>, k: nat, last: seq<Parameters>, name: string)
    requires k <= |chain|
    ensures FirstIn(SourcesOf(chain[..k]), name).Some? ==>
              FirstIn(SourcesOf(chain) + last, name) == FirstIn(SourcesOf(chain[..k]), name)
  {
    FirstInAppend(SourcesOf(chain), last, name);
    SourceGrows(chain, k, name);
  }

  lemma {:induction false} SourceGrows(chain: seq<NodeInfo>, k: nat, name: string)
    requires k <= |chain|
    ensures FirstIn(SourcesOf(chain[..k]), name).Some? ==>
              FirstIn(SourcesOf(chain), name) == FirstIn(SourcesOf(chain[..k]), name)
    decreases |chain| - k
  {
    if k < |chain| {
      SourceStep(chain, k, name);
      SourceGrows(chain, k + 1, name);
    } else {
      assert chain[..k] == chain;
    }
  }

  /** What has been collected: for each name not owned, the text of the first source that has it. */
  ghost predicate Collected(result: map<string, string>, seen: set<string>, own: set<string>,
                            sources: seq<Parameters>) {
    && (forall name :: name in seen <==> name in own || FirstIn(sources, name).Some?)
    && (forall name :: name in result <==> name !in own && FirstIn(sources, name).Some?)
    && (forall name | name in result ::
          FirstIn(sources, name).Some? && result[name] == FirstIn(sources, name).value.Text())
  }

  /** One source: its names that nobody nearer has used. */
  method AddSource(result: map<string, string>, seen: set<string>, source: Parameters, ghost own: set<string>,
                   ghost sources: seq<Parameters>)
    returns (more: map<string, string>, known: set<string>)
    requires Collected(result, seen, own, sources)
    ensures Collected(more, known, own, sources + [source])
  {
    more, known := result, seen;
    var todo := source.Keys;
    while todo != {}
      invariant todo <= source.Keys
      invariant forall name :: name in known <==> name in seen || (name in source && name !in todo)
      invariant forall name :: name in more <==> name in result || (name in source && name !in todo && name !in seen)
      invariant forall name | name in more ::
                  if name in result then more[name] == result[name] else more[name] == source[name].Text()
      decreases |todo|
    {
      var name :| name in todo;
      if name !in known {
        more := more[name := source[name].Text()];
        known := known + {name};
      }
      todo := todo - {name};
    }
    forall name
      ensures FirstIn(sources + [source], name) ==
              if FirstIn(sources, name).Some? then FirstIn(sources, name)
              else if name in source then Some(source[name])
              else None
    {
      FirstInAppend(sources, [source], name);
    }
  }

  /**
   `inherited_parameters`: exactly the names the node does not own and that `resolve_parameter` finds for
   it, each with the text of the value found.
   */
  method InheritedParameters(s: Snapshot, path: string) returns (result: map<string, string>)
    requires Rooted(s.nodes)
    ensures path !in s.nodes ==> result == map[]
    ensures path in s.nodes ==>
              var own := s.nodes[path].parameters.Keys + s.nodes[path].generated.Keys;
              && (forall name :: name in result <==> name !in own && FirstIn(Inheritable(s, path), name).Some?)
              && (forall name | name in result ::
                    FirstIn(Inheritable(s, path), name).Some?
                    && result[name] == FirstIn(Inheritable(s, path), name).value.Text())
  {
    hide Rooted;
    result := map[];
    if path !in s.nodes {
      return;
    }
    var node := s.nodes[path];
    var own := node.parameters.Keys + node.generated.Keys;
    var seen := own;
    var parents := ParentsOf(s.nodes, path);
    CollectedStart(own);
    hide Collected, FirstIn;
    for k := 0 to |parents|
      invariant Collected(result, seen, own, SourcesOf(parents[..k]))
    {
      ghost var before := SourcesOf(parents[..k]);
      result, seen := AddSource(result, seen, parents[k].parameters, own, before);
      result, seen := AddSource(result, seen, parents[k].generated, own, before + [parents[k].parameters]);
      assert parents[..k+1][..k] == parents[..k];
      assert SourcesOf(parents[..k+1]) == before + [parents[k].parameters] + [parents[k].generated];
    }
    assert parents[..|parents|] == parents;
    ghost var above := SourcesOf(parents);
    result, seen := AddSource(result, seen, s.rootParameters, own, above);
    result, seen := AddSource(result, seen, s.serverGenerated, own, above + [s.rootParameters]);
    assert above + [s.rootParameters] + [s.serverGenerated] == Inheritable(s, path);
    CollectedEnd(result, seen, own, Inheritable(s, path));
  }

  lemma CollectedStart(own: set<string>)
    ensures Collected(map[], own, own, SourcesOf([]))
  {
  }

  lemma CollectedEnd(result: map<string, string>, seen: set<string>, own: set<string>, sources: seq<Parameters>)
    requires Collected(result, seen, own, sources)
    ensures forall name :: name in result <==> name !in own && FirstIn(sources, name).Some?
    ensures forall name | name in result ::
              FirstIn(sources, name).Some? && result[name] == FirstIn(sources, name).value.Text()
  {
  }

  /** The two look-ups agree: for a name a node does not own, resolving is inheriting. */
  lemma LookupsAgree(s: Snapshot, path: string, name: string)
    requires path in s.nodes
    ensures var node := s.nodes[path];
            var resolved := FirstIn([node.parameters, node.generated] + Inheritable(s, path), name);
            if name in node.parameters then resolved == Some(node.parameters[name])
            else if name in node.generated then resolved == Some(node.generated[name])
            else resolved == FirstIn(Inheritable(s, path), name)
  {
  }
}
