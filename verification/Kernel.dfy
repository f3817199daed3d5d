/** The summary receiver: it assembles pages of nodes into one tree view under scope, depth, parent and budget rules. */
module SummaryKernel {
  import opened Common
  import opened TreePaths

  const PAGE_BYTES: nat := 262_144
  const PAGE_NODES: nat := 2048
  const BASE_SIZE: nat := 1024
  const USIZE_MAX: nat := 0xFFFF_FFFF_FFFF_FFFF

  datatype Node = Node(path: string, kind: string, typeId: string, status: string, suspended: bool,
                       attempt: Option<string>, unknown: Option<bool>) {

    function Cost(): nat {
      512 + |path| + |kind| + |typeId| + |status| + (if attempt.Some? then |attempt.value| else 0)
    }

    /** Everything that is checked of a node by itself. */
    predicate Ok() {
      && PathValid(path) && kind in {"bunch", "flow", "container", "task"}
      && status in {"unknown", "queued", "submitted", "active", "complete", "aborted"} && typeId != ""
      && (attempt.Some? ==> kind == "task" && attempt.value != "")
      && (unknown.Some? ==> unknown.value && kind == "task" && status == "submitted" && attempt.Some?)
    }
  }

  datatype Problem = Fallback | DuplicateNode | OutsideScope | OutsideDepth | MissingParent | OverBudget | NoRoot

  /** A decoded page; a node that does not decode is None. */
  datatype Page = Page(kind: string, nodes: seq<Option<Node>>, generations: set<string>)

  function SaturatingAdd(a: nat, b: nat): nat { Min(a + b, USIZE_MAX) }

  /** What the nodes of a view cost together. */
  function TotalCost(nodes: map<string, Node>, order: seq<string>): nat
    requires forall p | p in order :: p in nodes
  {
    if order == [] then 0 else TotalCost(nodes, order[..|order|-1]) + nodes[order[|order|-1]].Cost()
  }

  lemma {:induction false} CostFrame(nodes: map<string, Node>, order: seq<string>, n: Node)
    requires (forall p | p in order :: p in nodes) && n.path !in order
    ensures TotalCost(nodes[n.path := n], order) == TotalCost(nodes, order)
  {
    if order != [] { CostFrame(nodes, order[..|order|-1], n); }
  }

  /** The table once the nodes have been entered under their paths, one after the other. */
  function WithAll(nodes: map<string, Node>, ns: seq<Node>): map<string, Node> {
    if ns == [] then nodes else WithAll(nodes, ns[..|ns|-1])[ns[|ns|-1].path := ns[|ns|-1]]
  }

  function PathsOf(ns: seq<Node>): seq<string> { seq(|ns|, i requires 0 <= i < |ns| => ns[i].path) }

  // ----- the view -----

  /** Levels below the scope. */
  function Levels(scope: string, p: string): int { |Segments(p)| - |Segments(scope)| }

  ghost predicate Within(scope: string, depth: Option<nat>, p: string) {
    && PathValid(p) && Segments(scope) <= Segments(p)
    && (depth.Some? ==> Levels(scope, p) <= depth.value)
  }

  /** Table and order list the same nodes, each once. */
  ghost predicate Listed(nodes: map<string, Node>, order: seq<string>) {
    && (forall i, j | 0 <= i < j < |order| :: order[i] != order[j])
    && (forall p :: p in nodes <==> p in order)
    && (forall p | p in nodes :: nodes[p].path == p)
  }

  ghost predicate ParentBefore(scope: string, order: seq<string>, i: nat)
    requires i < |order|
  {
    order[i] == scope || exists j :: 0 <= j < i && order[j] == Parent(order[i])
  }

  /** Each node once, inside scope and depth, after its parent. */
  ghost predicate View(scope: string, depth: Option<nat>, nodes: map<string, Node>, order: seq<string>) {
    && PathValid(scope) && Listed(nodes, order)
    && (forall i | 0 <= i < |order| :: Within(scope, depth, order[i]))
    && (forall i | 0 <= i < |order| :: ParentBefore(scope, order, i))
  }

  /** The first node of a view is its scope, whatever the pages were. */
  lemma ScopeFirst(scope: string, depth: Option<nat>, nodes: map<string, Node>, order: seq<string>)
    requires View(scope, depth, nodes, order) && order != []
    ensures order[0] == scope
  {
    assert ParentBefore(scope, order, 0);
  }

  /** A node's whole chain of ancestors, up to the scope, appears before it. */
  lemma {:induction false} AncestorsFirst(scope: string, depth: Option<nat>, nodes: map<string, Node>,
                                          order: seq<string>, i: nat, k: nat)
    requires View(scope, depth, nodes, order) && i < |order| && |Segments(scope)| <= k <= |Segments(order[i])|
    ensures exists j :: 0 <= j <= i && Segments(order[j]) == Segments(order[i])[..k]
    decreases i
  {
    hide PathValid, Segments, Parent, Levels;
    var p := order[i];
    assert Within(scope, depth, p);
    RootEmpty();
    if k == |Segments(p)| {
      assert Segments(p)[..k] == Segments(p);
    } else {
      assert p != scope && p != "/";
      ParentSegments(p);
      assert ParentBefore(scope, order, i);
      var j :| 0 <= j < i && order[j] == Parent(p);
      AncestorsFirst(scope, depth, nodes, order, j, k);
      var m :| 0 <= m <= j && Segments(order[m]) == Segments(order[j])[..k];
      assert Segments(order[j])[..k] == Segments(p)[..k];
    }
  }

  function Up(p: string, n: nat): string
    decreases n
  {
    if n == 0 then p else Up(Parent(p), n - 1)
  }

  lemma RootEmpty()
    ensures Segments("/") == []
  {
  }

  /** The levels below the scope are the steps from parent to parent that lead back to it. */
  lemma {:induction false} LevelsAreSteps(scope: string, p: string)
    requires PathValid(scope) && PathValid(p) && Segments(scope) <= Segments(p)
    ensures Levels(scope, p) >= 0 && Up(p, Levels(scope, p)) == scope
    decreases |Segments(p)|
  {
    hide PathValid, Segments, Parent;
    if Levels(scope, p) == 0 {
      assert Segments(scope) == Segments(p);
      SegmentsInjective(scope, p);
    } else {
      RootEmpty();
      ParentSegments(p);
      assert Segments(scope) <= Segments(Parent(p));
      LevelsAreSteps(scope, Parent(p));
    }
  }

  /** A node whose parent is in the view lies in the scope: the scope test adds nothing to the parent test. */
  lemma ParentImpliesScope(scope: string, depth: Option<nat>, nodes: map<string, Node>, order: seq<string>, p: string)
    requires View(scope, depth, nodes, order) && PathValid(p) && p != "/" && Parent(p) in nodes
    ensures Segments(scope) < Segments(p)
  {
    ParentSegments(p);
    assert Within(scope, depth, Parent(p));
  }

  /** The string test used for the scope is the ancestor relation. */
  lemma InScope(scope: string, p: string)
    requires PathValid(scope) && PathValid(p)
    ensures p == scope || StartsWith(p, TrimEnd(scope) + "/") <==> Segments(scope) <= Segments(p)
  {
    hide Split, TrimEnd, Render;
    ScopePrefix(scope);
    ValidRender(scope);
    ValidRender(p);
    PrefixIsDescendant(Segments(scope), Segments(p));
    if p == "/" { RootStarts(scope); }
    if Segments(scope) == Segments(p) { SegmentsInjective(scope, p); }
  }

  lemma RootStarts(scope: string)
    requires PathValid(scope)
    ensures StartsWith("/", TrimEnd(scope) + "/") ==> scope == "/"
  {
  }

  lemma ViewExtended(scope: string, depth: Option<nat>, nodes: map<string, Node>, order: seq<string>, n: Node)
    requires View(scope, depth, nodes, order) && n.path !in nodes && Within(scope, depth, n.path)
    requires n.path == scope || Parent(n.path) in nodes
    ensures View(scope, depth, nodes[n.path := n], order + [n.path])
  {
    hide Within, Parent, PathValid, Listed, ParentBefore;
    ListedExtended(nodes, order, n);
    var after := order + [n.path];
    forall i | 0 <= i < |after| ensures Within(scope, depth, after[i]) && ParentBefore(scope, after, i) {
      if i < |order| {
        assert Within(scope, depth, order[i]) && ParentBefore(scope, order, i);
        EarlierStays(scope, order, n.path, i);
      } else {
        LastHasParent(scope, nodes, order, n.path);
      }
    }
  }

  lemma ListedExtended(nodes: map<string, Node>, order: seq<string>, n: Node)
    requires Listed(nodes, order) && n.path !in nodes
    ensures Listed(nodes[n.path := n], order + [n.path])
  {
  }

  lemma EarlierStays(scope: string, order: seq<string>, p: string, i: nat)
    requires i < |order| && ParentBefore(scope, order, i)
    ensures ParentBefore(scope, order + [p], i)
  {
    hide Parent;
    var after := order + [p];
    if order[i] != scope {
      var j :| 0 <= j < i && order[j] == Parent(order[i]);
      assert after[j] == Parent(after[i]);
    }
  }

  lemma LastHasParent(scope: string, nodes: map<string, Node>, order: seq<string>, p: string)
    requires Listed(nodes, order) && (p == scope || Parent(p) in nodes)
    ensures ParentBefore(scope, order + [p], |order|)
  {
    hide Parent;
    var after := order + [p];
    if p != scope {
      var j :| 0 <= j < |order| && order[j] == Parent(p);
      assert after[j] == Parent(after[|order|]);
    }
  }

  class Kernel {
    const scope: string
    const depth: Option<nat>
    const oldSize: nat
    const limit: nat
    var pending: seq<Node>
    var nodes: map<string, Node>
    var order: seq<string>
    var size: nat
    var nativePages: nat
    var fallbackPages: nat

    ghost predicate Ok()
      reads this
    {
      && View(scope, depth, nodes, order)
      && forall k | 0 <= k < |pending| :: PathValid(pending[k].path)
    }

    /** The size is the exact sum of the nodes in the view, and the budget holds. */
    ghost predicate Exact()
      reads this
    {
      && (forall p | p in order :: p in nodes) && size == BASE_SIZE + TotalCost(nodes, order)
      && (order != [] ==> SaturatingAdd(size, oldSize) <= limit)
    }

    constructor (scope: string, depth: Option<nat>, oldSize: nat, limit: nat)
      requires PathValid(scope)
      ensures Ok() && Exact() && order == []
    {
      this.scope, this.depth, this.oldSize, this.limit := scope, depth, oldSize, limit;
      pending, nodes, order, size := [], map[], [], BASE_SIZE;
      nativePages, fallbackPages := 0, 0;
    }

    /** A page is staged only if every node of it checks out; otherwise nothing is pending. */
    method Prepare(bytes: nat, page: Option<Page>) returns (r: Result<(), Problem>)
      requires Ok()
      modifies this`pending, this`nativePages
      ensures Ok()
      ensures r.Failure? ==> r.error == Fallback && pending == [] && nativePages == old(nativePages)
      ensures r.Success? <==>
                && bytes <= PAGE_BYTES && page.Some? && page.value.kind == "page" && |page.value.nodes| <= PAGE_NODES
                && (forall k | 0 <= k < |page.value.nodes| :: Stageable(page.value, k))
                && (forall i, j | 0 <= i < j < |page.value.nodes| :: Differ(page.value.nodes, i, j))
      ensures r.Success? ==> |pending| == |page.value.nodes| && nativePages == old(nativePages) + 1
      ensures r.Success? ==> forall k | 0 <= k < |pending| :: page.value.nodes[k] == Some(pending[k]) && pending[k].Ok()
    {
      hide View, PathValid, FirstSegment, Node.Ok;
      pending := [];
      if bytes > PAGE_BYTES || page.None? || page.value.kind != "page" || |page.value.nodes| > PAGE_NODES {
        return Failure(Fallback);
      }
      var vals := page.value.nodes;
      var staged: seq<Node> := [];
      var seen: set<string> := {};
      for k := 0 to |vals|
        invariant pending == [] && |staged| == k
        invariant forall j | 0 <= j < k :: vals[j] == Some(staged[j]) && Stageable(page.value, j)
        invariant forall i, j | 0 <= i < j < k :: Differ(vals, i, j)
        invariant forall p :: p in seen <==> exists j :: 0 <= j < k && staged[j].path == p
      {
        if vals[k].None? || !vals[k].value.Ok() {
          assert !Stageable(page.value, k);
          return Failure(Fallback);
        }
        var n := vals[k].value;
        if n.path in seen {
          ghost var j :| 0 <= j < k && staged[j].path == n.path;
          assert !Differ(vals, j, k);
          return Failure(Fallback);
        }
        if n.path != "/" && "/" + FirstSegment(n.path) !in page.value.generations {
          assert !Stageable(page.value, k);
          return Failure(Fallback);
        }
        seen := seen + {n.path};
        staged := staged + [n];
      }
      forall k | 0 <= k < |staged| ensures staged[k].Ok() && PathValid(staged[k].path) {
        assert Stageable(page.value, k);
        OkPath(staged[k]);
      }
      pending := staged;
      nativePages := nativePages + 1;
      return Success(());
    }

    /** Nodes that the original decoder has already validated. */
    method StageValidated(ns: seq<Node>)
      requires Ok() && forall k | 0 <= k < |ns| :: PathValid(ns[k].path)
      modifies this`pending, this`fallbackPages
      ensures Ok() && pending == ns && fallbackPages == old(fallbackPages) + 1
    {
      pending := ns;
      fallbackPages := fallbackPages + 1;
    }

    /** The first objection to a node, in the order of the tests; the size already includes a node over budget. */
    ghost predicate Objects(n: Node, why: Problem)
      reads this
    {
      var inside := PathValid(n.path) && Segments(scope) <= Segments(n.path);
      match why
      case DuplicateNode => n.path in nodes
      case OutsideScope => n.path !in nodes && !inside
      case OutsideDepth => n.path !in nodes && inside && depth.Some? && Levels(scope, n.path) > depth.value
      case MissingParent =>
        n.path !in nodes && Within(scope, depth, n.path) && n.path != scope && Parent(n.path) !in nodes
      case OverBudget =>
        && n.path !in nodes && Within(scope, depth, n.path) && (n.path == scope || Parent(n.path) in nodes)
        && SaturatingAdd(size, oldSize) > limit
      case _ => false
    }

    /**
     One node: the string tests accept exactly what is new, inside scope and depth, below a node of the view
     and within the budget. The level is never negative. A node over budget still counts in the size.
     */
    method Add(n: Node) returns (r: Result<(), Problem>)
      requires Ok() && PathValid(n.path)
      modifies this`nodes, this`order, this`size
      ensures Ok()
      ensures r.Success? <==>
                && n.path !in old(nodes) && Within(scope, depth, n.path)
                && (n.path == scope || Parent(n.path) in old(nodes))
                && SaturatingAdd(old(size) + n.Cost(), oldSize) <= limit
      ensures r.Success? ==>
                nodes == old(nodes)[n.path := n] && order == old(order) + [n.path] && size == old(size) + n.Cost()
      ensures r.Failure? ==> nodes == old(nodes) && order == old(order) && Objects(n, r.error)
      ensures r.Failure? ==> size == if r.error == OverBudget then old(size) + n.Cost() else old(size)
    {
      hide View, PathValid, Split, Render, TrimEnd, StartsWith, BeforeLast, Slashes, Segments;
      assert PathValid(scope) by { ScopeValid(scope, depth, nodes, order); }
      if n.path in nodes {
        return Failure(DuplicateNode);
      }
      InScope(scope, n.path);
      if n.path != scope && !StartsWith(n.path, TrimEnd(scope) + "/") {
        return Failure(OutsideScope);
      }
      DepthIsSlashes(n.path);
      DepthIsSlashes(scope);
      var d := if n.path == "/" then 0 else Slashes(n.path);
      var scopeDepth := if scope == "/" then 0 else Slashes(scope);
      var level: nat := d - scopeDepth;
      if depth.Some? && level > depth.value {
        return Failure(OutsideDepth);
      }
      if n.path != scope && Parent(n.path) !in nodes {
        return Failure(MissingParent);
      }
      size := size + n.Cost();
      if SaturatingAdd(size, oldSize) > limit {
        return Failure(OverBudget);
      }
      ViewExtended(scope, depth, nodes, order, n);
      nodes := nodes[n.path := n];
      order := order + [n.path];
      return Success(());
    }

    /** Takes the pending nodes in order up to the first problem; afterwards nothing is pending. */
    method Append() returns (r: Result<(), Problem>, count: nat)
      requires Ok()
      modifies this`pending, this`nodes, this`order, this`size
      ensures Ok() && pending == []
      ensures count <= |old(pending)| && order == old(order) + PathsOf(old(pending)[..count])
      ensures r.Success? <==> count == |old(pending)|
      ensures r.Failure? ==> Objects(old(pending)[count], r.error)
      ensures nodes == WithAll(old(nodes), old(pending)[..count])
      ensures r.Success? && old(Exact()) ==> Exact()
    {
      hide View, PathValid, Objects, Within, SaturatingAdd, Node.Cost;
      var page := pending;
      pending := [];
      count := 0;
      while count < |page|
        invariant Ok() && pending == [] && 0 <= count <= |page|
        invariant order == old(order) + PathsOf(page[..count])
        invariant old(Exact()) ==> Exact()
        invariant nodes == WithAll(old(nodes), page[..count])
      {
        ghost var before, known := order, nodes;
        r := Add(page[count]);
        if r.Failure? {
          return;
        }
        if old(Exact()) {
          NotListed(scope, depth, known, before, page[count].path);
          CostFrame(known, before, page[count]);
          assert order[..|before|] == before;
        }
        assert page[..count+1][..count] == page[..count];
        assert PathsOf(page[..count+1]) == PathsOf(page[..count]) + [page[count].path];
        count := count + 1;
      }
      return Success(()), count;
    }

    /** The view is complete exactly when it is not empty: its first node is then the scope. */
    method Finish() returns (r: Result<(map<string, Node>, seq<string>, nat), Problem>)
      requires Ok()
      ensures r.Success? <==> order != []
      ensures r.Success? ==> r.value == (nodes, order, size) && r.value.1[0] == scope
    {
      if order != [] { ScopeFirst(scope, depth, nodes, order); }
      if order == [] || order[0] != scope {
        return Failure(NoRoot);
      }
      return Success((nodes, order, size));
    }
  }

  lemma OkPath(n: Node)
    requires n.Ok()
    ensures PathValid(n.path)
  {
  }

  lemma ScopeValid(scope: string, depth: Option<nat>, nodes: map<string, Node>, order: seq<string>)
    requires View(scope, depth, nodes, order)
    ensures PathValid(scope)
  {
  }

  lemma NotListed(scope: string, depth: Option<nat>, nodes: map<string, Node>, order: seq<string>, p: string)
    requires View(scope, depth, nodes, order) && p !in nodes
    ensures p !in order
  {
  }

  /** The flow a path belongs to. */
  function FirstSegment(p: string): string { if |Segments(p)| == 0 then "" else Segments(p)[0] }

  predicate Stageable(page: Page, k: nat)
    requires k < |page.nodes|
  {
    && page.nodes[k].Some? && page.nodes[k].value.Ok()
    && var p := page.nodes[k].value.path;
       p == "/" || "/" + FirstSegment(p) in page.generations
  }

  predicate Differ(ns: seq<Option<Node>>, i: nat, j: nat)
    requires i < |ns| && j < |ns|
  {
    ns[i].Some? && ns[j].Some? ==> ns[i].value.path != ns[j].value.path
  }
}
