/** Paths as the receiver checks them: strings with slashes, and the segment lists they stand for. */
module TreePaths {
  import opened Common

  // ----- strings -----

  predicate StartsWith(s: string, t: string) { |t| <= |s| && s[..|t|] == t }

  /** `split('/')`: one piece more than there are slashes. */
  function Split(s: string): (r: seq<string>)
    ensures |r| >= 1
  {
    if s == "" then [""]
    else if s[0] == '/' then [""] + Split(s[1..])
    else
      var rest := Split(s[1..]);
      [[s[0]] + rest[0]] + rest[1..]
  }

  function Slashes(s: string): nat {
    if s == "" then 0 else (if s[0] == '/' then 1 else 0) + Slashes(s[1..])
  }

  /** `trim_end_matches('/')`. */
  function TrimEnd(s: string): string {
    if s != "" && s[|s|-1] == '/' then TrimEnd(s[..|s|-1]) else s
  }

  /** What precedes the last slash; None without one. */
  function BeforeLast(s: string): Option<string> {
    if s == "" then None
    else if s[|s|-1] == '/' then Some(s[..|s|-1])
    else BeforeLast(s[..|s|-1])
  }

  // ----- valid paths -----

  predicate GoodSegment(s: string) {
    s != "" && s != "." && s != ".." && forall i | 0 <= i < |s| :: s[i] > 0x1f as char
  }

  predicate PathValid(p: string) {
    || p == "/"
    || (StartsWith(p, "/") && p[|p|-1] != '/' && forall i | 0 <= i < |Split(p[1..])| :: GoodSegment(Split(p[1..])[i]))
  }

  /** The segments of a path, root first. */
  function Segments(p: string): seq<string> { if p == "" || p == "/" then [] else Split(p[1..]) }

  /** Each segment after a slash; empty for the root. */
  function Render(segs: seq<string>): string { if segs == [] then "" else "/" + (segs[0] + Render(segs[1..])) }

  function Joined(segs: seq<string>): string
    requires segs != []
  {
    segs[0] + Render(segs[1..])
  }

  predicate Plain(segs: seq<string>) {
    forall i | 0 <= i < |segs| :: segs[i] != "" && '/' !in segs[i]
  }

  lemma {:induction false} SplitPlain(s: string)
    ensures forall i | 0 <= i < |Split(s)| :: '/' !in Split(s)[i]
  {
    if s != "" { SplitPlain(s[1..]); }
  }

  /** Splitting at the slashes and joining again gives the string back. */
  lemma {:induction false} SplitJoined(s: string)
    ensures Joined(Split(s)) == s
  {
    if s != "" {
      SplitJoined(s[1..]);
      var rest, whole := Split(s[1..]), Split(s);
      assert s == [s[0]] + s[1..];
      if s[0] == '/' {
        assert whole[1..] == rest;
      } else {
        assert whole[1..] == rest[1..];
        JoinedChar(s[0], rest);
      }
    }
  }

  lemma JoinedChar(c: char, rest: seq<string>)
    requires rest != []
    ensures Joined([[c] + rest[0]] + rest[1..]) == [c] + Joined(rest)
  {
  }

  lemma Associative(a: string, b: string, c: string)
    ensures (a + b) + c == a + (b + c)
  {
  }

  /** A valid path is the rendering of its segments, and those contain no slash. */
  lemma ValidRender(p: string)
    requires PathValid(p)
    ensures Plain(Segments(p)) && p == (if Segments(p) == [] then "/" else Render(Segments(p)))
    ensures Segments(p) == [] <==> p == "/"
  {
    if p != "/" {
      SplitJoined(p[1..]);
      SplitPlain(p[1..]);
      assert p == "/" + p[1..];
    }
  }

  lemma {:induction false} SegmentsRender(segs: seq<string>)
    requires Plain(segs) && segs != []
    ensures Segments(Render(segs)) == segs && Render(segs) != "/"
  {
    var tail := Render(segs)[1..];
    assert tail == segs[0] + Render(segs[1..]);
    SplitFirst(segs[0], segs[1..]);
    assert segs == [segs[0]] + segs[1..];
  }

  lemma {:induction false} SplitFirst(s: string, rest: seq<string>)
    requires '/' !in s && Plain(rest)
    ensures Split(s + Render(rest)) == [s] + rest
    decreases |rest|, |s|
  {
    if s == "" {
      if rest != [] {
        var whole := s + Render(rest);
        assert whole[1..] == rest[0] + Render(rest[1..]);
        SplitFirst(rest[0], rest[1..]);
        assert rest == [rest[0]] + rest[1..];
      }
    } else {
      SplitFirst(s[1..], rest);
      assert (s + Render(rest))[1..] == s[1..] + Render(rest);
      assert s[0] in s && s == [s[0]] + s[1..];
    }
  }

  // ----- the receiver's string tests, as facts about segments -----

  lemma {:induction false} SlashCount(segs: seq<string>)
    requires Plain(segs)
    ensures Slashes(Render(segs)) == |segs|
  {
    if segs != [] {
      SlashCount(segs[1..]);
      SlashesAppend("/", segs[0] + Render(segs[1..]));
      SlashesAppend(segs[0], Render(segs[1..]));
      NoSlashes(segs[0]);
    }
  }

  lemma {:induction false} SlashesAppend(a: string, b: string)
    ensures Slashes(a + b) == Slashes(a) + Slashes(b)
  {
    if a == "" {
      assert a + b == b;
    } else {
      SlashesAppend(a[1..], b);
      assert (a + b)[1..] == a[1..] + b;
    }
  }

  lemma {:induction false} NoSlashes(s: string)
    requires '/' !in s
    ensures Slashes(s) == 0 && BeforeLast(s).None? && TrimEnd(s) == s
  {
    if s != "" {
      NoSlashes(s[1..]);
      BeforeLastOf("", s);
    }
  }

  /** The last slash is the one before a piece without slashes. */
  lemma {:induction false} BeforeLastOf(a: string, s: string)
    requires '/' !in s
    ensures BeforeLast(a + "/" + s) == Some(a)
    ensures BeforeLast(s).None?
    decreases |s|
  {
    if s == "" {
      assert (a + "/" + s)[..|a|] == a;
    } else {
      var n := |s| - 1;
      BeforeLastOf(a, s[..n]);
      assert (a + "/" + s)[..|a| + 1 + n] == a + "/" + s[..n];
    }
  }

  lemma FirstPlain(s: string)
    requires '/' !in s
    ensures s == "" || s[0] != '/'
  {
  }

  /** Two names followed by a slash or the end agree as soon as one begins the other. */
  lemma {:induction false} SameName(x: string, y: string, a: string, b: string)
    requires '/' !in x && '/' !in y && a != "" && a[0] == '/' && (b == "" || b[0] == '/')
    requires StartsWith(y + b, x + a)
    ensures x == y && StartsWith(b, a)
  {
    if x == "" {
      assert (y + b)[0] == (x + a)[0];
      FirstPlain(y);
      assert y + b == b && x + a == a;
    } else {
      assert (y + b)[0] == (x + a)[0] == x[0];
      assert x[0] in x;
      assert y != "";
      assert (y + b)[1..] == y[1..] + b && (x + a)[1..] == x[1..] + a;
      assert (y + b)[..|x + a|][1..] == (y[1..] + b)[..|x[1..] + a|];
      SameName(x[1..], y[1..], a, b);
      assert x == [x[0]] + x[1..] && y == [y[0]] + y[1..];
    }
  }

  /** The string-prefix test is the descendant relation on segments. */
  lemma {:induction false} PrefixIsDescendant(a: seq<string>, b: seq<string>)
    requires Plain(a) && Plain(b)
    ensures StartsWith(Render(b), Render(a) + "/") <==> a < b
  {
    if a == [] {
      if b != [] { assert Render(b)[..1] == "/"; }
    } else if b != [] {
      PrefixIsDescendant(a[1..], b[1..]);
      var x, y, ra, rb := a[0], b[0], Render(a[1..]) + "/", Render(b[1..]);
      assert Render(a) + "/" == "/" + (x + ra) && Render(b) == "/" + (y + rb);
      assert a == [x] + a[1..] && b == [y] + b[1..];
      if StartsWith(Render(b), Render(a) + "/") {
        assert (y + rb)[..|x + ra|] == x + ra by {
          assert Render(b)[..|Render(a) + "/"|][1..] == (y + rb)[..|x + ra|];
          assert (Render(a) + "/")[1..] == x + ra;
        }
        SameName(x, y, ra, rb);
      }
      if a < b {
        assert a[1..] < b[1..];
        assert x == y;
        assert Render(b)[..|Render(a) + "/"|] == "/" + x + rb[..|ra|];
      }
    }
  }

  /** A valid scope, trimmed and with a slash added, is the rendering of its segments and a slash. */
  lemma ScopePrefix(scope: string)
    requires PathValid(scope)
    ensures TrimEnd(scope) == Render(Segments(scope))
  {
    ValidRender(scope);
    if scope == "/" { assert TrimEnd(scope[..0]) == ""; }
  }

  function Parent(p: string): string {
    match BeforeLast(p)
    case None => "/"
    case Some(q) => if q == "" then "/" else q
  }

  lemma {:induction false} RenderLast(segs: seq<string>)
    requires segs != []
    ensures Render(segs) == Render(segs[..|segs|-1]) + "/" + segs[|segs|-1]
  {
    var n := |segs| - 1;
    if n > 0 {
      RenderLast(segs[1..]);
      assert segs[1..][..n-1] == segs[..n][1..];
      var front, last := Render(segs[..n][1..]), "/" + segs[n];
      assert Render(segs[1..]) == front + last;
      Associative(segs[0], front, last);
      Associative("/", segs[0] + front, last);
      Associative(Render(segs[..n]), "/", segs[n]);
    }
  }

  lemma {:induction false} RenderEmpty(segs: seq<string>)
    ensures Render(segs) == "" <==> segs == []
  {
  }

  /** The parent has all segments but the last. */
  lemma ParentSegments(p: string)
    requires PathValid(p) && p != "/"
    ensures BeforeLast(p).Some? && PathValid(Parent(p))
    ensures Segments(Parent(p)) == Segments(p)[..|Segments(p)|-1]
    ensures Segments(p) != []
  {
    hide Render, Split, BeforeLast, GoodSegment;
    ValidRender(p);
    var segs := Segments(p);
    var init := segs[..|segs|-1];
    RenderLast(segs);
    BeforeLastOf(Render(init), segs[|segs|-1]);
    RenderEmpty(init);
    if init != [] {
      SegmentsRender(init);
      RenderValid(p, init);
    }
  }

  lemma RenderValid(p: string, init: seq<string>)
    requires PathValid(p) && init != [] && init <= Segments(p)
    ensures PathValid(Render(init))
  {
    hide Split;
    ValidRender(p);
    SegmentsRender(init);
    RenderLast(init);
    var last := init[|init|-1];
    assert Render(init)[|Render(init)|-1] == last[|last|-1];
    assert last[|last|-1] in last;
    assert Split(Render(init)[1..]) == init;
    assert forall i | 0 <= i < |init| :: init[i] == Segments(p)[i];
  }

  lemma DepthIsSlashes(p: string)
    requires PathValid(p)
    ensures (if p == "/" then 0 else Slashes(p)) == |Segments(p)|
  {
    ValidRender(p);
    SlashCount(Segments(p));
  }

  lemma SegmentsInjective(p: string, q: string)
    requires PathValid(p) && PathValid(q) && Segments(p) == Segments(q)
    ensures p == q
  {
    ValidRender(p);
    ValidRender(q);
  }
}
