/**
 * The include graph of a workspace and the order in which include chains are met.
 *
 * A chain is a list of positions: the first picks a per-directory candidate, each later
 * one picks an `@include` line of the file reached so far.  Chains are compared
 * lexicographically, which is the order in which a depth-first loader meets them.
 */
module InstructionGraph {
  import opened Options

  type Path = string
  type Chain = seq<nat>

  /** Where a requested path leads once it is inspected and canonicalised. */
  datatype Request = Symlink | Escaping | Inside(path: Path)

  /** The value of an include line: unusable text, an absolute path, or a relative request. */
  datatype Import = Malformed | Absolute | Relative(request: Request)

  datatype Line = Include(target: Import) | Text(text: string)

  datatype Entry = Unreadable | Regular(size: nat, utf8: bool, lines: seq<Line>)

  datatype Root = Root(scope: Path, isOverride: bool, request: Request)

  datatype Limits = Limits(maxFileBytes: nat, maxTotalBytes: nat, maxFiles: nat,
                           maxDirectoryDepth: nat, maxImportDepth: nat)

  datatype Source = Source(path: Path, scope: Path, isOverride: bool, importDepth: nat,
                           body: seq<string>)

  function Imports(lines: seq<Line>): seq<Import> {
    if lines == [] then []
    else (if lines[0].Include? then [lines[0].target] else []) + Imports(lines[1..])
  }

  function Body(lines: seq<Line>): seq<string> {
    if lines == [] then []
    else (if lines[0].Text? then [lines[0].text] else []) + Body(lines[1..])
  }

  lemma {:induction false} ImportsAppend(a: seq<Line>, b: seq<Line>)
    ensures Imports(a + b) == Imports(a) + Imports(b)
  {
    if a == [] {
      assert a + b == b;
    } else {
      assert (a + b)[1..] == a[1..] + b;
      ImportsAppend(a[1..], b);
    }
  }

  lemma {:induction false} BodyAppend(a: seq<Line>, b: seq<Line>)
    ensures Body(a + b) == Body(a) + Body(b)
  {
    if a == [] {
      assert a + b == b;
    } else {
      assert (a + b)[1..] == a[1..] + b;
      BodyAppend(a[1..], b);
    }
  }

  /** Include lines and body lines are told apart one by one, each kind keeping its order. */
  lemma LinesAreSorted(a: seq<Line>, b: seq<Line>, i: Import, t: string)
    ensures Imports(a + b) == Imports(a) + Imports(b) && Body(a + b) == Body(a) + Body(b)
    ensures Imports([Include(i)]) == [i] && Body([Include(i)]) == []
    ensures Imports([Text(t)]) == [] && Body([Text(t)]) == [t]
  {
    ImportsAppend(a, b);
    BodyAppend(a, b);
  }

  // ----- Lexicographic order of chains -----

  ghost predicate SplitsAt(d: Chain, c: Chain, k: nat) {
    k <= |d| && k < |c| && d[..k] == c[..k] && (k == |d| || d[k] < c[k])
  }

  /** d comes strictly before c; a proper prefix comes before its extensions. */
  ghost predicate Before(d: Chain, c: Chain) {
    exists k: nat :: SplitsAt(d, c, k)
  }

  lemma {:induction false} BeforeTotal(d: Chain, c: Chain)
    requires d != c
    ensures Before(d, c) || Before(c, d)
    decreases |d|
  {
    if d == [] {
      assert SplitsAt(d, c, 0);
    } else if c == [] {
      assert SplitsAt(c, d, 0);
    } else if d[0] < c[0] {
      assert SplitsAt(d, c, 0);
    } else if c[0] < d[0] {
      assert SplitsAt(c, d, 0);
    } else {
      assert d == [d[0]] + d[1..] && c == [c[0]] + c[1..];
      BeforeTotal(d[1..], c[1..]);
      if Before(d[1..], c[1..]) {
        var k: nat :| SplitsAt(d[1..], c[1..], k);
        assert d[..k + 1] == [d[0]] + d[1..][..k] && c[..k + 1] == [c[0]] + c[1..][..k];
        assert SplitsAt(d, c, k + 1);
      } else {
        var k: nat :| SplitsAt(c[1..], d[1..], k);
        assert d[..k + 1] == [d[0]] + d[1..][..k] && c[..k + 1] == [c[0]] + c[1..][..k];
        assert SplitsAt(c, d, k + 1);
      }
    }
  }

  lemma BeforeExtension(d: Chain, c: Chain, n: nat)
    requires d == c || Before(d, c)
    ensures Before(d, c + [n])
  {
    if d == c {
      assert SplitsAt(d, c + [n], |c|);
    } else {
      var k: nat :| SplitsAt(d, c, k);
      assert (c + [n])[..k] == c[..k];
      assert SplitsAt(d, c + [n], k);
    }
  }

  /** Whatever comes before stack + [n] + ... still comes before the next sibling. */
  lemma BeforeSibling(d: Chain, stack: Chain, n: nat, m: nat)
    requires Before(d, stack + [n] + [m])
    ensures Before(d, stack + [n + 1])
  {
    var c, e := stack + [n] + [m], stack + [n + 1];
    var k: nat :| SplitsAt(d, c, k);
    if k < |stack| {
      assert c[..k] == stack[..k] == e[..k];
      assert SplitsAt(d, e, k);
    } else {
      assert c[..k][..|stack|] == stack;
      assert d[..k][..|stack|] == d[..|stack|] == stack == e[..|stack|];
      assert SplitsAt(d, e, |stack|) by {
        if k > |stack| {
          assert d[..k][|stack|] == c[..k][|stack|] == n;
        }
      }
    }
  }

  lemma BeforeNext(d: Chain, stack: Chain, n: nat)
    requires Before(d, stack + [n])
    ensures Before(d, stack + [n + 1])
  {
    var c, e := stack + [n], stack + [n + 1];
    var k: nat :| SplitsAt(d, c, k);
    assert c[..k] == stack[..k] == e[..k];
    assert SplitsAt(d, e, k);
  }

  // ----- Sizes of sets of files -----

  ghost function Size(ws: map<Path, Entry>, p: Path): nat {
    if p in ws && ws[p].Regular? then ws[p].size else 0
  }

  ghost function Total(ws: map<Path, Entry>, s: set<Path>): nat {
    if s == {} then 0
    else var p :| p in s; Size(ws, p) + Total(ws, s - {p})
  }

  lemma {:induction false} TotalAdd(ws: map<Path, Entry>, s: set<Path>, p: Path)
    requires p !in s
    ensures Total(ws, s + {p}) == Total(ws, s) + Size(ws, p)
    decreases |s|
  {
    var t := s + {p};
    var q :| q in t && Total(ws, t) == Size(ws, q) + Total(ws, t - {q});
    if q == p {
      assert t - {q} == s;
    } else {
      assert t - {q} == (s - {q}) + {p};
      TotalAdd(ws, s - {q}, p);
      assert (s - {q}) + {q} == s;
      TotalAdd(ws, s - {q}, q);
    }
  }

  lemma {:induction false} TotalMonotone(ws: map<Path, Entry>, s: set<Path>, t: set<Path>)
    requires s <= t
    ensures Total(ws, s) <= Total(ws, t)
    ensures |s| <= |t|
    decreases |t - s|
  {
    if s != t {
      assert !(t <= s);
      var p :| p in t && p !in s;
      assert t - (s + {p}) == (t - s) - {p};
      TotalMonotone(ws, s + {p}, t);
      TotalAdd(ws, s, p);
    }
  }

  // ----- What chains reach -----

  datatype Project = Project(ws: map<Path, Entry>, roots: seq<Root>, limits: Limits) {

    function Includes(p: Path): seq<Import> {
      if p in ws && ws[p].Regular? && ws[p].utf8 then Imports(ws[p].lines) else []
    }

    predicate Good(p: Path) {
      p in ws && ws[p].Regular? && ws[p].utf8 && ws[p].size <= limits.maxFileBytes
    }

    /** The import found by following a chain, if every step of it exists. */
    ghost function Ask(c: Chain): Option<Import>
      decreases |c|
    {
      if c == [] then None
      else if |c| == 1 then
        if c[0] < |roots| then Some(Relative(roots[c[0]].request)) else None
      else
        var last := c[|c| - 1];
        match Ask(c[..|c| - 1])
        case Some(Relative(Inside(p))) =>
          if last < |Includes(p)| then Some(Includes(p)[last]) else None
        case _ => None
    }

    ghost predicate Reaches(c: Chain, p: Path) {
      Ask(c) == Some(Relative(Inside(p)))
    }

    ghost predicate IsReached(p: Path) {
      exists c: Chain :: Reaches(c, p)
    }

    ghost function Reached(): set<Path> {
      set p | p in ws.Keys && IsReached(p)
    }

    /** c is the first chain, in depth-first order, that reaches p. */
    ghost predicate FirstTo(c: Chain, p: Path) {
      Reaches(c, p) && forall d :: Before(d, c) ==> !Reaches(d, p)
    }

    // The conditions under which a load succeeds.

    ghost predicate AllReadable() {
      forall c: Chain :: Ask(c).Some? ==>
        Ask(c).value.Relative? && Ask(c).value.request.Inside? && Good(Ask(c).value.request.path)
    }

    ghost predicate CycleOn(c: Chain, d: Chain, p: Path) {
      c < d && Reaches(c, p) && Reaches(d, p)
    }

    /** No include chain passes through the same file twice. */
    ghost predicate Acyclic() {
      forall c: Chain, d: Chain, p :: !CycleOn(c, d, p)
    }

    ghost predicate FewEnough() {
      |Reached()| <= limits.maxFiles && Total(ws, Reached()) <= limits.maxTotalBytes
    }

    /** A file that includes something is first met strictly above the depth limit. */
    ghost predicate ShallowEnough() {
      forall c: Chain, p :: FirstTo(c, p) && Includes(p) != [] ==> |c| <= limits.maxImportDepth
    }

    ghost predicate Loadable() {
      AllReadable() && Acyclic() && FewEnough() && ShallowEnough()
    }

    ghost predicate Describes(c: Chain, s: Source) {
      && FirstTo(c, s.path) && c != [] && c[0] < |roots| && s.path in ws && ws[s.path].Regular?
      && s.scope == roots[c[0]].scope
      && s.isOverride == (|c| == 1 && roots[c[0]].isOverride)
      && s.importDepth == |c| - 1
      && s.body == Body(ws[s.path].lines)
    }

    /** The sources are the reached files, in the order of the first chains that reach them. */
    ghost predicate Listing(chains: seq<Chain>, sources: seq<Source>) {
      && |chains| == |sources|
      && (forall i :: 0 <= i < |sources| ==> Describes(chains[i], sources[i]))
      && (forall i, j :: 0 <= i < j < |chains| ==> Before(chains[i], chains[j]))
    }

    ghost predicate IsLoadOf(sources: seq<Source>) {
      && (exists chains :: Listing(chains, sources))
      && (forall p :: IsReached(p) <==> exists i :: 0 <= i < |sources| && sources[i].path == p)
    }

    lemma AskRoot(c: Chain)
      requires Ask(c).Some?
      ensures c != [] && c[0] < |roots|
      decreases |c|
    {
      if |c| > 1 {
        AskRoot(c[..|c| - 1]);
      }
    }

    lemma AskStep(c: Chain, p: Path, i: nat)
      requires Reaches(c, p)
      ensures Ask(c + [i]) == if i < |Includes(p)| then Some(Includes(p)[i]) else None
    {
      assert (c + [i])[..|c + [i]| - 1] == c;
    }

    lemma FirstUnique(c: Chain, d: Chain, p: Path)
      requires FirstTo(c, p) && FirstTo(d, p)
      ensures c == d
    {
      if c != d { BeforeTotal(c, d); }
    }
  }
}
