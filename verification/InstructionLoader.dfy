/**
 * Loading project instructions: a depth-first walk over include lines that keeps the set
 * of files on the current chain, the set of files already read, and a byte counter.
 */
module InstructionLoader {
  import opened Options
  import opened InstructionGraph

  datatype LoadError =
    | DirectoryTooDeep | ManualFamily
    | ImportTooDeep | SymlinkNotAllowed | PathEscapes | ImportCycle | TooManyFiles
    | ReadFailed | FileTooLarge | TooManyBytes | NotUtf8 | BadImport | AbsoluteImport

  datatype Outcome = Loaded | Failed(error: LoadError)

  datatype Inspection = Refused(error: LoadError) | Repeated | Fresh(entry: Entry)

  datatype Result = Ok(sources: seq<Source>) | Err(error: LoadError)

  // ----- The loader's state as a value, and its invariant -----

  datatype View = View(seen: set<Path>, active: set<Path>, trail: seq<Path>, finished: seq<Path>,
                       chains: seq<Chain>, sources: seq<Source>, total: nat)

  ghost predicate Done(pr: Project, v: View, c: Chain) {
    exists i :: 0 <= i < |v.finished| && pr.Reaches(c, v.finished[i])
  }

  ghost predicate LeadsInto(imports: seq<Import>, files: seq<Path>) {
    forall k :: 0 <= k < |imports| ==>
      imports[k].Relative? && imports[k].request.Inside? && imports[k].request.path in files
  }

  /** Every import of a finished file was finished before it. */
  ghost predicate Ordered(pr: Project, finished: seq<Path>) {
    && (forall i :: 0 <= i < |finished| ==> LeadsInto(pr.Includes(finished[i]), finished[..i]))
    && (forall i, j :: 0 <= i < j < |finished| ==> finished[i] != finished[j])
  }

  /** The trail holds the file at each step of the stack; those are the active files. */
  ghost predicate OnStack(pr: Project, v: View, stack: Chain) {
    && |v.trail| == |stack|
    && (forall k :: 0 <= k < |stack| ==> pr.FirstTo(stack[..k + 1], v.trail[k]))
    && (forall p :: p in v.active <==> p in v.trail)
  }

  /** Everything that branches off to the left of pos is finished. */
  ghost predicate LeftDone(pr: Project, v: View, pos: Chain) {
    forall k, j: nat :: 0 <= k < |pos| && j < pos[k] ==> Done(pr, v, pos[..k] + [j])
  }

  ghost predicate Recorded(pr: Project, v: View, pos: Chain) {
    && pr.Listing(v.chains, v.sources)
    && (forall i :: 0 <= i < |v.chains| ==> Before(v.chains[i], pos))
    && (forall p :: p in v.seen <==> exists i :: 0 <= i < |v.sources| && v.sources[i].path == p)
  }

  ghost predicate WithinLimits(pr: Project, v: View) {
    && v.total == Total(pr.ws, v.seen) <= pr.limits.maxTotalBytes
    && |v.seen| <= pr.limits.maxFiles
    && (forall p :: p in v.seen ==> pr.Good(p))
    && (forall i :: 0 <= i < |v.sources| && i < |v.chains| && v.sources[i].path in v.finished
                    && pr.Includes(v.sources[i].path) != []
                    ==> |v.chains[i]| <= pr.limits.maxImportDepth)
  }

  ghost predicate Walk(pr: Project, v: View, stack: Chain, next: nat) {
    && (forall p :: p in v.seen <==> p in v.active || p in v.finished)
    && (forall p :: p in v.active ==> p !in v.finished)
    && Ordered(pr, v.finished)
    && OnStack(pr, v, stack)
    && LeftDone(pr, v, stack + [next])
  }

  /** The walk stands at the file reached by stack and is about to follow its import number next. */
  ghost predicate Inv(pr: Project, v: View, stack: Chain, next: nat) {
    && Walk(pr, v, stack, next)
    && Recorded(pr, v, stack + [next])
    && WithinLimits(pr, v)
  }

  // ----- Consequences of the invariant -----

  lemma DescendStep(pr: Project, finished: seq<Path>, e: Chain, m: nat, last: nat) returns (j: nat)
    requires Ordered(pr, finished) && m < |finished|
    requires pr.Reaches(e, finished[m]) && pr.Ask(e + [last]).Some?
    ensures j < m && pr.Reaches(e + [last], finished[j])
  {
    pr.AskStep(e, finished[m], last);
    assert LeadsInto(pr.Includes(finished[m]), finished[..m]);
    var imp := pr.Includes(finished[m])[last];
    assert imp.request.path in finished[..m];
    j :| 0 <= j < m && finished[j] == imp.request.path;
  }

  lemma AskedBefore(pr: Project, d: Chain)
    requires |d| > 1 && pr.Ask(d).Some?
    ensures pr.Ask(d[..|d| - 1]).Some?
  {
  }

  /** From a finished file, following imports only meets files finished strictly earlier. */
  lemma {:induction false} Descend(pr: Project, finished: seq<Path>, c: Chain, d: Chain, i: nat) returns (j: nat)
    requires Ordered(pr, finished) && i < |finished|
    requires c <= d && pr.Reaches(c, finished[i]) && pr.Ask(d).Some?
    ensures j <= i && pr.Reaches(d, finished[j]) && (c < d ==> j < i)
    decreases |d| - |c|
  {
    if c == d {
      j := i;
    } else {
      var e, last := d[..|d| - 1], d[|d| - 1];
      PrefixStep(c, d);
      pr.AskRoot(c);
      AskedBefore(pr, d);
      var m := Descend(pr, finished, c, e, i);
      j := DescendStep(pr, finished, e, m, last);
    }
  }

  lemma PrefixStep(c: Chain, d: Chain)
    requires c < d
    ensures c <= d[..|d| - 1] && d[..|d| - 1] + [d[|d| - 1]] == d
  {
  }

  /** Every chain met before the current position leads to a file already read. */
  lemma LeftSeen(pr: Project, v: View, stack: Chain, next: nat, d: Chain) returns (p: Path)
    requires Ordered(pr, v.finished) && OnStack(pr, v, stack) && LeftDone(pr, v, stack + [next])
    requires Before(d, stack + [next]) && pr.Ask(d).Some?
    ensures pr.Reaches(d, p) && (p in v.active || p in v.finished)
  {
    var k: nat :| SplitsAt(d, stack + [next], k);
    if k == |d| {
      PrefixOfStack(d, stack, next);
      pr.AskRoot(d);
      p := Trailing(pr, v, stack, d);
    } else {
      LeftBranch(pr, v, stack + [next], d, k);
      p := Finished(pr, v, d[..k + 1], d);
    }
  }

  lemma PrefixOfStack(d: Chain, stack: Chain, next: nat)
    requires SplitsAt(d, stack + [next], |d|)
    ensures d <= stack
  {
    assert (stack + [next])[..|d|] == stack[..|d|];
  }

  lemma LeftBranch(pr: Project, v: View, pos: Chain, d: Chain, k: nat)
    requires LeftDone(pr, v, pos) && SplitsAt(d, pos, k) && k < |d|
    ensures Done(pr, v, d[..k + 1])
  {
    assert d[..k + 1] == pos[..k] + [d[k]];
  }

  lemma Trailing(pr: Project, v: View, stack: Chain, d: Chain) returns (p: Path)
    requires OnStack(pr, v, stack) && [] < d <= stack
    ensures pr.Reaches(d, p) && p in v.active
  {
    assert d == stack[..|d| - 1 + 1];
    p := v.trail[|d| - 1];
  }

  lemma Finished(pr: Project, v: View, c: Chain, d: Chain) returns (p: Path)
    requires Ordered(pr, v.finished) && Done(pr, v, c) && c <= d && pr.Ask(d).Some?
    ensures pr.Reaches(d, p) && p in v.finished
  {
    var i :| 0 <= i < |v.finished| && pr.Reaches(c, v.finished[i]);
    var j := Descend(pr, v.finished, c, d, i);
    p := v.finished[j];
  }

  lemma FreshIsFirst(pr: Project, v: View, stack: Chain, next: nat, p: Path)
    requires Walk(pr, v, stack, next)
    requires pr.Reaches(stack + [next], p) && p !in v.seen
    ensures pr.FirstTo(stack + [next], p)
  {
    forall d | Before(d, stack + [next]) ensures !pr.Reaches(d, p) {
      if pr.Reaches(d, p) {
        var q := LeftSeen(pr, v, stack, next, d);
      }
    }
  }

  // ----- The three moves of the walk -----

  ghost function Push(pr: Project, v: View, c: Chain, p: Path, s: Source): View {
    View(v.seen + {p}, v.active + {p}, v.trail + [p], v.finished, v.chains + [c], v.sources + [s], v.total + Size(pr.ws, p))
  }

  ghost function Pop(v: View, p: Path): View
    requires v.trail != []
  {
    v.(active := v.active - {p}, trail := v.trail[..|v.trail| - 1], finished := v.finished + [p])
  }

  lemma DoneGrows(pr: Project, v: View, w: View, c: Chain)
    requires Done(pr, v, c) && v.finished <= w.finished
    ensures Done(pr, w, c)
  {
    var i :| 0 <= i < |v.finished| && pr.Reaches(c, v.finished[i]);
    assert w.finished[i] == v.finished[i];
  }

  lemma LeftDoneChild(pr: Project, v: View, w: View, pos: Chain)
    requires LeftDone(pr, v, pos) && w.finished == v.finished
    ensures LeftDone(pr, w, pos + [0])
  {
    forall k, j: nat | 0 <= k < |pos + [0]| && j < (pos + [0])[k]
      ensures Done(pr, w, (pos + [0])[..k] + [j])
    {
      assert (pos + [0])[..k] == pos[..k];
      DoneGrows(pr, v, w, pos[..k] + [j]);
    }
  }

  lemma LeftDoneBelow(pr: Project, v: View, w: View, stack: Chain, next: nat, k: nat, j: nat)
    requires LeftDone(pr, v, stack + [next]) && v.finished <= w.finished
    requires k <= |stack| && j < (stack + [next])[k]
    ensures Done(pr, w, stack[..k] + [j])
  {
    var pos := stack + [next];
    assert pos[..k] == stack[..k];
    assert Done(pr, v, pos[..k] + [j]);
    DoneGrows(pr, v, w, stack[..k] + [j]);
  }

  lemma LeftDoneNext(pr: Project, v: View, w: View, stack: Chain, next: nat)
    requires LeftDone(pr, v, stack + [next]) && v.finished <= w.finished
    requires Done(pr, w, stack + [next])
    ensures LeftDone(pr, w, stack + [next + 1])
  {
    var nxt := stack + [next + 1];
    forall k, j: nat | 0 <= k < |nxt| && j < nxt[k] ensures Done(pr, w, nxt[..k] + [j]) {
      assert nxt[..k] == stack[..k];
      LeftDoneAt(pr, v, w, stack, next, k, j);
    }
  }

  lemma LeftDoneAt(pr: Project, v: View, w: View, stack: Chain, next: nat, k: nat, j: nat)
    requires LeftDone(pr, v, stack + [next]) && v.finished <= w.finished && Done(pr, w, stack + [next])
    requires k <= |stack| && j < (stack + [next + 1])[k]
    ensures Done(pr, w, stack[..k] + [j])
  {
    if k < |stack| || j < next {
      LeftDoneBelow(pr, v, w, stack, next, k, j);
    } else {
      assert stack[..k] == stack;
    }
  }

  lemma OnStackPush(pr: Project, v: View, w: View, stack: Chain, next: nat, p: Path)
    requires OnStack(pr, v, stack) && pr.FirstTo(stack + [next], p)
    requires w.active == v.active + {p} && w.trail == v.trail + [p]
    ensures OnStack(pr, w, stack + [next])
  {
    var c := stack + [next];
    forall k | 0 <= k < |c| ensures pr.FirstTo(c[..k + 1], w.trail[k]) {
      assert c[..k + 1] == if k == |stack| then c else stack[..k + 1];
    }
  }

  lemma ListingPush(pr: Project, chains: seq<Chain>, sources: seq<Source>, c: Chain, s: Source)
    requires pr.Listing(chains, sources) && pr.Describes(c, s)
    requires forall i :: 0 <= i < |chains| ==> Before(chains[i], c)
    ensures pr.Listing(chains + [c], sources + [s])
  {
  }

  lemma SeenPush(seen: set<Path>, sources: seq<Source>, s: Source)
    requires forall p :: p in seen <==> exists i :: 0 <= i < |sources| && sources[i].path == p
    ensures forall p :: p in seen + {s.path} <==> exists i :: 0 <= i < |sources + [s]| && (sources + [s])[i].path == p
  {
    var more := sources + [s];
    assert more[|sources|].path == s.path;
    forall p | p in seen ensures exists i :: 0 <= i < |more| && more[i].path == p {
      var i :| 0 <= i < |sources| && sources[i].path == p;
      assert more[i].path == p;
    }
  }

  lemma RecordedPush(pr: Project, v: View, c: Chain, p: Path, s: Source)
    requires Recorded(pr, v, c) && pr.Describes(c, s) && s.path == p
    ensures Recorded(pr, Push(pr, v, c, p, s), c + [0])
  {
    var chains := v.chains + [c];
    ListingPush(pr, v.chains, v.sources, c, s);
    SeenPush(v.seen, v.sources, s);
    forall i | 0 <= i < |chains| ensures Before(chains[i], c + [0]) {
      BeforeExtension(chains[i], c, 0);
    }
  }

  lemma PushWalk(pr: Project, v: View, stack: Chain, next: nat, p: Path, s: Source)
    requires Walk(pr, v, stack, next)
    requires pr.FirstTo(stack + [next], p) && p !in v.seen
    ensures Walk(pr, Push(pr, v, stack + [next], p, s), stack + [next], 0)
  {
    var w := Push(pr, v, stack + [next], p, s);
    OnStackPush(pr, v, w, stack, next, p);
    LeftDoneChild(pr, v, w, stack + [next]);
  }

  lemma PushLimits(pr: Project, v: View, c: Chain, p: Path, s: Source)
    requires WithinLimits(pr, v) && |v.sources| == |v.chains|
    requires s.path == p && p !in v.seen && p !in v.finished && pr.Good(p)
    requires |v.seen| < pr.limits.maxFiles && v.total + Size(pr.ws, p) <= pr.limits.maxTotalBytes
    ensures WithinLimits(pr, Push(pr, v, c, p, s))
  {
    TotalAdd(pr.ws, v.seen, p);
  }

  lemma PushKeeps(pr: Project, v: View, stack: Chain, next: nat, p: Path, s: Source)
    requires Inv(pr, v, stack, next)
    requires pr.Describes(stack + [next], s) && s.path == p
    requires p !in v.seen && pr.Good(p)
    requires |v.seen| < pr.limits.maxFiles && v.total + Size(pr.ws, p) <= pr.limits.maxTotalBytes
    ensures Inv(pr, Push(pr, v, stack + [next], p, s), stack + [next], 0)
  {
    PushWalk(pr, v, stack, next, p, s);
    RecordedPush(pr, v, stack + [next], p, s);
    PushLimits(pr, v, stack + [next], p, s);
  }

  lemma OnStackPop(pr: Project, v: View, w: View, stack: Chain, next: nat, p: Path)
    requires OnStack(pr, v, stack + [next]) && pr.FirstTo(stack + [next], p)
    requires w.active == v.active - {p} && w.trail == v.trail[..|v.trail| - 1]
    ensures OnStack(pr, w, stack) && v.trail == w.trail + [p]
  {
    var c := stack + [next];
    TrailEnd(pr, v, c, p);
    forall k | 0 <= k < |stack| ensures pr.FirstTo(stack[..k + 1], w.trail[k]) && w.trail[k] != p {
      assert c[..k + 1] == stack[..k + 1];
      assert pr.FirstTo(c[..k + 1], v.trail[k]);
      NotAbove(pr, c, k + 1, w.trail[k], p);
    }
    Removed(v.active, w.active, v.trail, w.trail, p);
  }

  lemma TrailEnd(pr: Project, v: View, c: Chain, p: Path)
    requires OnStack(pr, v, c) && c != [] && pr.Reaches(c, p)
    ensures v.trail == v.trail[..|c| - 1] + [p]
  {
    assert c[..|c| - 1 + 1] == c;
    assert pr.FirstTo(c[..|c| - 1 + 1], v.trail[|c| - 1]);
  }

  lemma Removed(a: set<Path>, b: set<Path>, s: seq<Path>, t: seq<Path>, p: Path)
    requires (forall q :: q in a <==> q in s) && b == a - {p} && s == t + [p] && p !in t
    ensures forall q :: q in b <==> q in t
  {
  }

  /** The file first reached by a chain is none of the files on the way there. */
  lemma NotAbove(pr: Project, c: Chain, k: nat, q: Path, p: Path)
    requires k < |c| && pr.FirstTo(c, p) && pr.Reaches(c[..k], q)
    ensures q != p
  {
    assert SplitsAt(c[..k], c, k);
    assert Before(c[..k], c);
  }

  lemma RecordedPop(pr: Project, v: View, w: View, stack: Chain, next: nat, n: nat)
    requires Recorded(pr, v, stack + [next] + [n])
    requires w.chains == v.chains && w.sources == v.sources && w.seen == v.seen
    ensures Recorded(pr, w, stack + [next + 1])
  {
    forall i | 0 <= i < |w.chains| ensures Before(w.chains[i], stack + [next + 1]) {
      BeforeSibling(w.chains[i], stack, next, n);
    }
  }

  lemma OrderedPop(pr: Project, v: View, c: Chain, n: nat, p: Path)
    requires Walk(pr, v, c, n) && pr.Reaches(c, p) && n == |pr.Includes(p)| && p !in v.finished
    ensures Ordered(pr, v.finished + [p])
  {
    var f := v.finished + [p];
    forall i | 0 <= i < |f| ensures LeadsInto(pr.Includes(f[i]), f[..i]) {
      if i < |v.finished| {
        assert f[..i] == v.finished[..i];
      } else {
        assert f[..i] == v.finished;
        forall k | 0 <= k < n
          ensures pr.Includes(p)[k].Relative? && pr.Includes(p)[k].request.Inside? && pr.Includes(p)[k].request.path in v.finished
        {
          assert (c + [n])[..|c|] == c;
          assert Done(pr, v, c + [k]);
          pr.AskStep(c, p, k);
        }
      }
    }
  }

  lemma LeftDoneParent(pr: Project, v: View, c: Chain, n: nat)
    requires LeftDone(pr, v, c + [n])
    ensures LeftDone(pr, v, c)
  {
    forall k, j: nat | 0 <= k < |c| && j < c[k] ensures Done(pr, v, c[..k] + [j]) {
      assert (c + [n])[..k] == c[..k];
      assert (c + [n])[k] == c[k];
    }
  }

  lemma PopWalk(pr: Project, v: View, stack: Chain, next: nat, n: nat, p: Path)
    requires Walk(pr, v, stack + [next], n)
    requires pr.FirstTo(stack + [next], p) && n == |pr.Includes(p)|
    ensures Walk(pr, Pop(v, p), stack, next + 1)
  {
    var c := stack + [next];
    var w := Pop(v, p);
    OnStackPop(pr, v, w, stack, next, p);
    OrderedPop(pr, v, c, n, p);
    LeftDoneParent(pr, v, c, n);
    assert w.finished[|v.finished|] == p;
    LeftDoneNext(pr, v, w, stack, next);
  }

  lemma PopLimits(pr: Project, v: View, c: Chain, p: Path)
    requires WithinLimits(pr, v) && v.trail != []
    requires pr.Listing(v.chains, v.sources) && pr.FirstTo(c, p)
    requires pr.Includes(p) != [] ==> |c| <= pr.limits.maxImportDepth
    ensures WithinLimits(pr, Pop(v, p))
  {
    forall i | 0 <= i < |v.sources| && v.sources[i].path == p ensures v.chains[i] == c {
      assert pr.Describes(v.chains[i], v.sources[i]);
      pr.FirstUnique(v.chains[i], c, p);
    }
  }

  lemma PopKeeps(pr: Project, v: View, stack: Chain, next: nat, n: nat, p: Path)
    requires Inv(pr, v, stack + [next], n)
    requires pr.FirstTo(stack + [next], p) && n == |pr.Includes(p)|
    requires n > 0 ==> |stack| < pr.limits.maxImportDepth
    ensures v.trail != [] && Inv(pr, Pop(v, p), stack, next + 1)
  {
    PopWalk(pr, v, stack, next, n, p);
    RecordedPop(pr, v, Pop(v, p), stack, next, n);
    PopLimits(pr, v, stack + [next], p);
  }

  lemma SkipKeeps(pr: Project, v: View, stack: Chain, next: nat, p: Path)
    requires Inv(pr, v, stack, next)
    requires pr.Reaches(stack + [next], p) && p in v.finished
    ensures Inv(pr, v, stack, next + 1)
  {
    LeftDoneNext(pr, v, v, stack, next);
    forall i | 0 <= i < |v.chains| ensures Before(v.chains[i], stack + [next + 1]) {
      BeforeNext(v.chains[i], stack, next);
    }
  }

  lemma InvInitial(pr: Project)
    ensures Inv(pr, View({}, {}, [], [], [], [], 0), [], 0)
  {
  }

  // ----- What a failure proves about the workspace -----

  ghost predicate AllReached(pr: Project, s: set<Path>) {
    forall p :: p in s ==> pr.IsReached(p)
  }

  /** Each error names a defect that some include chain of the project really has. */
  ghost predicate Justified(pr: Project, e: LoadError) {
    match e
    case ImportTooDeep => exists c: Chain, p ::
      pr.FirstTo(c, p) && pr.Includes(p) != [] && |c| > pr.limits.maxImportDepth
    case SymlinkNotAllowed => exists c: Chain :: pr.Ask(c) == Some(Relative(Symlink))
    case PathEscapes => exists c: Chain :: pr.Ask(c) == Some(Relative(Escaping))
    case BadImport => exists c: Chain :: pr.Ask(c) == Some(Malformed)
    case AbsoluteImport => exists c: Chain :: pr.Ask(c) == Some(Absolute)
    case ImportCycle => exists c: Chain, d: Chain, p :: pr.CycleOn(c, d, p)
    case TooManyFiles => exists s :: AllReached(pr, s) && |s| > pr.limits.maxFiles
    case TooManyBytes => exists s :: AllReached(pr, s) && Total(pr.ws, s) > pr.limits.maxTotalBytes
    case ReadFailed => exists c: Chain, p :: pr.Reaches(c, p) && (p in pr.ws ==> pr.ws[p].Unreadable?)
    case FileTooLarge => exists c: Chain, p ::
      pr.Reaches(c, p) && p in pr.ws && pr.ws[p].Regular? && pr.ws[p].size > pr.limits.maxFileBytes
    case NotUtf8 => exists c: Chain, p ::
      pr.Reaches(c, p) && p in pr.ws && pr.ws[p].Regular? && !pr.ws[p].utf8
    case DirectoryTooDeep | ManualFamily => false
  }

  lemma ReachedSubset(pr: Project, s: set<Path>)
    requires pr.AllReadable() && AllReached(pr, s)
    ensures s <= pr.Reached()
  {
    forall p | p in s ensures p in pr.Reached() {
      var c: Chain :| pr.Reaches(c, p);
      assert pr.Ask(c).Some?;
    }
  }

  /** No spurious failure: a justified error is incompatible with being loadable. */
  lemma JustifiedRefutesLoadable(pr: Project, e: LoadError)
    requires Justified(pr, e)
    ensures !pr.Loadable()
  {
    if pr.Loadable() && (e == TooManyFiles || e == TooManyBytes) {
      var s :| AllReached(pr, s) && (|s| > pr.limits.maxFiles || Total(pr.ws, s) > pr.limits.maxTotalBytes);
      ReachedSubset(pr, s);
      TotalMonotone(pr.ws, s, pr.Reached());
    }
  }

  lemma SeenReached(pr: Project, v: View, pos: Chain)
    requires Recorded(pr, v, pos)
    ensures AllReached(pr, v.seen)
  {
    forall p | p in v.seen ensures pr.IsReached(p) {
      var i :| 0 <= i < |v.sources| && v.sources[i].path == p;
      assert pr.Describes(v.chains[i], v.sources[i]);
    }
  }

  /** Reading one more file would exceed the count or byte limit: so does the reached set. */
  lemma OneMoreJustified(pr: Project, v: View, c: Chain, p: Path)
    requires Recorded(pr, v, c) && v.total == Total(pr.ws, v.seen) && pr.Reaches(c, p) && p !in v.seen
    ensures |v.seen| >= pr.limits.maxFiles ==> Justified(pr, TooManyFiles)
    ensures v.total + Size(pr.ws, p) > pr.limits.maxTotalBytes ==> Justified(pr, TooManyBytes)
  {
    OneMoreReached(pr, v, c, p);
    TotalAdd(pr.ws, v.seen, p);
    TooMuchJustified(pr, v.seen + {p});
  }

  lemma OneMoreReached(pr: Project, v: View, c: Chain, p: Path)
    requires Recorded(pr, v, c) && pr.Reaches(c, p)
    ensures AllReached(pr, v.seen + {p})
  {
    SeenReached(pr, v, c);
    assert pr.IsReached(p);
  }

  lemma TooMuchJustified(pr: Project, s: set<Path>)
    requires AllReached(pr, s)
    ensures |s| > pr.limits.maxFiles ==> Justified(pr, TooManyFiles)
    ensures Total(pr.ws, s) > pr.limits.maxTotalBytes ==> Justified(pr, TooManyBytes)
  {
  }

  lemma CycleJustified(pr: Project, v: View, stack: Chain, next: nat, p: Path)
    requires Walk(pr, v, stack, next) && pr.Reaches(stack + [next], p) && p in v.active
    ensures Justified(pr, ImportCycle)
  {
    var k :| 0 <= k < |v.trail| && v.trail[k] == p;
    assert stack[..k + 1] < stack + [next];
    assert pr.CycleOn(stack[..k + 1], stack + [next], p);
  }

  lemma DepthJustified(pr: Project, v: View, stack: Chain, next: nat)
    requires OnStack(pr, v, stack) && pr.Ask(stack + [next]).Some?
    requires |stack| > pr.limits.maxImportDepth
    ensures Justified(pr, ImportTooDeep)
  {
    assert (stack + [next])[..|stack|] == stack == stack[..|stack| - 1 + 1];
    assert pr.FirstTo(stack, v.trail[|stack| - 1]);
  }

  // ----- What a finished walk proves -----

  lemma EndReachesAll(pr: Project, v: View, c: Chain) returns (p: Path)
    requires Walk(pr, v, [], |pr.roots|) && pr.Ask(c).Some?
    ensures pr.Reaches(c, p) && p in v.seen && p in v.finished
  {
    pr.AskRoot(c);
    var pos: Chain := [] + [|pr.roots|];
    assert SplitsAt(c, pos, 0);
    p := LeftSeen(pr, v, [], |pr.roots|, c);
  }

  lemma EndAcyclic(pr: Project, v: View)
    requires Walk(pr, v, [], |pr.roots|)
    ensures pr.Acyclic()
  {
    forall c: Chain, d: Chain, p ensures !pr.CycleOn(c, d, p) {
      if pr.CycleOn(c, d, p) {
        var q := EndReachesAll(pr, v, c);
        var i :| 0 <= i < |v.finished| && v.finished[i] == p;
        var j := Descend(pr, v.finished, c, d, i);
        assert false;
      }
    }
  }

  lemma EndShallow(pr: Project, v: View)
    requires Inv(pr, v, [], |pr.roots|)
    ensures pr.ShallowEnough()
  {
    forall c: Chain, p | pr.FirstTo(c, p) && pr.Includes(p) != []
      ensures |c| <= pr.limits.maxImportDepth
    {
      var q := EndReachesAll(pr, v, c);
      var i :| 0 <= i < |v.sources| && v.sources[i].path == p;
      assert pr.Describes(v.chains[i], v.sources[i]);
      pr.FirstUnique(c, v.chains[i], p);
    }
  }

  lemma EndReadable(pr: Project, v: View)
    requires Walk(pr, v, [], |pr.roots|) && WithinLimits(pr, v)
    ensures pr.AllReadable()
  {
    forall c: Chain | pr.Ask(c).Some?
      ensures pr.Ask(c).value.Relative? && pr.Ask(c).value.request.Inside? && pr.Good(pr.Ask(c).value.request.path)
    {
      var p := EndReachesAll(pr, v, c);
    }
  }

  lemma EndSeen(pr: Project, v: View, p: Path)
    requires Walk(pr, v, [], |pr.roots|) && Recorded(pr, v, [] + [|pr.roots|])
    ensures pr.IsReached(p) <==> p in v.seen
  {
    SeenReached(pr, v, [] + [|pr.roots|]);
    if pr.IsReached(p) {
      var c: Chain :| pr.Reaches(c, p);
      var q := EndReachesAll(pr, v, c);
    }
  }

  lemma EndLoadable(pr: Project, v: View)
    requires Inv(pr, v, [], |pr.roots|)
    ensures pr.Loadable() && pr.IsLoadOf(v.sources) && v.seen == pr.Reached()
  {
    assert pr.IsLoadOf(v.sources) && v.seen == pr.Reached() by {
      forall p ensures pr.IsReached(p) <==> p in v.seen {
        EndSeen(pr, v, p);
      }
      assert pr.Listing(v.chains, v.sources);
    }
    assert pr.FewEnough();
    EndAcyclic(pr, v);
    EndShallow(pr, v);
    EndReadable(pr, v);
  }

  // ----- The loader -----

  method SplitLines(lines: seq<Line>) returns (body: seq<string>, imports: seq<Import>)
    ensures body == Body(lines) && imports == Imports(lines)
  {
    body, imports := [], [];
    var i := 0;
    while i < |lines|
      invariant 0 <= i <= |lines|
      invariant body + Body(lines[i..]) == Body(lines)
      invariant imports + Imports(lines[i..]) == Imports(lines)
    {
      match lines[i] {
        case Include(target) => imports := imports + [target];
        case Text(text) => body := body + [text];
      }
      i := i + 1;
    }
  }

  class LoadState {
    const project: Project
    var sources: seq<Source>
    var active: set<Path>
    var seen: set<Path>
    var totalBytes: nat
    ghost var trail: seq<Path>
    ghost var finished: seq<Path>
    ghost var chains: seq<Chain>

    constructor (project: Project)
      ensures this.project == project
      ensures Now() == View({}, {}, [], [], [], [], 0)
    {
      this.project := project;
      sources, active, seen, totalBytes := [], {}, {}, 0;
      trail, finished, chains := [], [], [];
    }

    ghost function Now(): View
      reads this
    {
      View(seen, active, trail, finished, chains, sources, totalBytes)
    }

    /** The checks made before a file's content is used; they change nothing. */
    method Inspect(requested: Request, depth: nat, ghost stack: Chain, ghost next: nat) returns (r: Inspection)
      requires Inv(project, Now(), stack, next)
      requires project.Ask(stack + [next]) == Some(Relative(requested)) && depth == |stack|
      ensures r.Refused? ==> Justified(project, r.error)
      ensures !r.Refused? ==> depth <= project.limits.maxImportDepth && requested.Inside?
      ensures r.Repeated? ==> requested.path in finished
      ensures r.Fresh? ==>
        && requested.path !in seen && project.Good(requested.path)
        && r.entry == project.ws[requested.path]
        && |seen| < project.limits.maxFiles && totalBytes + r.entry.size <= project.limits.maxTotalBytes
    {
      if depth > project.limits.maxImportDepth {
        DepthJustified(project, Now(), stack, next);
        return Refused(ImportTooDeep);
      }
      if requested.Symlink? {
        return Refused(SymlinkNotAllowed);
      }
      if requested.Escaping? {
        return Refused(PathEscapes);
      }
      var path := requested.path;
      assert project.Reaches(stack + [next], path);
      if path in active {
        CycleJustified(project, Now(), stack, next, path);
        return Refused(ImportCycle);
      }
      if path in seen {
        return Repeated;
      }
      OneMoreJustified(project, Now(), stack + [next], path);
      if |seen| >= project.limits.maxFiles {
        return Refused(TooManyFiles);
      }
      if path !in project.ws || project.ws[path].Unreadable? {
        return Refused(ReadFailed);
      }
      var entry := project.ws[path];
      if entry.size > project.limits.maxFileBytes {
        return Refused(FileTooLarge);
      }
      if totalBytes + entry.size > project.limits.maxTotalBytes {
        return Refused(TooManyBytes);
      }
      if !entry.utf8 {
        return Refused(NotUtf8);
      }
      return Fresh(entry);
    }

    method Enter(source: Source, size: nat, ghost c: Chain)
      requires size == Size(project.ws, source.path)
      modifies this
      ensures Now() == Push(project, old(Now()), c, source.path, source)
    {
      totalBytes := totalBytes + size;
      seen := seen + {source.path};
      active := active + {source.path};
      sources := sources + [source];
      trail, chains := trail + [source.path], chains + [c];
    }

    method Leave(path: Path)
      requires trail != []
      modifies this
      ensures Now() == Pop(old(Now()), path)
    {
      active := active - {path};
      trail, finished := trail[..|trail| - 1], finished + [path];
    }

    method LoadFile(requested: Request, scope: Path, isOverride: bool, depth: nat,
                    ghost stack: Chain, ghost next: nat) returns (r: Outcome)
      requires Inv(project, Now(), stack, next)
      requires project.Ask(stack + [next]) == Some(Relative(requested)) && depth == |stack|
      requires (stack + [next])[0] < |project.roots|
      requires scope == project.roots[(stack + [next])[0]].scope
      requires isOverride == (stack == [] && project.roots[next].isOverride)
      modifies this
      ensures r.Loaded? ==> Inv(project, Now(), stack, next + 1)
      ensures r.Loaded? ==> depth <= project.limits.maxImportDepth
      ensures r.Loaded? ==> old(seen) <= seen && trail == old(trail)
      ensures r.Failed? ==> Justified(project, r.error)
      decreases |project.ws.Keys - seen|, 0
    {
      ghost var c, before := stack + [next], Now();
      var inspection := Inspect(requested, depth, stack, next);
      if inspection.Refused? {
        return Failed(inspection.error);
      }
      var path := requested.path;
      if inspection.Repeated? {
        SkipKeeps(project, Now(), stack, next, path);
        return Loaded;
      }
      var body, imports := SplitLines(inspection.entry.lines);
      var source := Source(path, scope, isOverride, depth, body);
      FreshIsFirst(project, before, stack, next, path);
      PushKeeps(project, before, stack, next, path, source);
      Enter(source, inspection.entry.size, c);
      Shrinks(project.ws.Keys, before.seen, seen, path);
      r := LoadImports(path, imports, scope, depth, c);
      if r.Loaded? {
        PopKeeps(project, Now(), stack, next, |imports|, path);
        Leave(path);
      } else {
        active := active - {path};
      }
    }

    method LoadImports(path: Path, imports: seq<Import>, scope: Path, depth: nat, ghost c: Chain) returns (r: Outcome)
      requires Inv(project, Now(), c, 0) && project.Reaches(c, path)
      requires imports == project.Includes(path) && |c| == depth + 1
      requires c[0] < |project.roots| && scope == project.roots[c[0]].scope
      modifies this
      ensures r.Loaded? ==> Inv(project, Now(), c, |imports|)
      ensures r.Loaded? && imports != [] ==> |c| <= project.limits.maxImportDepth
      ensures r.Loaded? ==> old(seen) <= seen && trail == old(trail)
      ensures r.Failed? ==> Justified(project, r.error)
      decreases |project.ws.Keys - seen|, 1
    {
      var k := 0;
      while k < |imports|
        invariant 0 <= k <= |imports|
        invariant Inv(project, Now(), c, k)
        invariant k > 0 ==> |c| <= project.limits.maxImportDepth
        invariant old(seen) <= seen && trail == old(trail)
      {
        project.AskStep(c, path, k);
        if imports[k].Malformed? {
          return Failed(BadImport);
        }
        if imports[k].Absolute? {
          return Failed(AbsoluteImport);
        }
        NoLarger(project.ws.Keys, old(seen), seen);
        r := LoadFile(imports[k].request, scope, false, depth + 1, c, k);
        if r.Failed? {
          return;
        }
        k := k + 1;
      }
      r := Loaded;
    }
  }

  lemma NoLarger(all: set<Path>, a: set<Path>, b: set<Path>)
    requires a <= b
    ensures |all - b| <= |all - a|
  {
    TotalMonotone(map[], all - b, all - a);
  }

  lemma Shrinks(all: set<Path>, a: set<Path>, b: set<Path>, p: Path)
    requires a + {p} == b && p in all && p !in a
    ensures |all - b| < |all - a|
  {
    assert all - b == (all - a) - {p};
  }

  // ----- Candidates per directory and the whole scan -----

  datatype Family = Cogentrex | Agents | Claude | Manual

  /** For each instruction file a directory may hold: absent, or what requesting it leads to. */
  datatype Directory = Directory(scope: Path, cogentrex: Option<Request>, claude: Option<Request>,
                                 agents: Option<Request>, agentsOverride: Option<Request>)

  function Candidate(d: Directory, family: Family): Option<Root> {
    match family
    case Cogentrex => if d.cogentrex.Some? then Some(Root(d.scope, false, d.cogentrex.value)) else None
    case Claude => if d.claude.Some? then Some(Root(d.scope, false, d.claude.value)) else None
    case _ =>
      if d.agentsOverride.Some? then Some(Root(d.scope, true, d.agentsOverride.value))
      else if d.agents.Some? then Some(Root(d.scope, false, d.agents.value))
      else None
  }

  function Candidates(directories: seq<Directory>, family: Family): seq<Root> {
    if directories == [] then []
    else
      var last := Candidate(directories[|directories| - 1], family);
      Candidates(directories[..|directories| - 1], family) + if last.Some? then [last.value] else []
  }

  lemma {:induction false} CandidatesPrefix(directories: seq<Directory>, family: Family, i: nat)
    requires i <= |directories|
    ensures Candidates(directories[..i], family) <= Candidates(directories, family)
    decreases |directories| - i
  {
    if i == |directories| {
      assert directories[..i] == directories;
    } else {
      CandidatesPrefix(directories, family, i + 1);
      assert directories[..i + 1][..i] == directories[..i];
    }
  }

  lemma CandidatesStep(directories: seq<Directory>, family: Family, i: nat)
    requires i < |directories|
    ensures var seen, c := Candidates(directories[..i], family), Candidate(directories[i], family);
      && |Candidates(directories[..i + 1], family)| == |seen| + (if c.Some? then 1 else 0)
      && (c.Some? ==> |seen| < |Candidates(directories, family)| && Candidates(directories, family)[|seen|] == c.value)
  {
    assert directories[..i + 1][..i] == directories[..i];
    CandidatesPrefix(directories, family, i + 1);
  }

  // ----- Which file a directory offers, independently of how it is picked -----

  /** The root is what the directory offers to the family: its override before its normal file. */
  ghost predicate Offers(d: Directory, family: Family, root: Root) {
    && root.scope == d.scope
    && match family
       case Cogentrex => !root.isOverride && d.cogentrex == Some(root.request)
       case Claude => !root.isOverride && d.claude == Some(root.request)
       case Agents =>
         if root.isOverride then d.agentsOverride == Some(root.request)
         else d.agentsOverride == None && d.agents == Some(root.request)
       case Manual => false
  }

  ghost predicate OffersNothing(d: Directory, family: Family) {
    forall root :: !Offers(d, family, root)
  }

  /** Directory picks[i] offers roots[i], in directory order, and the other directories offer nothing. */
  ghost predicate Picked(directories: seq<Directory>, family: Family, roots: seq<Root>, picks: seq<nat>) {
    && |picks| == |roots|
    && (forall i :: 0 <= i < |picks| ==> picks[i] < |directories| && Offers(directories[picks[i]], family, roots[i]))
    && (forall i, j :: 0 <= i < j < |picks| ==> picks[i] < picks[j])
    && (forall k: nat :: k < |directories| && k !in picks ==> OffersNothing(directories[k], family))
  }

  ghost predicate RootsOf(directories: seq<Directory>, family: Family, roots: seq<Root>) {
    exists picks: seq<nat> :: Picked(directories, family, roots, picks)
  }

  lemma CandidateOffers(d: Directory, family: Family)
    requires family != Manual
    ensures Candidate(d, family).Some? ==> Offers(d, family, Candidate(d, family).value)
    ensures Candidate(d, family).None? ==> OffersNothing(d, family)
  {
  }

  lemma PickedNext(directories: seq<Directory>, family: Family, roots: seq<Root>, picks: seq<nat>, d: Directory, r: Option<Root>)
    requires Picked(directories, family, roots, picks)
    requires if r.Some? then Offers(d, family, r.value) else OffersNothing(d, family)
    ensures r.Some? ==> Picked(directories + [d], family, roots + [r.value], picks + [|directories|])
    ensures r.None? ==> Picked(directories + [d], family, roots, picks)
  {
    var more, n := directories + [d], |directories|;
    forall k: nat | k < |more| && k !in picks && (r.Some? ==> k != n) ensures OffersNothing(more[k], family) {
    }
    if r.Some? {
      assert forall k: nat :: k !in picks + [n] ==> k !in picks && k != n;
    }
  }

  lemma {:induction false} CandidatesAreRoots(directories: seq<Directory>, family: Family)
    requires family != Manual
    ensures RootsOf(directories, family, Candidates(directories, family))
  {
    if directories == [] {
      assert Picked([], family, [], []);
    } else {
      var front, d := directories[..|directories| - 1], directories[|directories| - 1];
      CandidatesAreRoots(front, family);
      var picks: seq<nat> :| Picked(front, family, Candidates(front, family), picks);
      CandidateOffers(d, family);
      PickedNext(front, family, Candidates(front, family), picks, d, Candidate(d, family));
      assert front + [d] == directories;
      if Candidate(d, family).None? {
        assert Candidates(directories, family) == Candidates(front, family);
        assert Picked(directories, family, Candidates(directories, family), picks);
      } else {
        assert Picked(directories, family, Candidates(directories, family), picks + [|front|]);
      }
    }
  }

  lemma OfferUnique(d: Directory, family: Family, a: Root, b: Root)
    requires Offers(d, family, a) && Offers(d, family, b)
    ensures a == b
  {
  }

  /** The offers determine the roots. */
  lemma {:induction false} RootsUnique(directories: seq<Directory>, family: Family, a: seq<Root>, b: seq<Root>)
    requires RootsOf(directories, family, a) && RootsOf(directories, family, b)
    ensures a == b
  {
    var pa: seq<nat> :| Picked(directories, family, a, pa);
    var pb: seq<nat> :| Picked(directories, family, b, pb);
    forall k: nat ensures k in pa <==> k in pb {
      SamePick(directories, family, a, pa, b, pb, k);
      SamePick(directories, family, b, pb, a, pa, k);
    }
    IncreasingUnique(pa, pb);
    forall i | 0 <= i < |a| ensures a[i] == b[i] {
      OfferUnique(directories[pa[i]], family, a[i], b[i]);
    }
  }

  lemma SamePick(directories: seq<Directory>, family: Family, a: seq<Root>, pa: seq<nat>, b: seq<Root>, pb: seq<nat>, k: nat)
    requires Picked(directories, family, a, pa) && Picked(directories, family, b, pb)
    ensures k in pa ==> k in pb
  {
    if k in pa {
      var i :| 0 <= i < |pa| && pa[i] == k;
      assert Offers(directories[k], family, a[i]);
    }
  }

  lemma FirstIsIn(b: seq<nat>)
    ensures b != [] ==> b[0] in b
  {
  }

  lemma {:induction false} IncreasingUnique(a: seq<nat>, b: seq<nat>)
    requires forall i, j :: 0 <= i < j < |a| ==> a[i] < a[j]
    requires forall i, j :: 0 <= i < j < |b| ==> b[i] < b[j]
    requires forall k: nat :: k in a <==> k in b
    ensures a == b
    decreases |a|
  {
    if a == [] {
      FirstIsIn(b);
    } else {
      var x := a[|a| - 1];
      assert x in b;
      var y := b[|b| - 1];
      assert y in a;
      assert x == y;
      var c, d := a[..|a| - 1], b[..|b| - 1];
      assert a == c + [x] && b == d + [y];
      forall k: nat ensures k in c <==> k in d {
        assert k in c ==> k in a && k != x;
        assert k in d ==> k in b && k != y;
        assert k in a ==> k in c || k == x;
        assert k in b ==> k in d || k == y;
      }
      IncreasingUnique(c, d);
    }
  }

  /** The directories without the normal file wherever an override stands beside it. */
  function Overridden(directories: seq<Directory>): seq<Directory> {
    seq(|directories|, i requires 0 <= i < |directories| =>
      if directories[i].agentsOverride.Some? then directories[i].(agents := None) else directories[i])
  }

  /** An override shadows the normal file beside it: without that file the roots are the same. */
  lemma OverrideShadows(directories: seq<Directory>, family: Family)
    requires family != Manual
    ensures Candidates(Overridden(directories), family) == Candidates(directories, family)
  {
    CandidatesAreRoots(directories, family);
    CandidatesAreRoots(Overridden(directories), family);
    SameOffers(directories, Overridden(directories), family);
  }

  /** Two lists of directories that offer the family the same have the same roots. */
  lemma SameOffers(a: seq<Directory>, b: seq<Directory>, family: Family)
    requires family != Manual && |a| == |b|
    requires forall i, root :: 0 <= i < |a| ==> (Offers(a[i], family, root) <==> Offers(b[i], family, root))
    ensures Candidates(a, family) == Candidates(b, family)
  {
    CandidatesAreRoots(a, family);
    CandidatesAreRoots(b, family);
    var picks: seq<nat> :| Picked(a, family, Candidates(a, family), picks);
    forall k: nat | k < |b| && k !in picks ensures OffersNothing(b[k], family) {
      assert OffersNothing(a[k], family);
    }
    assert Picked(b, family, Candidates(a, family), picks);
    RootsUnique(b, family, Candidates(a, family), Candidates(b, family));
  }

  ghost predicate SameFiles(a: Directory, b: Directory, family: Family) {
    && a.scope == b.scope
    && match family
       case Cogentrex => a.cogentrex == b.cogentrex
       case Claude => a.claude == b.claude
       case _ => a.agents == b.agents && a.agentsOverride == b.agentsOverride
  }

  /** Each family depends on its own files only. */
  lemma FamiliesIndependent(a: seq<Directory>, b: seq<Directory>, family: Family)
    requires family != Manual && |a| == |b| && forall i :: 0 <= i < |a| ==> SameFiles(a[i], b[i], family)
    ensures Candidates(a, family) == Candidates(b, family)
  {
    forall i, root | 0 <= i < |a| ensures Offers(a[i], family, root) <==> Offers(b[i], family, root) {
      assert SameFiles(a[i], b[i], family);
    }
    SameOffers(a, b, family);
  }

  /**
   * Scans the directories from the workspace root towards the target.  It succeeds exactly
   * when the project is loadable, and then returns exactly the reached files, in order.
   */
  method LoadProjectInstructions(ws: map<Path, Entry>, directories: seq<Directory>, family: Family,
                                 limits: Limits) returns (r: Result)
    requires directories != []
    ensures var pr := Project(ws, Candidates(directories, family), limits);
      && (r.Ok? <==> |directories| - 1 <= limits.maxDirectoryDepth && family != Manual && pr.Loadable())
      && (r.Ok? ==> pr.IsLoadOf(r.sources))
      && (r.Err? ==>
            if |directories| - 1 > limits.maxDirectoryDepth then r.error == DirectoryTooDeep
            else if family == Manual then r.error == ManualFamily
            else Justified(pr, r.error))
    ensures family != Manual ==> RootsOf(directories, family, Candidates(directories, family))
  {
    if |directories| - 1 > limits.maxDirectoryDepth {
      if family != Manual { CandidatesAreRoots(directories, family); }
      return Err(DirectoryTooDeep);
    }
    if family == Manual {
      return Err(ManualFamily);
    }
    CandidatesAreRoots(directories, family);
    var project := Project(ws, Candidates(directories, family), limits);
    var state := new LoadState(project);
    InvInitial(project);
    ghost var n := 0;
    for i := 0 to |directories|
      invariant n == |Candidates(directories[..i], family)|
      invariant Inv(project, state.Now(), [], n)
    {
      var candidate := Candidate(directories[i], family);
      CandidatesStep(directories, family, i);
      if candidate.Some? {
        var outcome := state.LoadFile(candidate.value.request, candidate.value.scope,
                                      candidate.value.isOverride, 0, [], n);
        if outcome.Failed? {
          JustifiedRefutesLoadable(project, outcome.error);
          return Err(outcome.error);
        }
        n := n + 1;
      }
    }
    assert directories[..|directories|] == directories;
    EndLoadable(project, state.Now());
    return Ok(state.sources);
  }

  // ----- What the returned listing means -----

  lemma BeforeAsymmetric(d: Chain, c: Chain)
    requires Before(d, c)
    ensures !Before(c, d) && c != d
  {
    var k: nat :| SplitsAt(d, c, k);
  }

  ghost predicate Increasing(chains: seq<Chain>) {
    forall i, j :: 0 <= i < j < |chains| ==> Before(chains[i], chains[j])
  }

  /** Two increasing lists that agree up to i and hold each other's next element agree on it. */
  lemma SameNext(ca: seq<Chain>, cb: seq<Chain>, i: nat, j: nat, k: nat)
    requires Increasing(ca) && Increasing(cb)
    requires i < |ca| && i < |cb| && ca[..i] == cb[..i]
    requires j < |cb| && cb[j] == ca[i] && k < |ca| && ca[k] == cb[i]
    ensures ca[i] == cb[i]
  {
    if j < i {
      assert cb[j] == cb[..i][j] == ca[j];
      BeforeAsymmetric(ca[j], ca[i]);
    } else if k < i {
      assert ca[k] == ca[..i][k] == cb[k];
      BeforeAsymmetric(cb[k], cb[i]);
    } else if i < j && i < k {
      BeforeAsymmetric(cb[i], cb[j]);
    }
  }

  lemma ChainInListing(pr: Project, chains: seq<Chain>, sources: seq<Source>, c: Chain, p: Path) returns (i: nat)
    requires pr.Listing(chains, sources) && pr.FirstTo(c, p)
    requires exists i :: 0 <= i < |sources| && sources[i].path == p
    ensures i < |chains| && chains[i] == c && sources[i].path == p
  {
    i :| 0 <= i < |sources| && sources[i].path == p;
    assert pr.Describes(chains[i], sources[i]);
    pr.FirstUnique(chains[i], c, p);
  }

  lemma {:induction false} SameChains(ca: seq<Chain>, cb: seq<Chain>, i: nat)
    requires Increasing(ca) && Increasing(cb) && forall c :: c in ca <==> c in cb
    requires i < |ca| && i < |cb|
    ensures ca[i] == cb[i]
    decreases i
  {
    forall k | 0 <= k < i ensures ca[k] == cb[k] {
      SameChains(ca, cb, k);
    }
    assert ca[..i] == cb[..i];
    assert ca[i] in cb && cb[i] in ca;
    var j :| 0 <= j < |cb| && cb[j] == ca[i];
    var k :| 0 <= k < |ca| && ca[k] == cb[i];
    SameNext(ca, cb, i, j, k);
  }

  lemma NoExtra(ca: seq<Chain>, cb: seq<Chain>)
    requires Increasing(ca) && Increasing(cb) && forall c :: c in ca <==> c in cb
    ensures |ca| <= |cb|
  {
    if |cb| < |ca| {
      assert ca[|cb|] in cb;
      var j :| 0 <= j < |cb| && cb[j] == ca[|cb|];
      SameChains(ca, cb, j);
      BeforeAsymmetric(ca[j], ca[|cb|]);
    }
  }

  lemma ListedChain(pr: Project, chains: seq<Chain>, sources: seq<Source>, c: Chain)
    requires pr.Listing(chains, sources) && pr.IsLoadOf(sources)
    ensures c in chains <==> exists p :: pr.FirstTo(c, p)
  {
    if c in chains {
      var i :| 0 <= i < |chains| && chains[i] == c;
      assert pr.Describes(chains[i], sources[i]);
    }
    if exists p :: pr.FirstTo(c, p) {
      var p :| pr.FirstTo(c, p);
      assert pr.IsReached(p);
      var i := ChainInListing(pr, chains, sources, c, p);
    }
  }

  /** The project determines the listing completely: files, order, scopes, depths and bodies. */
  lemma LoadIsUnique(pr: Project, a: seq<Source>, b: seq<Source>)
    requires pr.IsLoadOf(a) && pr.IsLoadOf(b)
    ensures a == b
  {
    var ca :| pr.Listing(ca, a);
    var cb :| pr.Listing(cb, b);
    forall c ensures c in ca <==> c in cb {
      ListedChain(pr, ca, a, c);
      ListedChain(pr, cb, b, c);
    }
    NoExtra(ca, cb);
    NoExtra(cb, ca);
    forall i | 0 <= i < |a| ensures a[i] == b[i] {
      SameChains(ca, cb, i);
      assert pr.Describes(ca[i], a[i]) && pr.Describes(cb[i], b[i]);
      SamePath(pr, ca[i], a[i].path, b[i].path);
    }
  }

  lemma SamePath(pr: Project, c: Chain, p: Path, q: Path)
    requires pr.Reaches(c, p) && pr.Reaches(c, q)
    ensures p == q
  {
  }

  /** Each file appears once. */
  lemma SourcesDistinct(pr: Project, sources: seq<Source>, i: nat, j: nat)
    requires pr.IsLoadOf(sources) && i < j < |sources|
    ensures sources[i].path != sources[j].path
  {
    var chains :| pr.Listing(chains, sources);
    assert pr.Describes(chains[i], sources[i]) && pr.Describes(chains[j], sources[j]);
    BeforeAsymmetric(chains[i], chains[j]);
  }

  /** A source's import depth is the length of a real include chain from a candidate of its scope, the first to reach it. */
  lemma DepthIsChainLength(pr: Project, sources: seq<Source>, i: nat) returns (c: Chain)
    requires pr.IsLoadOf(sources) && i < |sources|
    ensures pr.FirstTo(c, sources[i].path) && |c| == sources[i].importDepth + 1
    ensures c[0] < |pr.roots| && pr.roots[c[0]].scope == sources[i].scope
  {
    var chains :| pr.Listing(chains, sources);
    assert pr.Describes(chains[i], sources[i]);
    c := chains[i];
  }

  lemma Includer(pr: Project, c: Chain, p: Path) returns (q: Path)
    requires pr.Reaches(c, p) && |c| > 1
    ensures pr.Reaches(c[..|c| - 1], q) && Relative(Inside(p)) in pr.Includes(q)
  {
    var parent, last := c[..|c| - 1], c[|c| - 1];
    assert c == parent + [last];
    q := pr.Ask(parent).value.request.path;
    pr.AskStep(parent, q, last);
  }

  lemma ListedIndex(pr: Project, chains: seq<Chain>, sources: seq<Source>, c: Chain, q: Path) returns (j: nat)
    requires pr.Listing(chains, sources) && pr.IsLoadOf(sources) && pr.Reaches(c, q)
    ensures j < |sources| && sources[j].path == q && (chains[j] == c || Before(chains[j], c))
  {
    assert pr.IsReached(q);
    j :| 0 <= j < |sources| && sources[j].path == q;
    assert pr.Describes(chains[j], sources[j]);
    if chains[j] != c {
      BeforeTotal(chains[j], c);
    }
  }

  /** An included file is listed after a file that includes it. */
  lemma IncluderComesFirst(pr: Project, sources: seq<Source>, i: nat) returns (j: nat)
    requires pr.IsLoadOf(sources) && i < |sources| && sources[i].importDepth > 0
    ensures j < i && Relative(Inside(sources[i].path)) in pr.Includes(sources[j].path)
  {
    var chains :| pr.Listing(chains, sources);
    assert pr.Describes(chains[i], sources[i]);
    var c := chains[i];
    var q := Includer(pr, c, sources[i].path);
    j := ListedIndex(pr, chains, sources, c[..|c| - 1], q);
    ListedEarlier(chains, i, j);
  }

  lemma ListedEarlier(chains: seq<Chain>, i: nat, j: nat)
    requires Increasing(chains) && i < |chains| && j < |chains| && chains[i] != []
    requires var parent := chains[i][..|chains[i]| - 1]; chains[j] == parent || Before(chains[j], parent)
    ensures j < i
  {
    var c := chains[i];
    BeforeExtension(chains[j], c[..|c| - 1], c[|c| - 1]);
    assert c[..|c| - 1] + [c[|c| - 1]] == c;
    BeforeAsymmetric(chains[j], chains[i]);
  }

  /** The depth condition holds in particular when no include chain at all is too long. */
  lemma ShortChainsSuffice(pr: Project)
    requires forall c: Chain :: pr.Ask(c).Some? ==> |c| - 1 <= pr.limits.maxImportDepth
    ensures pr.ShallowEnough()
  {
    forall c: Chain, p | pr.FirstTo(c, p) && pr.Includes(p) != []
      ensures |c| <= pr.limits.maxImportDepth
    {
      pr.AskStep(c, p, 0);
      assert pr.Ask(c + [0]).Some?;
    }
  }
}
