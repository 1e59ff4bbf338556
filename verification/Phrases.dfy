/**
 * The selector's string tests and the list facts they stand for: a padded substring test that
 * decides contiguous sublists of words, and a prefix test that decides path containment.
 */
module Phrases {
  import opened Options
  import opened Strings

  // ----- Words -----

  predicate IsWordChar(c: char) { 'a' <= c <= 'z' || '0' <= c <= '9' }

  function WordLength(s: string): (n: nat)
    ensures n <= |s|
    ensures forall i :: 0 <= i < n ==> IsWordChar(s[i])
    ensures n < |s| ==> !IsWordChar(s[n])
  {
    if s == [] || !IsWordChar(s[0]) then 0 else 1 + WordLength(s[1..])
  }

  /** All maximal runs of word characters, left to right. */
  function Words(s: string): seq<string>
    decreases |s|
  {
    if s == [] then []
    else if !IsWordChar(s[0]) then Words(s[1..])
    else
      var n := WordLength(s);
      assert n > 0;
      [s[..n]] + Words(s[n..])
  }

  function Join(ws: seq<string>): string {
    if ws == [] then "" else if |ws| == 1 then ws[0] else ws[0] + " " + Join(ws[1..])
  }

  function Normalize(fold: string -> string, s: string): string {
    Join(Words(fold(s)))
  }

  predicate RunAt<T(==)>(s: seq<T>, p: seq<T>, i: int) {
    0 <= i <= |s| - |p| && s[i..i + |p|] == p
  }

  predicate Occurs(s: string, p: string) {
    exists i :: 0 <= i <= |s| && RunAt(s, p, i)
  }

  predicate ContainsPhrase(text: string, phrase: string) {
    phrase != "" && Occurs(" " + text + " ", " " + phrase + " ")
  }

  ghost predicate Plain(ws: seq<string>) {
    forall i :: 0 <= i < |ws| ==> ws[i] != "" && Avoids(ws[i], {' '})
  }

  predicate Sublist(p: seq<string>, t: seq<string>) {
    p != [] && exists k :: 0 <= k <= |t| && RunAt(t, p, k)
  }

  lemma {:induction false} WordsPlain(s: string)
    ensures Plain(Words(s))
    decreases |s|
  {
    if s != [] {
      if !IsWordChar(s[0]) {
        WordsPlain(s[1..]);
      } else {
        WordsPlain(s[WordLength(s)..]);
      }
    }
  }

  /** Each word preceded by one space. */
  ghost function Spread(ws: seq<string>): string {
    if ws == [] then "" else " " + ws[0] + Spread(ws[1..])
  }

  lemma {:induction false} SpreadIsPadded(ws: seq<string>)
    requires ws != []
    ensures Spread(ws) + " " == " " + Join(ws) + " "
  {
    if |ws| > 1 {
      SpreadIsPadded(ws[1..]);
      assert " " + Join(ws) + " " == " " + ws[0] + (" " + Join(ws[1..]) + " ");
      assert Spread(ws) + " " == " " + ws[0] + (Spread(ws[1..]) + " ");
    }
  }

  lemma {:induction false} SpreadAppend(a: seq<string>, b: seq<string>)
    ensures Spread(a + b) == Spread(a) + Spread(b)
  {
    if a == [] {
      assert a + b == b;
    } else {
      assert (a + b)[1..] == a[1..] + b;
      SpreadAppend(a[1..], b);
    }
  }

  lemma SpreadLong(ps: seq<string>)
    requires Plain(ps) && ps != []
    ensures |Spread(ps)| >= 2 && Spread(ps)[0] == ' '
  {
  }

  lemma SpreadHead(ws: seq<string>, z: string)
    requires ws != []
    ensures Spread(ws) + " " + z == " " + (ws[0] + (Spread(ws[1..]) + " " + z))
    ensures (Spread(ws[1..]) + " " + z)[0] == ' '
  {
    SpreadStartsBlank(ws[1..], z);
    Reassociate(" ", ws[0], Spread(ws[1..]), " ", z);
  }

  lemma SpreadStartsBlank(ws: seq<string>, z: string)
    ensures (Spread(ws) + " " + z)[0] == ' '
  {
    if ws != [] {
      assert Spread(ws)[0] == ' ';
    }
  }

  lemma Reassociate(a: string, b: string, c: string, d: string, e: string)
    ensures a + b + c + d + e == a + (b + (c + d + e))
  {
    assert a + b + c + d + e == a + b + (c + d + e);
  }

  /** If the spread of ps begins the spread of ws, then ps begins ws. */
  lemma {:induction false} SpreadPrefix(ws: seq<string>, ps: seq<string>, z: string)
    requires Plain(ws) && Plain(ps)
    requires Spread(ws) + " " == Spread(ps) + " " + z
    ensures ps <= ws
    decreases |ps|
  {
    if ps != [] {
      SpreadLong(ps);
      if ws != [] {
        var r, q := Spread(ws[1..]) + " " + "", Spread(ps[1..]) + " " + z;
        SpreadHead(ws, "");
        SpreadHead(ps, z);
        assert Spread(ws) + " " + "" == Spread(ws) + " ";
        DropPrefix(" ", ws[0] + r, ps[0] + q);
        assert ws[0] + r == ws[0] + [' '] + r[1..] && ps[0] + q == ps[0] + [' '] + q[1..];
        CutAtStop(ws[0], ' ', r[1..], ps[0], ' ', q[1..], {' '});
        assert r == [' '] + r[1..] && q == [' '] + q[1..];
        assert Spread(ws[1..]) + " " == r;
        SpreadPrefix(ws[1..], ps[1..], z);
        assert ws == [ws[0]] + ws[1..] && ps == [ps[0]] + ps[1..];
      }
    }
  }

  lemma RunShifts<T>(a: seq<T>, t: seq<T>, p: seq<T>, i: nat)
    requires i >= |a|
    ensures RunAt(a + t, p, i) <==> RunAt(t, p, i - |a|)
  {
    if i + |p| <= |a + t| {
      assert (a + t)[i..i + |p|] == t[i - |a|..i - |a| + |p|];
    }
  }

  /** A run that starts with a space does not start inside the first word. */
  lemma StartsPastWord(w: string, t: string, p: string, i: nat)
    requires w != "" && Avoids(w, {' '}) && p != "" && p[0] == ' ' && i > 0
    requires RunAt(" " + w + t, p, i)
    ensures i >= 1 + |w|
  {
    var s := " " + w + t;
    assert s[i] == s[i..i + |p|][0] == ' ';
    assert forall k :: 1 <= k < 1 + |w| ==> s[k] == w[k - 1];
  }

  /** An occurrence in the padded text starts at a word boundary, hence is a run of whole words. */
  lemma {:induction false} OccurrenceIsSublist(ws: seq<string>, ps: seq<string>, i: nat) returns (k: nat)
    requires Plain(ws) && Plain(ps) && ps != []
    requires RunAt(Spread(ws) + " ", Spread(ps) + " ", i)
    ensures RunAt(ws, ps, k)
    decreases |ws|
  {
    var s, p := Spread(ws) + " ", Spread(ps) + " ";
    SpreadLong(ps);
    if i == 0 {
      assert s == p + s[|p|..];
      SpreadPrefix(ws, ps, s[|p|..]);
      k := 0;
    } else {
      var head, tail := " " + ws[0], Spread(ws[1..]) + " ";
      assert s == head + tail;
      StartsPastWord(ws[0], tail, p, i);
      RunShifts(head, tail, p, i);
      var m := OccurrenceIsSublist(ws[1..], ps, i - |head|);
      k := m + 1;
      RunShifts(ws[..1], ws[1..], ps, k);
      assert ws[..1] + ws[1..] == ws;
    }
  }

  lemma SublistOccurs(ws: seq<string>, ps: seq<string>, k: nat)
    requires ps != [] && RunAt(ws, ps, k)
    ensures Occurs(Spread(ws) + " ", Spread(ps) + " ")
  {
    var a, b := ws[..k], ws[k + |ps|..];
    assert ws == a + (ps + b);
    SpreadAppend(a, ps + b);
    SpreadAppend(ps, b);
    Locate(Spread(a), Spread(ps), Spread(b) + " ");
    assert Spread(ws) + " " == Spread(a) + (Spread(ps) + (Spread(b) + " "));
  }

  lemma Locate(a: string, p: string, r: string)
    requires r != "" && r[0] == ' '
    ensures Occurs(a + (p + r), p + " ")
  {
    var s := a + (p + r);
    assert s == a + p + " " + r[1..];
    assert s[|a|..|a| + |p + " "|] == p + " ";
    assert RunAt(s, p + " ", |a|);
  }

  /** The padded-substring test decides whether the words of the phrase are a run of the text's words. */
  lemma PhraseTestIsSublist(fold: string -> string, text: string, phrase: string)
    ensures ContainsPhrase(Normalize(fold, text), Normalize(fold, phrase)) <==>
            Sublist(Words(fold(phrase)), Words(fold(text)))
  {
    var ws, ps := Words(fold(text)), Words(fold(phrase));
    WordsPlain(fold(text));
    WordsPlain(fold(phrase));
    if ps != [] {
      SpreadIsPadded(ps);
      JoinNonEmpty(ps);
      if ws == [] {
        SpreadLong(ps);
      } else {
        SpreadIsPadded(ws);
        var s, p := Spread(ws) + " ", Spread(ps) + " ";
        if Occurs(s, p) {
          var i :| 0 <= i <= |s| && RunAt(s, p, i);
          var k := OccurrenceIsSublist(ws, ps, i);
        }
        if Sublist(ps, ws) {
          var k :| 0 <= k <= |ws| && RunAt(ws, ps, k);
          SublistOccurs(ws, ps, k);
        }
      }
    }
  }

  lemma JoinNonEmpty(ps: seq<string>)
    requires Plain(ps) && ps != []
    ensures Join(ps) != ""
  {
    assert ps[0] != "";
  }

  // ----- What the word list is, without reading how it is computed -----

  ghost predicate Solid(w: string) {
    w != "" && forall i :: 0 <= i < |w| ==> IsWordChar(w[i])
  }

  lemma WordLengthUnique(s: string, n: nat)
    requires n <= |s| && (forall i :: 0 <= i < n ==> IsWordChar(s[i])) && (n < |s| ==> !IsWordChar(s[n]))
    ensures WordLength(s) == n
  {
    var next, end := if WordLength(s) < |s| then s[WordLength(s)] else ' ', if n < |s| then s[n] else ' ';
  }

  /** A character that is no word character separates the words before it from those after it. */
  lemma {:induction false} WordsSplit(a: string, c: char, b: string)
    requires !IsWordChar(c)
    ensures Words(a + [c] + b) == Words(a) + Words(b)
    decreases |a|
  {
    var s := a + [c] + b;
    if a == "" {
      assert s[1..] == b;
      assert Words(a) + Words(b) == Words(b);
    } else if !IsWordChar(a[0]) {
      assert s[1..] == a[1..] + [c] + b;
      WordsSplit(a[1..], c, b);
    } else {
      var n := WordLength(a);
      assert forall i :: 0 <= i < n ==> s[i] == a[i];
      assert s[n] == if n < |a| then a[n] else c;
      WordLengthUnique(s, n);
      assert s[..n] == a[..n];
      if n < |a| {
        assert s[n..] == a[n..] + [c] + b;
        WordsSplit(a[n..], c, b);
        assert [a[..n]] + (Words(a[n..]) + Words(b)) == [a[..n]] + Words(a[n..]) + Words(b);
      } else {
        assert s[n..] == [c] + b && ([c] + b)[1..] == b;
        assert a[n..] == "" && Words("") == [];
        assert Words(a) == [a[..n]] + [];
      }
    }
  }

  /** A run of word characters is one word, and the empty text has none. */
  lemma WordsOfSolid(w: string)
    requires Solid(w)
    ensures Words(w) == [w] && Words("") == []
  {
    WordLengthUnique(w, |w|);
    assert w[..|w|] == w && w[|w|..] == "";
  }

  lemma {:induction false} WordsAreSolid(s: string)
    ensures forall i :: 0 <= i < |Words(s)| ==> Solid(Words(s)[i])
    decreases |s|
  {
    if s != [] {
      if !IsWordChar(s[0]) {
        WordsAreSolid(s[1..]);
      } else {
        WordsAreSolid(s[WordLength(s)..]);
      }
    }
  }

  lemma {:induction false} WordsOfJoin(ws: seq<string>)
    requires forall i :: 0 <= i < |ws| ==> Solid(ws[i])
    ensures Words(Join(ws)) == ws
  {
    if |ws| == 1 {
      WordsOfSolid(ws[0]);
      assert ws == [ws[0]];
    } else if |ws| > 1 {
      WordsOfJoin(ws[1..]);
      WordsSplit(ws[0], ' ', Join(ws[1..]));
      assert ws[0] + [' '] + Join(ws[1..]) == Join(ws);
      WordsOfSolid(ws[0]);
      assert ws == [ws[0]] + ws[1..];
    }
  }

  /** Normalizing keeps exactly the words of the folded text. */
  lemma WordsOfNormal(fold: string -> string, s: string)
    ensures Words(Normalize(fold, s)) == Words(fold(s))
    ensures Normalize(fold, s) != "" <==> Words(fold(s)) != []
  {
    WordsAreSolid(fold(s));
    WordsOfJoin(Words(fold(s)));
    WordsPlain(fold(s));
    if Words(fold(s)) != [] { JoinNonEmpty(Words(fold(s))); }
  }

  // ----- Paths -----

  function SegmentLength(s: string): (n: nat)
    ensures n <= |s| && Avoids(s[..n], {'/'}) && (n < |s| ==> s[n] == '/')
  {
    if s == [] || s[0] == '/' then 0
    else
      var n := SegmentLength(s[1..]);
      assert s[..n + 1] == [s[0]] + s[1..][..n];
      n + 1
  }

  /** The pieces between slashes, empty pieces included. */
  function Split(s: string): seq<string>
    decreases |s|
  {
    var n := SegmentLength(s);
    if n == |s| then [s] else [s[..n]] + Split(s[n + 1..])
  }

  predicate Under(path: string, scope: string) {
    path == scope || scope + "/" <= path
  }

  lemma SplitStep(a: string, r: string)
    requires Avoids(a, {'/'})
    ensures Split(a + "/" + r) == [a] + Split(r)
  {
    var s := a + "/" + r;
    var n := SegmentLength(s);
    assert s[|a|] == '/';
    assert n == |a|;
    assert s[..n] == a && s[n + 1..] == r;
  }

  lemma SplitSimple(a: string)
    requires Avoids(a, {'/'})
    ensures Split(a) == [a]
  {
    assert SegmentLength(a) == |a|;
  }

  lemma SimpleScopeSimplePath(path: string, scope: string)
    requires Avoids(scope, {'/'}) && Avoids(path, {'/'})
    ensures Under(path, scope) <==> path == scope
  {
    assert |path| > |scope| ==> path[|scope|] != (scope + "/")[|scope|];
  }

  lemma SimpleScopeDeepPath(scope: string, b: string, q: string)
    requires Avoids(scope, {'/'}) && Avoids(b, {'/'})
    ensures Under(b + "/" + q, scope) <==> scope == b
  {
    var path := b + "/" + q;
    assert path[|b|] == '/';
    if scope == b {
      assert path[..|b| + 1] == scope + "/";
    }
    if scope + "/" <= path {
      assert path == scope + ['/'] + path[|scope| + 1..];
      CutAtStop(scope, '/', path[|scope| + 1..], b, '/', q, {'/'});
    }
  }

  lemma SimpleScope(path: string, scope: string)
    requires Avoids(scope, {'/'})
    ensures Under(path, scope) <==> Split(scope) <= Split(path)
  {
    var m := SegmentLength(path);
    var b := path[..m];
    SplitSimple(scope);
    if m == |path| {
      assert path == b;
      SplitSimple(path);
      SimpleScopeSimplePath(path, scope);
      ConsPrefix(scope, [], path, []);
      assert [scope] + [] == [scope] && [path] + [] == [path];
    } else {
      var q := path[m + 1..];
      assert path == b + "/" + q;
      SplitStep(b, q);
      SimpleScopeDeepPath(scope, b, q);
      ConsPrefix(scope, [], b, Split(q));
      assert [scope] + [] == [scope];
    }
  }

  lemma SimplePath(path: string, a: string, r: string)
    requires Avoids(path, {'/'}) && Avoids(a, {'/'})
    ensures !Under(path, a + "/" + r) && !(Split(a + "/" + r) <= Split(path))
  {
    SplitSimple(path);
    SplitStep(a, r);
    SplitNonEmpty(r);
    var scope := a + "/" + r;
    assert scope[|a|] == '/';
    assert |path| > |a| ==> path[|a|] != scope[|a|] == (scope + "/")[|a|];
  }

  /** The text test `scope` or `scope/...` decides component-wise containment. */
  lemma {:induction false} UnderIsComponentPrefix(path: string, scope: string)
    ensures Under(path, scope) <==> Split(scope) <= Split(path)
    decreases |scope|
  {
    var n, m := SegmentLength(scope), SegmentLength(path);
    if n == |scope| {
      assert scope[..n] == scope;
      SimpleScope(path, scope);
    } else {
      var a, r := scope[..n], scope[n + 1..];
      assert scope == a + "/" + r;
      if m == |path| {
        assert path[..m] == path;
        SimplePath(path, a, r);
      } else {
        var b, q := path[..m], path[m + 1..];
        assert path == b + "/" + q;
        SplitStep(a, r);
        SplitStep(b, q);
        UnderIsComponentPrefix(q, r);
        UnderStep(a, r, b, q);
        ConsPrefix(a, Split(r), b, Split(q));
      }
    }
  }

  lemma ConsPrefix(a: string, x: seq<string>, b: string, y: seq<string>)
    ensures [a] + x <= [b] + y <==> a == b && x <= y
  {
    if [a] + x <= [b] + y {
      assert ([a] + x)[0] == ([b] + y)[0];
      assert ([b] + y)[..1 + |x|] == [a] + x;
      assert y[..|x|] == ([b] + y)[1..1 + |x|] == ([a] + x)[1..] == x;
    }
  }

  lemma SplitNonEmpty(s: string)
    ensures |Split(s)| >= 1
  {
  }

  lemma UnderStep(a: string, r: string, b: string, q: string)
    requires Avoids(a, {'/'}) && Avoids(b, {'/'})
    ensures Under(b + "/" + q, a + "/" + r) <==> a == b && Under(q, r)
  {
    var path, scope := b + "/" + q, a + "/" + r;
    if path == scope {
      CutAtStop(b, '/', q, a, '/', r, {'/'});
    }
    if scope + "/" <= path {
      var z := path[|scope + "/"|..];
      assert path == a + ['/'] + (r + "/" + z);
      CutAtStop(b, '/', q, a, '/', r + "/" + z, {'/'});
      assert r + "/" <= q;
    }
    if a == b && r + "/" <= q {
      assert scope + "/" == a + "/" + (r + "/");
      assert scope + "/" <= path;
    }
  }

  function Slashes(s: string): (t: string)
    ensures |t| == |s|
  {
    seq(|s|, i requires 0 <= i < |s| => if s[i] == '\\' then '/' else s[i])
  }

  function StripLeft(s: string): string {
    if s != [] && s[0] == '/' then StripLeft(s[1..]) else s
  }

  function StripRight(s: string): string {
    if s != [] && s[|s| - 1] == '/' then StripRight(s[..|s| - 1]) else s
  }

  function Canonical(path: string): string {
    StripRight(StripLeft(Slashes(path)))
  }

  predicate PathMatches(scopes: seq<string>, current: Option<string>) {
    if scopes == [] then true
    else if current.None? then false
    else
      var path := Canonical(current.value);
      ".." !in Split(path) &&
      exists i :: 0 <= i < |scopes| && (scopes[i] == "." || path == scopes[i] || scopes[i] + "/" <= path)
  }

  /** The path with forward slashes, without any at either end. */
  ghost predicate IsCanonical(path: string, t: string) {
    && (t != "" ==> t[0] != '/' && t[|t| - 1] != '/')
    && exists a: nat, b: nat :: Framed(path, t, a, b)
  }

  /** t is what lies between a and b leading and trailing slashes of either kind. */
  ghost predicate Framed(path: string, t: string, a: nat, b: nat) {
    && |path| == a + |t| + b
    && (forall i :: 0 <= i < a ==> path[i] in "/\\")
    && (forall i :: 0 <= i < |t| ==> t[i] == if path[a + i] == '\\' then '/' else path[a + i])
    && (forall i :: a + |t| <= i < |path| ==> path[i] in "/\\")
  }

  lemma {:induction false} StripLeftMeans(s: string) returns (a: nat)
    ensures a <= |s| && StripLeft(s) == s[a..] && (forall i :: 0 <= i < a ==> s[i] == '/')
    ensures StripLeft(s) != "" ==> StripLeft(s)[0] != '/'
  {
    a := 0;
    if s != [] && s[0] == '/' {
      var b := StripLeftMeans(s[1..]);
      a := b + 1;
      assert s[1..][b..] == s[a..];
      assert forall i :: 0 < i < a ==> s[i] == s[1..][i - 1];
    }
  }

  lemma {:induction false} StripRightMeans(s: string) returns (n: nat)
    ensures n <= |s| && StripRight(s) == s[..n] && (forall i :: n <= i < |s| ==> s[i] == '/')
    ensures n > 0 ==> s[n - 1] != '/'
    decreases |s|
  {
    n := |s|;
    if s != [] && s[|s| - 1] == '/' {
      n := StripRightMeans(s[..|s| - 1]);
      assert s[..|s| - 1][..n] == s[..n];
    }
  }

  lemma CanonicalMeans(path: string)
    ensures IsCanonical(path, Canonical(path))
  {
    var s := Slashes(path);
    var a := StripLeftMeans(s);
    var n := StripRightMeans(s[a..]);
    var t := Canonical(path);
    assert t == s[a..][..n];
    forall i | 0 <= i < |t| ensures t[i] == if path[a + i] == '\\' then '/' else path[a + i] {
      assert t[i] == s[a + i];
    }
    forall i | a + n <= i < |path| ensures path[i] in "/\\" {
      assert s[i] == s[a..][i - a] == '/';
    }
    forall i | 0 <= i < a ensures path[i] in "/\\" {
      assert s[i] == '/';
    }
    assert Framed(path, t, a, |path| - a - n);
    if t != "" { assert t[0] == s[a..][0]; }
  }

  /** A scoped capability is visible exactly under one of its scopes, component by component. */
  lemma PathMatchesMeansContained(scopes: seq<string>, current: Option<string>)
    ensures PathMatches(scopes, current) <==>
      || scopes == []
      || (current.Some? && ".." !in Split(Canonical(current.value)) &&
          exists i :: 0 <= i < |scopes| && (scopes[i] == "." || Split(scopes[i]) <= Split(Canonical(current.value))))
  {
    if current.Some? {
      forall i | 0 <= i < |scopes|
        ensures Under(Canonical(current.value), scopes[i]) <==> Split(scopes[i]) <= Split(Canonical(current.value))
      {
        UnderIsComponentPrefix(Canonical(current.value), scopes[i]);
      }
    }
  }
}
