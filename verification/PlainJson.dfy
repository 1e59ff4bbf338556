/**
 * Copying an object graph, possibly shared or cyclic, into a plain JSON tree.
 */
module PlainJson {
  import opened Options

  datatype Scalar = Null | Bool(b: bool) | Int(i: int) | Float(text: string) | Str(s: string)

  /** A value is a scalar, a float that is not finite, a reference to a container, or anything else. */
  datatype Value = Plain(scalar: Scalar) | NotFinite | Ref(id: nat) | Unsupported

  datatype Key = Text(s: string) | NotText

  datatype Container = Mapping(keys: seq<Key>, values: seq<Value>) | Listing(values: seq<Value>)

  type Heap = map<nat, Container>

  datatype Tree = Leaf(scalar: Scalar) | Obj(keys: seq<string>, children: seq<Tree>) | Arr(children: seq<Tree>)

  predicate TextKeys(keys: seq<Key>) {
    forall i :: 0 <= i < |keys| ==> keys[i].Text?
  }

  function KeyTexts(keys: seq<Key>): (ts: seq<string>)
    requires TextKeys(keys)
    ensures |ts| == |keys| && forall i :: 0 <= i < |ts| ==> keys[i] == Text(ts[i])
  {
    seq(|keys|, i requires 0 <= i < |keys| => keys[i].s)
  }

  /** The copy, or None where the original raises; seen holds the containers being copied. */
  function Copy(h: Heap, v: Value, seen: set<nat>): Option<Tree>
    decreases |h.Keys - seen|, 0
  {
    match v
    case Plain(s) => Some(Leaf(s))
    case NotFinite => None
    case Unsupported => None
    case Ref(id) =>
      if id !in h || id in seen then None
      else
        assert h.Keys - (seen + {id}) == (h.Keys - seen) - {id};
        if h[id].Mapping? && !TextKeys(h[id].keys) then None
        else
          match CopyAll(h, h[id].values, seen + {id})
          case None => None
          case Some(ts) => Some(if h[id].Mapping? then Obj(KeyTexts(h[id].keys), ts) else Arr(ts))
  }

  function CopyAll(h: Heap, vs: seq<Value>, seen: set<nat>): (r: Option<seq<Tree>>)
    ensures r.Some? ==> |r.value| == |vs|
    decreases |h.Keys - seen|, |vs| + 1
  {
    if vs == [] then Some([])
    else
      match Copy(h, vs[0], seen)
      case None => None
      case Some(t) => match CopyAll(h, vs[1..], seen) case None => None case Some(ts) => Some([t] + ts)
  }

  lemma {:induction false} CopyAllElements(h: Heap, vs: seq<Value>, seen: set<nat>)
    ensures CopyAll(h, vs, seen).Some? <==> forall i :: 0 <= i < |vs| ==> Copy(h, vs[i], seen).Some?
    ensures CopyAll(h, vs, seen).Some? ==>
              forall i :: 0 <= i < |vs| ==> Copy(h, vs[i], seen) == Some(CopyAll(h, vs, seen).value[i])
  {
    if vs != [] {
      CopyAllElements(h, vs[1..], seen);
      assert vs == [vs[0]] + vs[1..];
      assert forall i :: 0 <= i < |vs[1..]| ==> vs[1..][i] == vs[i + 1];
    }
  }

  // ----- When the copy fails: a path to a defect -----

  /** The value found by following child positions. */
  ghost function Follow(h: Heap, v: Value, path: seq<nat>): Option<Value>
    decreases |path|
  {
    if path == [] then Some(v)
    else if v.Ref? && v.id in h && path[0] < |h[v.id].values| then Follow(h, h[v.id].values[path[0]], path[1..])
    else None
  }

  ghost predicate Defective(h: Heap, v: Value) {
    v.NotFinite? || v.Unsupported? || (v.Ref? && (v.id !in h || (h[v.id].Mapping? && !TextKeys(h[v.id].keys))))
  }

  /** The path ends in a defect, or in a container it already passed through. */
  ghost predicate Offends(h: Heap, v: Value, seen: set<nat>, path: seq<nat>) {
    var end := Follow(h, v, path);
    && end.Some?
    && (|| Defective(h, end.value)
        || (end.value.Ref? && end.value.id in seen)
        || (end.value.Ref? && exists k :: 0 <= k < |path| && Follow(h, v, path[..k]) == end))
  }

  lemma {:induction false} FailureHasPath(h: Heap, v: Value, seen: set<nat>) returns (path: seq<nat>)
    requires Copy(h, v, seen).None?
    ensures Offends(h, v, seen, path)
    decreases |h.Keys - seen|
  {
    if Defective(h, v) || v.id in seen {
      path := [];
    } else {
      var vs := h[v.id].values;
      CopyAllElements(h, vs, seen + {v.id});
      var i :| 0 <= i < |vs| && Copy(h, vs[i], seen + {v.id}).None?;
      assert h.Keys - (seen + {v.id}) == (h.Keys - seen) - {v.id};
      var rest := FailureHasPath(h, vs[i], seen + {v.id});
      path := [i] + rest;
      StepOffends(h, v, seen, i, rest);
    }
  }

  lemma StepOffends(h: Heap, v: Value, seen: set<nat>, i: nat, rest: seq<nat>)
    requires v.Ref? && v.id in h && i < |h[v.id].values|
    requires Offends(h, h[v.id].values[i], seen + {v.id}, rest)
    ensures Offends(h, v, seen, [i] + rest)
  {
    var path, u := [i] + rest, h[v.id].values[i];
    assert path[1..] == rest;
    var end := Follow(h, u, rest);
    assert Follow(h, v, path) == end;
    if end.value.Ref? && !Defective(h, end.value) && end.value.id !in seen {
      if end.value.id == v.id {
        assert path[..0] == [];
        assert Follow(h, v, path[..0]) == end;
      } else {
        var k :| 0 <= k < |rest| && Follow(h, u, rest[..k]) == end;
        assert path[..k + 1] == [i] + rest[..k] && path[..k + 1][1..] == rest[..k];
        assert Follow(h, v, path[..k + 1]) == end;
      }
    }
  }

  lemma {:induction false} PathForcesFailure(h: Heap, v: Value, seen: set<nat>, path: seq<nat>)
    requires Offends(h, v, seen, path)
    ensures Copy(h, v, seen).None?
    decreases |path|
  {
    if path != [] && v.id !in seen {
      var vs, rest := h[v.id].values, path[1..];
      var end := Follow(h, v, path);
      if !Defective(h, end.value) && end.value.id !in seen + {v.id} {
        var k :| 0 <= k < |path| && Follow(h, v, path[..k]) == end;
        assert k > 0;
        assert path[..k][1..] == rest[..k - 1];
        assert Follow(h, vs[path[0]], rest[..k - 1]) == end;
      }
      assert Offends(h, vs[path[0]], seen + {v.id}, rest);
      PathForcesFailure(h, vs[path[0]], seen + {v.id}, rest);
      CopyAllElements(h, vs, seen + {v.id});
    }
  }

  /** Copying succeeds exactly when no cycle, bad key or bad leaf can be reached. */
  lemma CopySucceedsIffNoDefect(h: Heap, v: Value)
    ensures Copy(h, v, {}).Some? <==> !exists path :: Offends(h, v, {}, path)
  {
    if Copy(h, v, {}).None? {
      var path := FailureHasPath(h, v, {});
    }
    if path :| Offends(h, v, {}, path) {
      PathForcesFailure(h, v, {}, path);
    }
  }

  // ----- What the copy is: the tree unfolding -----

  /** The tree spells out the graph below v, repeating shared parts. */
  ghost predicate Unfolds(h: Heap, v: Value, t: Tree)
    decreases t
  {
    match t
    case Leaf(s) => v == Plain(s)
    case Arr(ts) =>
      && v.Ref? && v.id in h && h[v.id].Listing? && |h[v.id].values| == |ts|
      && forall i :: 0 <= i < |ts| ==> Unfolds(h, h[v.id].values[i], ts[i])
    case Obj(ks, ts) =>
      && v.Ref? && v.id in h && h[v.id].Mapping? && |h[v.id].values| == |ts|
      && TextKeys(h[v.id].keys) && KeyTexts(h[v.id].keys) == ks
      && forall i :: 0 <= i < |ts| ==> Unfolds(h, h[v.id].values[i], ts[i])
  }

  ghost function Height(t: Tree): nat
    decreases t
  {
    if t.Leaf? then 0 else 1 + Tallest(t.children)
  }

  ghost function Tallest(ts: seq<Tree>): (n: nat)
    ensures forall i :: 0 <= i < |ts| ==> Height(ts[i]) <= n
    decreases ts
  {
    if ts == [] then 0
    else
      var rest := Tallest(ts[1..]);
      assert forall i :: 0 < i < |ts| ==> ts[i] == ts[1..][i - 1];
      if Height(ts[0]) > rest then Height(ts[0]) else rest
  }

  lemma {:induction false} CopyUnfolds(h: Heap, v: Value, seen: set<nat>)
    requires Copy(h, v, seen).Some?
    ensures Unfolds(h, v, Copy(h, v, seen).value)
    decreases |h.Keys - seen|
  {
    if v.Ref? {
      var vs := h[v.id].values;
      assert h.Keys - (seen + {v.id}) == (h.Keys - seen) - {v.id};
      CopyAllElements(h, vs, seen + {v.id});
      forall i | 0 <= i < |vs| ensures Unfolds(h, vs[i], CopyAll(h, vs, seen + {v.id}).value[i]) {
        CopyUnfolds(h, vs[i], seen + {v.id});
      }
    }
  }

  lemma {:induction false} UnfoldingUnique(h: Heap, v: Value, t: Tree, u: Tree)
    requires Unfolds(h, v, t) && Unfolds(h, v, u)
    ensures t == u
    decreases t
  {
    if !t.Leaf? {
      forall i | 0 <= i < |t.children| ensures t.children[i] == u.children[i] {
        UnfoldingUnique(h, h[v.id].values[i], t.children[i], u.children[i]);
      }
    }
  }

  /** Every container being copied unfolds to something taller than t. */
  ghost predicate Above(h: Heap, seen: set<nat>, t: Tree) {
    forall id :: id in seen ==> exists u :: Unfolds(h, Ref(id), u) && Height(u) > Height(t)
  }

  lemma {:induction false} UnfoldingIsCopied(h: Heap, v: Value, seen: set<nat>, t: Tree)
    requires Unfolds(h, v, t) && Above(h, seen, t)
    ensures Copy(h, v, seen) == Some(t)
    decreases t
  {
    if !t.Leaf? {
      assert v.id !in seen by {
        if v.id in seen {
          var u :| Unfolds(h, Ref(v.id), u) && Height(u) > Height(t);
          UnfoldingUnique(h, v, t, u);
        }
      }
      var vs, inner := h[v.id].values, seen + {v.id};
      forall i | 0 <= i < |vs| ensures Copy(h, vs[i], inner) == Some(t.children[i]) {
        assert Height(t.children[i]) < Height(t);
        assert Above(h, inner, t.children[i]);
        UnfoldingIsCopied(h, vs[i], inner, t.children[i]);
      }
      CopyAllElements(h, vs, inner);
      assert CopyAll(h, vs, inner).value == t.children;
    }
  }

  /** The copy is exactly the unfolding, so it exists exactly for graphs that have a finite one. */
  lemma CopyIsUnfolding(h: Heap, v: Value, t: Tree)
    ensures Copy(h, v, {}) == Some(t) <==> Unfolds(h, v, t)
  {
    if Copy(h, v, {}) == Some(t) {
      CopyUnfolds(h, v, {});
    }
    if Unfolds(h, v, t) {
      UnfoldingIsCopied(h, v, {}, t);
    }
  }

  // ----- Copying a copy changes nothing -----

  ghost predicate Extends(h: Heap, g: Heap) {
    forall id :: id in h ==> id in g && g[id] == h[id]
  }

  lemma {:induction false} UnfoldsInExtension(h: Heap, g: Heap, v: Value, t: Tree)
    requires Unfolds(h, v, t) && Extends(h, g)
    ensures Unfolds(g, v, t)
    decreases t
  {
    if !t.Leaf? {
      forall i | 0 <= i < |t.children| ensures Unfolds(g, h[v.id].values[i], t.children[i]) {
        UnfoldsInExtension(h, g, h[v.id].values[i], t.children[i]);
      }
    }
  }

  function Keyed(ks: seq<string>): (keys: seq<Key>)
    ensures TextKeys(keys) && KeyTexts(keys) == ks
  {
    seq(|ks|, i requires 0 <= i < |ks| => Text(ks[i]))
  }

  /** Lays a tree out as fresh containers: the object graph of the returned copy. */
  function Store(t: Tree, h: Heap, next: nat): (r: (Heap, Value, nat))
    ensures (forall id :: id in h ==> id < next) ==> (forall id :: id in r.0 ==> id < r.2) && Extends(h, r.0)
    decreases t
  {
    match t
    case Leaf(s) => (h, Plain(s), next)
    case Arr(ts) =>
      var (g, vs, n) := StoreAll(ts, h, next);
      (g[n := Listing(vs)], Ref(n), n + 1)
    case Obj(ks, ts) =>
      var (g, vs, n) := StoreAll(ts, h, next);
      (g[n := Mapping(Keyed(ks), vs)], Ref(n), n + 1)
  }

  function StoreAll(ts: seq<Tree>, h: Heap, next: nat): (r: (Heap, seq<Value>, nat))
    ensures |r.1| == |ts|
    ensures (forall id :: id in h ==> id < next) ==> (forall id :: id in r.0 ==> id < r.2) && Extends(h, r.0)
    decreases ts
  {
    if ts == [] then (h, [], next)
    else
      var (g, v, n) := Store(ts[0], h, next);
      var (f, vs, m) := StoreAll(ts[1..], g, n);
      (f, [v] + vs, m)
  }

  lemma {:induction false} StoreUnfolds(t: Tree, h: Heap, next: nat)
    requires forall id :: id in h ==> id < next
    ensures Unfolds(Store(t, h, next).0, Store(t, h, next).1, t)
    decreases t
  {
    if !t.Leaf? {
      var (g, vs, n) := StoreAll(t.children, h, next);
      StoreAllUnfolds(t.children, h, next);
      var f := Store(t, h, next).0;
      forall i | 0 <= i < |vs| ensures Unfolds(f, vs[i], t.children[i]) {
        UnfoldsInExtension(g, f, vs[i], t.children[i]);
      }
    }
  }

  lemma {:induction false} StoreAllUnfolds(ts: seq<Tree>, h: Heap, next: nat)
    requires forall id :: id in h ==> id < next
    ensures forall i :: 0 <= i < |ts| ==> Unfolds(StoreAll(ts, h, next).0, StoreAll(ts, h, next).1[i], ts[i])
    decreases ts
  {
    if ts != [] {
      var (g, v, n) := Store(ts[0], h, next);
      var (f, vs, m) := StoreAll(ts[1..], g, n);
      StoreUnfolds(ts[0], h, next);
      StoreAllUnfolds(ts[1..], g, n);
      UnfoldsInExtension(g, f, v, ts[0]);
      forall i | 0 <= i < |ts| ensures Unfolds(f, ([v] + vs)[i], ts[i]) {
        if i > 0 {
          assert ts[i] == ts[1..][i - 1] && ([v] + vs)[i] == vs[i - 1];
        }
      }
    }
  }

  /** Copying the object graph of a copy gives the same tree again. */
  lemma CopyIsIdempotent(h: Heap, v: Value)
    requires Copy(h, v, {}).Some?
    ensures var t := Copy(h, v, {}).value;
      Copy(Store(t, map[], 0).0, Store(t, map[], 0).1, {}) == Some(t)
  {
    var t := Copy(h, v, {}).value;
    StoreUnfolds(t, map[], 0);
    CopyIsUnfolding(Store(t, map[], 0).0, Store(t, map[], 0).1, t);
  }
}
