/** What `Resolve` promises: the errors it reports are genuine and come in the
    order of the source's checks, and a successful result is a permutation of
    the input in which every executor follows the executors it depends on. */
module ResolverProperties {
  import opened ConfigTypes
  import opened SimpleResolver

  /** `b` is a dependency of the executor owning `a`, and has an owner too. */
  ghost predicate Edge(m: map<Kind, Producer>, a: Kind, b: Kind) {
    a in m && b in m && b in m[a].deps
  }

  /** A chain of at least one dependency edge. */
  ghost predicate IsPath(m: map<Kind, Producer>, path: seq<Kind>) {
    |path| >= 2 && forall i :: 0 <= i < |path| - 1 ==> Edge(m, path[i], path[i + 1])
  }

  /** `a` depends on `b`, directly or through other executors. */
  ghost predicate Reaches(m: map<Kind, Producer>, a: Kind, b: Kind) {
    exists path :: IsPath(m, path) && path[0] == a && path[|path| - 1] == b
  }

  /** The executor map `Resolve` builds for an input. */
  function Graph(ps: seq<Producer>): map<Kind, Producer> {
    Owners(ps, map[])
  }

  /** Every dependency names the target kind of some executor. */
  predicate Complete(ps: seq<Producer>) {
    forall i, d :: 0 <= i < |ps| && d in ps[i].deps ==> d in KindsOf(ps)
  }

  /** No kind depends on itself, directly or through other executors. */
  ghost predicate Acyclic(ps: seq<Producer>) {
    forall k :: !Reaches(Graph(ps), k, k)
  }

  lemma EdgeReaches(m: map<Kind, Producer>, a: Kind, b: Kind)
    requires Edge(m, a, b)
    ensures Reaches(m, a, b)
  {
    assert IsPath(m, [a, b]);
  }

  lemma ReachesExtend(m: map<Kind, Producer>, a: Kind, b: Kind, c: Kind)
    requires Reaches(m, a, b) && Edge(m, b, c)
    ensures Reaches(m, a, c)
  {
    var path :| IsPath(m, path) && path[0] == a && path[|path| - 1] == b;
    var longer := path + [c];
    forall i | 0 <= i < |longer| - 1 ensures Edge(m, longer[i], longer[i + 1]) {
      if i < |path| - 1 {
        assert longer[i] == path[i] && longer[i + 1] == path[i + 1];
      }
    }
    assert IsPath(m, longer);
  }

  /** What the traversal keeps true of `visited` and `sorted`: `sorted` holds
      executors of the map, each kind once, `visited` is exactly their kinds,
      and each executor follows its dependencies. */
  ghost predicate WalkOk(m: map<Kind, Producer>, w: Walk) {
    && (forall i :: 0 <= i < |w.sorted| ==> w.sorted[i].kind in m && m[w.sorted[i].kind] == w.sorted[i])
    && DistinctKinds(w.sorted)
    && w.visited == KindsOf(w.sorted)
    && DepsBefore(w.sorted)
  }

  /** Appending an executor whose dependencies are all visited (source lines
      64-66) keeps the walk well formed. */
  lemma AppendKeeps(m: map<Kind, Producer>, w: Walk, p: Producer)
    requires WalkOk(m, w) && p.kind in m && m[p.kind] == p && p.kind !in w.visited
    requires forall d :: d in p.deps ==> d in w.visited
    ensures WalkOk(m, Walk(w.visited + {p.kind}, w.sorted + [p]))
  {
    var s := w.sorted + [p];
    KindsOfSnoc(w.sorted, p);
    forall i, d | 0 <= i < |s| && d in s[i].deps ensures exists j :: 0 <= j < i && s[j].kind == d {
      if i < |w.sorted| {
        assert s[i] == w.sorted[i];
        var j :| 0 <= j < i && w.sorted[j].kind == d;
        assert s[j].kind == d;
      } else {
        var j :| 0 <= j < |w.sorted| && w.sorted[j].kind == d;
        assert s[j].kind == d;
      }
    }
  }

  lemma {:induction false} DfsKeeps(m: map<Kind, Producer>, stack: set<Kind>, p: Producer, w: Walk)
    requires Keyed(m) && p.kind in m && m[p.kind] == p && stack <= m.Keys
    requires WalkOk(m, w) && stack !! w.visited
    ensures Dfs(m, stack, p, w).Ok? ==>
              var w' := Dfs(m, stack, p, w).value;
              && WalkOk(m, w') && w.sorted <= w'.sorted && w.visited <= w'.visited
              && stack !! w'.visited && p.kind in w'.visited
    decreases |m.Keys - stack|, 0, 0
  {
    if p.kind !in w.visited && p.kind !in stack {
      FewerUnstacked(m.Keys, stack, p.kind);
      DfsDepsKeeps(m, stack + {p.kind}, p.deps, w);
      var r := DfsDeps(m, stack + {p.kind}, p.deps, w);
      if r.Ok? {
        AppendKeeps(m, r.value, p);
      }
    }
  }

  lemma {:induction false} DfsDepsKeeps(m: map<Kind, Producer>, stack: set<Kind>, ds: seq<Kind>, w: Walk)
    requires Keyed(m) && stack <= m.Keys
    requires WalkOk(m, w) && stack !! w.visited
    ensures DfsDeps(m, stack, ds, w).Ok? ==>
              var w' := DfsDeps(m, stack, ds, w).value;
              && WalkOk(m, w') && w.sorted <= w'.sorted && w.visited <= w'.visited
              && stack !! w'.visited && (forall d :: d in ds ==> d in w'.visited)
    decreases |m.Keys - stack|, 1, |ds|
  {
    if ds != [] && ds[0] in m {
      DfsKeeps(m, stack, m[ds[0]], w);
      var r := Dfs(m, stack, m[ds[0]], w);
      if r.Ok? {
        DfsDepsKeeps(m, stack, ds[1..], r.value);
        assert forall d :: d in ds ==> d == ds[0] || d in ds[1..];
      }
    }
  }

  lemma {:induction false} DfsAllKeeps(m: map<Kind, Producer>, ps: seq<Producer>, w: Walk)
    requires Keyed(m) && forall i :: 0 <= i < |ps| ==> ps[i].kind in m && m[ps[i].kind] == ps[i]
    requires WalkOk(m, w)
    ensures DfsAll(m, ps, w).Ok? ==>
              var w' := DfsAll(m, ps, w).value;
              WalkOk(m, w') && w.visited <= w'.visited && KindsOf(ps) <= w'.visited
  {
    if ps != [] {
      KindsOfCons(ps);
      DfsKeeps(m, {}, ps[0], w);
      var r := Dfs(m, {}, ps[0], w);
      if r.Ok? {
        DfsAllKeeps(m, ps[1..], r.value);
      }
    }
  }

  /** An error of the traversal names a dependency that no executor owns but
      some executor declares, or a kind that depends on itself. */
  ghost predicate ErrorSound(m: map<Kind, Producer>, e: Error) {
    || (e.MissingDependency? && e.kind !in m && exists k :: k in m && e.kind in m[k].deps)
    || (e.CircularDependency? && Reaches(m, e.kind, e.kind))
  }

  lemma {:induction false} DfsErrors(m: map<Kind, Producer>, stack: set<Kind>, p: Producer, w: Walk)
    requires Keyed(m) && p.kind in m && m[p.kind] == p && stack <= m.Keys
    requires forall s :: s in stack ==> Reaches(m, s, p.kind)
    ensures Dfs(m, stack, p, w).Err? ==> ErrorSound(m, Dfs(m, stack, p, w).error)
    decreases |m.Keys - stack|, 0, 0
  {
    if p.kind !in w.visited && p.kind !in stack {
      FewerUnstacked(m.Keys, stack, p.kind);
      forall s, d | s in stack + {p.kind} && d in p.deps && d in m ensures Reaches(m, s, d) {
        assert Edge(m, p.kind, d);
        if s == p.kind {
          EdgeReaches(m, s, d);
        } else {
          ReachesExtend(m, s, p.kind, d);
        }
      }
      DfsDepsErrors(m, stack + {p.kind}, p.kind, p.deps, w);
    }
  }

  lemma {:induction false} DfsDepsErrors(m: map<Kind, Producer>, stack: set<Kind>, owner: Kind, ds: seq<Kind>, w: Walk)
    requires Keyed(m) && stack <= m.Keys
    requires owner in m && forall d :: d in ds ==> d in m[owner].deps
    requires forall s, d :: s in stack && d in ds && d in m ==> Reaches(m, s, d)
    ensures DfsDeps(m, stack, ds, w).Err? ==> ErrorSound(m, DfsDeps(m, stack, ds, w).error)
    decreases |m.Keys - stack|, 1, |ds|
  {
    if ds != [] && ds[0] in m {
      DfsErrors(m, stack, m[ds[0]], w);
      var r := Dfs(m, stack, m[ds[0]], w);
      if r.Ok? {
        DfsDepsErrors(m, stack, owner, ds[1..], r.value);
      }
    }
  }

  lemma {:induction false} DfsAllErrors(m: map<Kind, Producer>, ps: seq<Producer>, w: Walk)
    requires Keyed(m) && forall i :: 0 <= i < |ps| ==> ps[i].kind in m && m[ps[i].kind] == ps[i]
    ensures DfsAll(m, ps, w).Err? ==> ErrorSound(m, DfsAll(m, ps, w).error)
  {
    if ps != [] {
      DfsErrors(m, {}, ps[0], w);
      var r := Dfs(m, {}, ps[0], w);
      if r.Ok? {
        DfsAllErrors(m, ps[1..], r.value);
      }
    }
  }

  /** With distinct kinds the executor map holds each executor under its kind. */
  lemma GraphOwners(ps: seq<Producer>)
    requires DistinctKinds(ps)
    ensures Keyed(Graph(ps)) && Graph(ps).Keys == KindsOf(ps)
    ensures forall i :: 0 <= i < |ps| ==> Graph(ps)[ps[i].kind] == ps[i]
  {
    OwnersFind(ps, map[]);
  }

  /** Errors of the traversal, lifted to `ResolveSpec`. */
  lemma TraversalErrors(ps: seq<Producer>)
    requires DistinctKinds(ps)
    ensures ExecutorMap(ps) == Ok(Graph(ps))
    ensures ResolveSpec(Some(ps)).Err? ==> ErrorSound(Graph(ps), ResolveSpec(Some(ps)).error)
  {
    FirstDuplicateSound(ps, {});
    GraphOwners(ps);
    DfsAllErrors(Graph(ps), ps, Walk({}, []));
  }

  /** Source lines 10-13: only a null array gives the invalid-argument error. */
  lemma NullArgumentOnlyForNull(input: Option<seq<Producer>>)
    ensures ResolveSpec(input) == Err(NullArgument) <==> input.None?
  {
    if input.Some? {
      FirstDuplicateSound(input.value, {});
      if DistinctKinds(input.value) {
        TraversalErrors(input.value);
      }
    }
  }

  /** Source lines 15-23: repeated target kinds are reported before any
      traversal, whatever else is wrong, and a duplicate error names a kind
      that two executors target. */
  lemma DuplicateReportedFirst(ps: seq<Producer>)
    ensures !DistinctKinds(ps) ==>
              ResolveSpec(Some(ps)).Err? && ResolveSpec(Some(ps)).error.DuplicateExecutor?
    ensures ResolveSpec(Some(ps)).Err? && ResolveSpec(Some(ps)).error.DuplicateExecutor? ==>
              var k := ResolveSpec(Some(ps)).error.kind;
              exists i, j :: 0 <= i < j < |ps| && ps[i].kind == k && ps[j].kind == k
  {
    FirstDuplicateSound(ps, {});
    if DistinctKinds(ps) {
      TraversalErrors(ps);
    } else {
      var k := FirstDuplicate(ps, {}).value;
      var j :| 0 <= j < |ps| && ps[j].kind == k && (k in {} || exists i :: 0 <= i < j && ps[i].kind == k);
      var i :| 0 <= i < j && ps[i].kind == k;
      assert ps[i].kind == k && ps[j].kind == k;
    }
  }

  /** Source lines 56-59: a missing-dependency error names a kind that some
      executor declares and no executor produces. */
  lemma MissingDependencySound(ps: seq<Producer>, k: Kind)
    requires ResolveSpec(Some(ps)) == Err(MissingDependency(k))
    ensures k !in KindsOf(ps)
    ensures exists i :: 0 <= i < |ps| && k in ps[i].deps
  {
    FirstDuplicateSound(ps, {});
    TraversalErrors(ps);
    GraphOwners(ps);
    var m := Graph(ps);
    var o :| o in m && k in m[o].deps;
    var i :| 0 <= i < |ps| && ps[i].kind == o;
    assert m[o] == ps[i];
  }

  /** Source lines 49-52: a circular-dependency error names a kind that
      depends on itself. */
  lemma CircularDependencySound(ps: seq<Producer>, k: Kind)
    requires ResolveSpec(Some(ps)) == Err(CircularDependency(k))
    ensures Reaches(Graph(ps), k, k)
  {
    FirstDuplicateSound(ps, {});
    TraversalErrors(ps);
  }

  /** The converse of the three error lemmas: distinct kinds, no missing
      dependency and no cycle give a result. */
  lemma ResolveSucceeds(ps: seq<Producer>)
    requires DistinctKinds(ps) && Complete(ps) && Acyclic(ps)
    ensures ResolveSpec(Some(ps)).Ok?
  {
    TraversalErrors(ps);
    GraphOwners(ps);
    var m := Graph(ps);
    forall o, d | o in m && d in m[o].deps ensures d in m {
      var i :| 0 <= i < |ps| && ps[i].kind == o;
      assert m[o] == ps[i];
    }
  }

  /** Source lines 29-35, 44-47 and 64-66: a successful result holds every
      executor exactly once, no two of them with the same target kind, and
      each executor comes after the owners of all its dependencies. */
  lemma ResolveSortsTopologically(ps: seq<Producer>)
    requires ResolveSpec(Some(ps)).Ok?
    ensures var out := ResolveSpec(Some(ps)).value;
            multiset(out) == multiset(ps) && DistinctKinds(out) && DepsBefore(out)
  {
    FirstDuplicateSound(ps, {});
    GraphOwners(ps);
    var m := Graph(ps);
    var w0 := Walk({}, []);
    assert WalkOk(m, w0);
    DfsAllKeeps(m, ps, w0);
    var w := DfsAll(m, ps, w0).value;
    var out := w.sorted;
    assert out == ResolveSpec(Some(ps)).value;
    SortedHoldsInput(ps, m, out);
    DistinctKindsDistinct(out);
    DistinctKindsDistinct(ps);
    DistinctSameElements(out, ps);
  }

  /** A walk over the executor map of an input with distinct kinds that
      visits every kind holds exactly the input's executors. */
  lemma SortedHoldsInput(ps: seq<Producer>, m: map<Kind, Producer>, out: seq<Producer>)
    requires forall i :: 0 <= i < |ps| ==> ps[i].kind in m && m[ps[i].kind] == ps[i]
    requires m.Keys == KindsOf(ps)
    requires forall i :: 0 <= i < |out| ==> out[i].kind in m && m[out[i].kind] == out[i]
    requires KindsOf(ps) <= KindsOf(out)
    ensures forall x :: x in out <==> x in ps
  {
    forall x ensures x in out <==> x in ps {
      if x in out {
        var i :| 0 <= i < |out| && out[i] == x;
        var j :| 0 <= j < |ps| && ps[j].kind == x.kind;
        assert x == m[x.kind] == ps[j];
      }
      if x in ps {
        var j :| 0 <= j < |ps| && ps[j] == x;
        assert x.kind in KindsOf(ps);
        var i :| 0 <= i < |out| && out[i].kind == x.kind;
        assert out[i] == m[x.kind] == x;
      }
    }
  }

  lemma {:induction false} DfsDepsAllVisited(m: map<Kind, Producer>, stack: set<Kind>, ds: seq<Kind>, w: Walk)
    requires Keyed(m) && stack <= m.Keys
    requires forall d :: d in ds ==> d in m && d in w.visited
    ensures DfsDeps(m, stack, ds, w) == Ok(w)
  {
    if ds != [] {
      assert Dfs(m, stack, m[ds[0]], w) == Ok(w);
      DfsDepsAllVisited(m, stack, ds[1..], w);
    }
  }

  lemma {:induction false} DfsAllOrdered(m: map<Kind, Producer>, ps: seq<Producer>, i: nat)
    requires Keyed(m) && DistinctKinds(ps) && DepsBefore(ps) && i <= |ps|
    requires forall j :: 0 <= j < |ps| ==> ps[j].kind in m
    ensures DfsAll(m, ps[i..], Walk(KindsOf(ps[..i]), ps[..i])) == Ok(Walk(KindsOf(ps), ps))
    decreases |ps| - i
  {
    if i == |ps| {
      assert ps[..i] == ps;
    } else {
      var w := Walk(KindsOf(ps[..i]), ps[..i]);
      var p := ps[i];
      assert p.kind !in w.visited;
      forall d | d in p.deps ensures d in m && d in w.visited {
        var j :| 0 <= j < i && ps[j].kind == d;
        assert ps[..i][j].kind == d;
      }
      assert {} + {p.kind} == {p.kind};
      DfsDepsAllVisited(m, {p.kind}, p.deps, w);
      assert Dfs(m, {}, p, w) == Ok(Walk(w.visited + {p.kind}, ps[..i] + [p]));
      assert ps[..i] + [p] == ps[..i + 1];
      KindsOfSnoc(ps[..i], p);
      assert ps[i..][1..] == ps[i + 1..];
      DfsAllOrdered(m, ps, i + 1);
    }
  }

  /** Source lines 29-34: an input that already lists every executor after
      its dependencies comes back unchanged. In particular the empty input,
      a single independent executor and executors without dependencies keep
      their input order. */
  lemma ResolveKeepsOrderedInput(ps: seq<Producer>)
    requires DistinctKinds(ps) && DepsBefore(ps)
    ensures ResolveSpec(Some(ps)) == Ok(ps)
  {
    FirstDuplicateSound(ps, {});
    GraphOwners(ps);
    assert ps[..0] == [] && ps[0..] == ps;
    assert KindsOf([]) == {};
    DfsAllOrdered(Graph(ps), ps, 0);
  }
}
