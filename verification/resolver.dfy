/** SimpleResolver: orders parse executors so that every executor comes after
    the executors it depends on, by a depth-first traversal over the input in
    input order, and rejects a null input, duplicate target kinds, missing
    dependencies and cycles.

    The functions below are the specification (one per loop or recursive call
    of the source); the class `Traversal` and the method `Resolve` are the
    imperative algorithm, proved equal to them. */
module SimpleResolver {
  import opened ConfigTypes

  /** Every executor in the map is stored under its own target kind. */
  ghost predicate Keyed(m: map<Kind, Producer>) {
    forall k :: k in m ==> m[k].kind == k
  }

  /** The first target kind that the duplicate check meets a second time,
      scanning `ps` in order with the kinds `seen` already in the map. */
  function FirstDuplicate(ps: seq<Producer>, seen: set<Kind>): Option<Kind> {
    if ps == [] then None
    else if ps[0].kind in seen then Some(ps[0].kind)
    else FirstDuplicate(ps[1..], seen + {ps[0].kind})
  }

  /** The duplicate check finds nothing exactly when all kinds are distinct
      and new, and what it finds occurs twice. */
  lemma {:induction false} FirstDuplicateSound(ps: seq<Producer>, seen: set<Kind>)
    ensures FirstDuplicate(ps, seen).None? <==> DistinctKinds(ps) && seen !! KindsOf(ps)
    ensures FirstDuplicate(ps, seen).Some? ==>
              var k := FirstDuplicate(ps, seen).value;
              exists j :: (0 <= j < |ps| && ps[j].kind == k &&
                           (k in seen || exists i :: 0 <= i < j && ps[i].kind == k))
  {
    if ps != [] {
      KindsOfCons(ps);
      DistinctKindsCons(ps);
      if ps[0].kind in seen {
        assert ps[0].kind == FirstDuplicate(ps, seen).value;
      } else {
        FirstDuplicateSound(ps[1..], seen + {ps[0].kind});
        var r := FirstDuplicate(ps, seen);
        if r.Some? {
          var j :| 0 <= j < |ps[1..]| && ps[1..][j].kind == r.value &&
            (r.value in seen + {ps[0].kind} || exists i :: 0 <= i < j && ps[1..][i].kind == r.value);
          assert ps[j + 1].kind == r.value;
          if r.value !in seen {
            if r.value == ps[0].kind {
              assert ps[0].kind == r.value;
            } else {
              var i :| 0 <= i < j && ps[1..][i].kind == r.value;
              assert ps[i + 1].kind == r.value;
            }
          }
        }
      }
    }
  }

  /** The executor map of source lines 15-23: `acc` with each executor of `ps`
      added under its target kind, in order. */
  function Owners(ps: seq<Producer>, acc: map<Kind, Producer>): (m: map<Kind, Producer>)
    requires Keyed(acc)
    ensures Keyed(m)
    ensures m.Keys == acc.Keys + KindsOf(ps)
  {
    KindsOfCons'(ps);
    if ps == [] then acc
    else Owners(ps[1..], acc[ps[0].kind := ps[0]])
  }

  /** With distinct kinds, every executor is found under its own kind, and
      kinds outside `ps` keep their entry. */
  lemma {:induction false} OwnersFind(ps: seq<Producer>, acc: map<Kind, Producer>)
    requires Keyed(acc)
    ensures forall k :: k in acc && k !in KindsOf(ps) ==> Owners(ps, acc)[k] == acc[k]
    ensures DistinctKinds(ps) ==> forall i :: 0 <= i < |ps| ==> Owners(ps, acc)[ps[i].kind] == ps[i]
  {
    if ps != [] {
      KindsOfCons(ps);
      DistinctKindsCons(ps);
      OwnersFind(ps[1..], acc[ps[0].kind := ps[0]]);
      var m := Owners(ps, acc);
      if DistinctKinds(ps) {
        forall i | 0 <= i < |ps| ensures m[ps[i].kind] == ps[i] {
          if i > 0 {
            assert ps[1..][i - 1] == ps[i];
          }
        }
      }
    }
  }

  /** The state shared by the recursive visits: the `visited` set and the
      `sorted` list. */
  datatype Walk = Walk(visited: set<Kind>, sorted: seq<Producer>)

  /** `Visit` of source lines 37-67 as a function: `stack` holds the kinds on
      the current path; the result is the walk after visiting `p`, or the
      error that stopped it. */
  function Dfs(m: map<Kind, Producer>, stack: set<Kind>, p: Producer, w: Walk): Result<Walk>
    requires Keyed(m) && p.kind in m && stack <= m.Keys
    decreases |m.Keys - stack|, 0, 0
  {
    if p.kind in w.visited then Ok(w)
    else if p.kind in stack then Err(CircularDependency(p.kind))
    else
      FewerUnstacked(m.Keys, stack, p.kind);
      match DfsDeps(m, stack + {p.kind}, p.deps, w)
      case Err(e) => Err(e)
      case Ok(w') => Ok(Walk(w'.visited + {p.kind}, w'.sorted + [p]))
  }

  /** The loop over the dependencies of one executor (source lines 54-62). */
  function DfsDeps(m: map<Kind, Producer>, stack: set<Kind>, ds: seq<Kind>, w: Walk): Result<Walk>
    requires Keyed(m) && stack <= m.Keys
    decreases |m.Keys - stack|, 1, |ds|
  {
    if ds == [] then Ok(w)
    else if ds[0] !in m then Err(MissingDependency(ds[0]))
    else
      match Dfs(m, stack, m[ds[0]], w)
      case Err(e) => Err(e)
      case Ok(w') => DfsDeps(m, stack, ds[1..], w')
  }

  /** The top-level loop over the executors in input order (source lines 29-32). */
  function DfsAll(m: map<Kind, Producer>, ps: seq<Producer>, w: Walk): Result<Walk>
    requires Keyed(m) && forall i :: 0 <= i < |ps| ==> ps[i].kind in m
  {
    if ps == [] then Ok(w)
    else
      match Dfs(m, {}, ps[0], w)
      case Err(e) => Err(e)
      case Ok(w') => DfsAll(m, ps[1..], w')
  }

  /** The duplicate check of source lines 15-23: the executor map, or the
      first target kind met twice. */
  function ExecutorMap(ps: seq<Producer>): (r: Result<map<Kind, Producer>>)
    ensures r.Ok? ==> Keyed(r.value) && r.value.Keys == KindsOf(ps)
  {
    match FirstDuplicate(ps, {})
    case Some(k) => Err(DuplicateExecutor(k))
    case None => Ok(Owners(ps, map[]))
  }

  /** `Resolve` as a function of its input; `None` is a null array. */
  function ResolveSpec(input: Option<seq<Producer>>): Result<seq<Producer>> {
    match input
    case None => Err(NullArgument)
    case Some(ps) =>
      match ExecutorMap(ps)
      case Err(e) => Err(e)
      case Ok(m) =>
        match DfsAll(m, ps, Walk({}, []))
        case Err(e) => Err(e)
        case Ok(w) => Ok(w.sorted)
  }

  /** Pushing a kind of the map that is not yet on the stack leaves fewer
      kinds off the stack: the measure that ends the recursion. */
  lemma FewerUnstacked(keys: set<Kind>, stack: set<Kind>, k: Kind)
    requires k in keys && k !in stack
    ensures |keys - (stack + {k})| < |keys - stack|
  {
    assert keys - (stack + {k}) == (keys - stack) - {k};
  }

  /** The `visited`, `stack` and `sorted` collections that the recursive
      visits of one `Resolve` call share and update in place. */
  class Traversal {
    var visited: set<Kind>
    var stack: set<Kind>
    var sorted: seq<Producer>

    constructor ()
      ensures visited == {} && stack == {} && sorted == []
    {
      visited, stack, sorted := {}, {}, [];
    }

    /** Source lines 37-67: visits `executor` and, first, its dependencies. */
    method Visit(executor: Producer, m: map<Kind, Producer>) returns (e: Outcome)
      requires Keyed(m) && executor.kind in m && stack <= m.Keys
      modifies this
      ensures e.Pass? ==> stack == old(stack)
      ensures Dfs(m, old(stack), executor, old(Walk(visited, sorted)))
              == if e.Pass? then Ok(Walk(visited, sorted)) else Err(e.error)
      decreases |m.Keys - stack|, 0
    {
      if executor.kind in visited {
        return Pass;
      }
      if executor.kind in stack {
        return Fail(CircularDependency(executor.kind));
      }
      ghost var w0 := Walk(visited, sorted);
      FewerUnstacked(m.Keys, stack, executor.kind);
      stack := stack + {executor.kind};
      ghost var path := stack;
      var i := 0;
      while i < |executor.deps|
        invariant 0 <= i <= |executor.deps|
        invariant stack == path
        invariant DfsDeps(m, path, executor.deps, w0)
                  == DfsDeps(m, path, executor.deps[i..], Walk(visited, sorted))
      {
        var depType := executor.deps[i];
        if depType !in m {
          return Fail(MissingDependency(depType));
        }
        assert executor.deps[i..][1..] == executor.deps[i + 1..];
        e := Visit(m[depType], m);
        if e.Fail? {
          return;
        }
        i := i + 1;
      }
      stack := stack - {executor.kind};
      visited := visited + {executor.kind};
      sorted := sorted + [executor];
      e := Pass;
    }
  }

  /** One step of the duplicate check and of the map it fills. */
  lemma OwnersStep(ps: seq<Producer>, i: nat, owners: map<Kind, Producer>)
    requires i < |ps| && Keyed(owners)
    ensures ps[i].kind in owners ==> FirstDuplicate(ps[i..], owners.Keys) == Some(ps[i].kind)
    ensures ps[i].kind !in owners ==>
              && FirstDuplicate(ps[i..], owners.Keys) == FirstDuplicate(ps[i + 1..], owners[ps[i].kind := ps[i]].Keys)
              && Owners(ps[i..], owners) == Owners(ps[i + 1..], owners[ps[i].kind := ps[i]])
  {
    assert ps[i..][0] == ps[i] && ps[i..][1..] == ps[i + 1..];
    assert owners[ps[i].kind := ps[i]].Keys == owners.Keys + {ps[i].kind};
  }

  /** Source lines 15-23: fills the executor map, failing on the first
      target kind that is already in it. */
  method BuildExecutorMap(parseExecutors: array<Producer>) returns (r: Result<map<Kind, Producer>>)
    ensures r == ExecutorMap(parseExecutors[..])
  {
    ghost var ps := parseExecutors[..];
    assert ps[0..] == ps;
    var owners: map<Kind, Producer> := map[];
    assert owners.Keys == {};
    for i := 0 to parseExecutors.Length
      invariant Keyed(owners)
      invariant FirstDuplicate(ps, {}) == FirstDuplicate(ps[i..], owners.Keys)
      invariant Owners(ps, map[]) == Owners(ps[i..], owners)
    {
      var key := parseExecutors[i].kind;
      OwnersStep(ps, i, owners);
      if key in owners {
        return Err(DuplicateExecutor(key));
      }
      owners := owners[key := parseExecutors[i]];
    }
    assert ps[parseExecutors.Length..] == [];
    return Ok(owners);
  }

  /** Source lines 8-35. */
  method Resolve(parseExecutors: array?<Producer>) returns (r: Result<seq<Producer>>)
    ensures r == ResolveSpec(if parseExecutors == null then None else Some(parseExecutors[..]))
  {
    if parseExecutors == null {
      return Err(NullArgument);
    }
    ghost var ps := parseExecutors[..];
    var built := BuildExecutorMap(parseExecutors);
    if built.Err? {
      return Err(built.error);
    }
    var owners := built.value;
    assert ps[0..] == ps;
    var t := new Traversal();
    for i := 0 to parseExecutors.Length
      invariant t.stack == {}
      invariant DfsAll(owners, ps, Walk({}, [])) == DfsAll(owners, ps[i..], Walk(t.visited, t.sorted))
    {
      assert ps[i..][1..] == ps[i + 1..];
      var e := t.Visit(parseExecutors[i], owners);
      if e.Fail? {
        return Err(e.error);
      }
    }
    assert ps[parseExecutors.Length..] == [];
    return Ok(t.sorted);
  }
}
