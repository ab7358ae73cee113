/** Small inputs worked through the resolver: a reversed chain, a cycle of
    three, a self-dependency, a missing dependency, and two unrelated
    executors that the depth-first order swaps. */
module ResolverExamples {
  import opened ConfigTypes
  import opened SimpleResolver
  import opened ResolverProperties

  /** Three executors with distinct kinds pass the duplicate check and are
      stored under their kinds. */
  lemma ThreeOwners(p: Producer, q: Producer, r: Producer)
    requires p.kind != q.kind && q.kind != r.kind && p.kind != r.kind
    ensures FirstDuplicate([p, q, r], {}) == None
    ensures Owners([p, q, r], map[]) == map[p.kind := p, q.kind := q, r.kind := r]
  {
    var ps := [p, q, r];
    assert ps[1..] == [q, r] && ps[1..][1..] == [r] && ps[1..][1..][1..] == [];
    assert FirstDuplicate([r], {p.kind, q.kind}) == None;
    assert {} + {p.kind} == {p.kind} && {p.kind} + {q.kind} == {p.kind, q.kind};
    assert FirstDuplicate([q, r], {p.kind}) == None;
    assert Owners([r], map[p.kind := p, q.kind := q]) == map[p.kind := p, q.kind := q, r.kind := r];
    assert Owners([q, r], map[p.kind := p]) == map[p.kind := p, q.kind := q, r.kind := r];
  }

  /** One visit of an unvisited executor off the stack whose dependencies
      visit to `w'`. */
  lemma DfsAppends(m: map<Kind, Producer>, stack: set<Kind>, p: Producer, w: Walk, w': Walk)
    requires Keyed(m) && p.kind in m && stack <= m.Keys
    requires p.kind !in w.visited && p.kind !in stack
    requires DfsDeps(m, stack + {p.kind}, p.deps, w) == Ok(w')
    ensures Dfs(m, stack, p, w) == Ok(Walk(w'.visited + {p.kind}, w'.sorted + [p]))
  {
  }

  /** The visit of C in [C needs B, B needs A, A] reaches A through B and
      appends A, B and C in that order. */
  lemma ReversedChainVisit(a: Kind, b: Kind, c: Kind)
    requires a != b && b != c && a != c
    ensures var pa, pb, pc := Producer(a, []), Producer(b, [a]), Producer(c, [b]);
            Dfs(map[c := pc, b := pb, a := pa], {}, pc, Walk({}, [])) == Ok(Walk({a, b, c}, [pa, pb, pc]))
  {
    var pa, pb, pc := Producer(a, []), Producer(b, [a]), Producer(c, [b]);
    var m := map[c := pc, b := pb, a := pa];
    var w0 := Walk({}, []);
    var w1 := Walk({a}, [pa]);
    var w2 := Walk({a, b}, [pa, pb]);
    DfsAppends(m, {c, b}, pa, w0, w0);
    assert {} + {a} == {a} && [] + [pa] == [pa];
    assert DfsDeps(m, {c, b}, [a], w0) == Ok(w1);
    assert {c} + {b} == {c, b};
    DfsAppends(m, {c}, pb, w0, w1);
    assert {a} + {b} == {a, b} && [pa] + [pb] == [pa, pb];
    assert DfsDeps(m, {c}, [b], w0) == Ok(w2);
    assert {} + {c} == {c};
    DfsAppends(m, {}, pc, w0, w2);
    assert {a, b} + {c} == {a, b, c} && [pa, pb] + [pc] == [pa, pb, pc];
  }

  /** Source lines 29-66: [C needs B, B needs A, A] resolves to [A, B, C]. */
  lemma ReversedChainResolves(a: Kind, b: Kind, c: Kind)
    requires a != b && b != c && a != c
    ensures var pa, pb, pc := Producer(a, []), Producer(b, [a]), Producer(c, [b]);
            ResolveSpec(Some([pc, pb, pa])) == Ok([pa, pb, pc])
  {
    var pa, pb, pc := Producer(a, []), Producer(b, [a]), Producer(c, [b]);
    var ps := [pc, pb, pa];
    ThreeOwners(pc, pb, pa);
    var m := map[c := pc, b := pb, a := pa];
    var w3 := Walk({a, b, c}, [pa, pb, pc]);
    ReversedChainVisit(a, b, c);
    assert [pb, pa][1..] == [pa] && ps[1..] == [pb, pa];
    assert DfsAll(m, [pa], w3) == Ok(w3);
    assert DfsAll(m, [pb, pa], w3) == Ok(w3);
    assert DfsAll(m, ps, Walk({}, [])) == Ok(w3);
  }

  /** Source lines 49-52: in [A needs C, B needs A, C needs B] the traversal
      starts at A and meets A again on its own path, so the cycle error
      names A. */
  lemma ThreeCycleNamesFirst(a: Kind, b: Kind, c: Kind)
    requires a != b && b != c && a != c
    ensures ResolveSpec(Some([Producer(a, [c]), Producer(b, [a]), Producer(c, [b])]))
            == Err(CircularDependency(a))
  {
    var pa, pb, pc := Producer(a, [c]), Producer(b, [a]), Producer(c, [b]);
    var ps := [pa, pb, pc];
    ThreeOwners(pa, pb, pc);
    var m := map[a := pa, b := pb, c := pc];
    var w0 := Walk({}, []);
    var e := Err(CircularDependency(a));
    assert Dfs(m, {a, c, b}, pa, w0) == e;
    assert DfsDeps(m, {a, c, b}, [a], w0) == e;
    assert {a, c} + {b} == {a, c, b};
    assert Dfs(m, {a, c}, pb, w0) == e;
    assert DfsDeps(m, {a, c}, [b], w0) == e;
    assert {a} + {c} == {a, c};
    assert Dfs(m, {a}, pc, w0) == e;
    assert DfsDeps(m, {a}, [c], w0) == e;
    assert {} + {a} == {a};
    assert Dfs(m, {}, pa, w0) == e;
    assert DfsAll(m, ps, w0) == e;
  }

  /** An executor that depends on its own kind is a cycle. */
  lemma SelfDependencyIsCycle(a: Kind)
    ensures ResolveSpec(Some([Producer(a, [a])])) == Err(CircularDependency(a))
  {
    var pa := Producer(a, [a]);
    var m := map[a := pa];
    assert [pa][1..] == [];
    assert FirstDuplicate([pa], {}) == None;
    assert Owners([pa], map[]) == m;
    assert {} + {a} == {a};
    assert DfsDeps(m, {a}, [a], Walk({}, [])) == Err(CircularDependency(a));
    assert Dfs(m, {}, pa, Walk({}, [])) == Err(CircularDependency(a));
    assert DfsAll(m, [pa], Walk({}, [])) == Err(CircularDependency(a));
  }

  /** Source lines 56-59: a dependency nobody produces is reported by kind. */
  lemma UnknownDependencyIsMissing(a: Kind, b: Kind)
    requires a != b
    ensures ResolveSpec(Some([Producer(a, [b])])) == Err(MissingDependency(b))
  {
    var pa := Producer(a, [b]);
    var m := map[a := pa];
    assert [pa][1..] == [];
    assert FirstDuplicate([pa], {}) == None;
    assert Owners([pa], map[]) == m;
    assert DfsDeps(m, {} + {a}, [b], Walk({}, [])) == Err(MissingDependency(b));
    assert Dfs(m, {}, pa, Walk({}, [])) == Err(MissingDependency(b));
    assert DfsAll(m, [pa], Walk({}, [])) == Err(MissingDependency(b));
  }

  /** The visits of C and then B in [C needs A, B, A]: C pulls A in
      first. */
  lemma UnrelatedVisits(a: Kind, b: Kind, c: Kind)
    requires a != b && b != c && a != c
    ensures var pa, pb, pc := Producer(a, []), Producer(b, []), Producer(c, [a]);
            var m := map[c := pc, b := pb, a := pa];
            && Dfs(m, {}, pc, Walk({}, [])) == Ok(Walk({a, c}, [pa, pc]))
            && Dfs(m, {}, pb, Walk({a, c}, [pa, pc])) == Ok(Walk({a, c, b}, [pa, pc, pb]))
  {
    var pa, pb, pc := Producer(a, []), Producer(b, []), Producer(c, [a]);
    var m := map[c := pc, b := pb, a := pa];
    var w0 := Walk({}, []);
    var w1 := Walk({a}, [pa]);
    var w2 := Walk({a, c}, [pa, pc]);
    assert {} + {c} == {c};
    DfsAppends(m, {c}, pa, w0, w0);
    assert {} + {a} == {a} && [] + [pa] == [pa];
    assert DfsDeps(m, {c}, [a], w0) == Ok(w1);
    DfsAppends(m, {}, pc, w0, w1);
    assert {a} + {c} == {a, c} && [pa] + [pc] == [pa, pc];
    assert {} + {b} == {b};
    DfsAppends(m, {}, pb, w2, w2);
    assert {a, c} + {b} == {a, c, b} && [pa, pc] + [pb] == [pa, pc, pb];
  }

  /** Two executors with no dependency relation between them do not always
      keep their input order: in [C needs A, B, A] the visit of C pulls A in
      front of B. */
  lemma UnrelatedMayBeReordered(a: Kind, b: Kind, c: Kind)
    requires a != b && b != c && a != c
    ensures var pa, pb, pc := Producer(a, []), Producer(b, []), Producer(c, [a]);
            ResolveSpec(Some([pc, pb, pa])) == Ok([pa, pc, pb])
  {
    var pa, pb, pc := Producer(a, []), Producer(b, []), Producer(c, [a]);
    var ps := [pc, pb, pa];
    ThreeOwners(pc, pb, pa);
    var m := map[c := pc, b := pb, a := pa];
    var w0 := Walk({}, []);
    var w2 := Walk({a, c}, [pa, pc]);
    var w3 := Walk({a, c, b}, [pa, pc, pb]);
    UnrelatedVisits(a, b, c);
    assert [pb, pa][1..] == [pa] && ps[1..] == [pb, pa];
    assert DfsAll(m, [pa], w3) == Ok(w3);
    assert DfsAll(m, [pb, pa], w2) == Ok(w3);
    assert DfsAll(m, ps, w0) == Ok(w3);
  }

  /** Source lines 15-23 and 56-59: the checks come in order, so a duplicate
      hides a missing dependency of an earlier executor. */
  lemma DuplicateBeforeMissing(a: Kind, b: Kind)
    requires a != b
    ensures ResolveSpec(Some([Producer(a, [b]), Producer(a, [])])) == Err(DuplicateExecutor(a))
  {
    var ps := [Producer(a, [b]), Producer(a, [])];
    assert ps[1..] == [Producer(a, [])];
    assert {} + {a} == {a};
    assert FirstDuplicate(ps, {}) == Some(a);
  }
}
