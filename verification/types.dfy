/** Vocabulary shared by the whole pipeline: page kinds, pages, parse executors
    ("producers"), the error values that stand for the exceptions the pipeline
    throws, and a few facts about sequences of producers. */
module ConfigTypes {

  /** The runtime type that identifies a page and the executor producing it. */
  type Kind(==,0,!new)

  /** The content of a page; the pipeline never looks inside. */
  type Payload(==,0,!new)

  /** An exception thrown by a producer or a sub-parser, passed on unchanged. */
  type Fault(==,0,!new)

  /** A parsed configuration page; `kind` is what `GetType()` returns for it. */
  datatype Page = Page(kind: Kind, payload: Payload)

  /** A parse executor: the kind of page it produces (`TargetType`) and the
      kinds it depends on (`Dependencies`), in declaration order. */
  datatype Producer = Producer(kind: Kind, deps: seq<Kind>)

  /** One value per exception the pipeline can raise. */
  datatype Error =
    | NullArgument                               // ArgumentNullException
    | DuplicateExecutor(kind: Kind)              // "Duplicate executor for {key}"
    | MissingDependency(kind: Kind)              // "Missing dependency {depType}"
    | CircularDependency(kind: Kind)             // "Circular dependency at {kind}"
    | Cancelled                                  // OperationCanceledException
    | AlreadyInitialized                         // "Config is already initialized"
    | ContainerNull                              // "Config data container is null"
    | NotFound(kind: Kind)                       // KeyNotFoundException
    | TypeMismatch(wanted: Kind, actual: Kind)   // InvalidCastException
    | Thrown(fault: Fault)                       // whatever a producer or sub-parser throws

  datatype Option<T> = None | Some(value: T)

  datatype Result<T> = Ok(value: T) | Err(error: Error)

  datatype Outcome = Pass | Fail(error: Error)

  /** The set of elements of a sequence. */
  function Elems<T>(s: seq<T>): set<T> {
    set x | x in s
  }

  /** No element occurs twice. */
  predicate Distinct<T(==)>(s: seq<T>) {
    forall i, j :: 0 <= i < j < |s| ==> s[i] != s[j]
  }

  /** The kinds produced by a sequence of producers. */
  function KindsOf(ps: seq<Producer>): set<Kind> {
    set i | 0 <= i < |ps| :: ps[i].kind
  }

  /** No two producers target the same kind. */
  predicate DistinctKinds(ps: seq<Producer>) {
    forall i, j :: 0 <= i < j < |ps| ==> ps[i].kind != ps[j].kind
  }

  /** Every dependency of every producer is owned by a producer placed strictly
      before it: the order in which executors may run. */
  ghost predicate DepsBefore(ps: seq<Producer>) {
    forall i, d :: 0 <= i < |ps| && d in ps[i].deps ==>
      exists j :: 0 <= j < i && ps[j].kind == d
  }

  /** The kinds of a non-empty sequence: its head's and its tail's. */
  lemma KindsOfCons(ps: seq<Producer>)
    requires ps != []
    ensures KindsOf(ps) == {ps[0].kind} + KindsOf(ps[1..])
  {
    forall k | k in KindsOf(ps) ensures k in {ps[0].kind} + KindsOf(ps[1..]) {
      var i :| 0 <= i < |ps| && ps[i].kind == k;
      if i > 0 { assert ps[1..][i - 1].kind == k; }
    }
    forall k | k in KindsOf(ps[1..]) ensures k in KindsOf(ps) {
      var i :| 0 <= i < |ps[1..]| && ps[1..][i].kind == k;
      assert ps[i + 1].kind == k;
    }
  }

  /** `KindsOfCons` for any sequence, empty or not. */
  lemma KindsOfCons'(ps: seq<Producer>)
    ensures ps != [] ==> KindsOf(ps) == {ps[0].kind} + KindsOf(ps[1..])
  {
    if ps != [] { KindsOfCons(ps); }
  }

  /** The kinds after appending one producer. */
  lemma KindsOfSnoc(ps: seq<Producer>, p: Producer)
    ensures KindsOf(ps + [p]) == KindsOf(ps) + {p.kind}
  {
    forall k | k in KindsOf(ps) ensures k in KindsOf(ps + [p]) {
      var i :| 0 <= i < |ps| && ps[i].kind == k;
      assert (ps + [p])[i].kind == k;
    }
    assert (ps + [p])[|ps|].kind == p.kind;
  }

  /** Distinct kinds, head and tail. */
  lemma DistinctKindsCons(ps: seq<Producer>)
    requires ps != []
    ensures DistinctKinds(ps) <==> ps[0].kind !in KindsOf(ps[1..]) && DistinctKinds(ps[1..])
  {
    if ps[0].kind !in KindsOf(ps[1..]) && DistinctKinds(ps[1..]) {
      forall i, j | 0 <= i < j < |ps| ensures ps[i].kind != ps[j].kind {
        assert ps[j] == ps[1..][j - 1];
        if i > 0 { assert ps[i] == ps[1..][i - 1]; }
      }
    }
    if DistinctKinds(ps) {
      forall i, j | 0 <= i < j < |ps[1..]| ensures ps[1..][i].kind != ps[1..][j].kind {
        assert ps[1..][i] == ps[i + 1] && ps[1..][j] == ps[j + 1];
      }
      forall i | 0 <= i < |ps[1..]| ensures ps[1..][i].kind != ps[0].kind {
        assert ps[1..][i] == ps[i + 1];
      }
    }
  }

  /** In a sequence without repetitions every element occurs exactly once. */
  lemma {:induction false} DistinctCounts<T>(s: seq<T>)
    requires Distinct(s)
    ensures forall x :: multiset(s)[x] == if x in s then 1 else 0
  {
    if s != [] {
      DistinctCounts(s[1..]);
      assert s == [s[0]] + s[1..];
      assert s[0] !in s[1..];
      forall x ensures multiset(s)[x] == if x in s then 1 else 0 {
        assert multiset(s) == multiset{s[0]} + multiset(s[1..]);
        assert x in s <==> x == s[0] || x in s[1..];
      }
    }
  }

  /** Two sequences without repetitions that hold the same elements are
      permutations of each other. */
  lemma DistinctSameElements<T>(s: seq<T>, t: seq<T>)
    requires Distinct(s) && Distinct(t)
    requires forall x :: x in s <==> x in t
    ensures multiset(s) == multiset(t)
  {
    DistinctCounts(s);
    DistinctCounts(t);
    assert forall x :: multiset(s)[x] == multiset(t)[x];
  }

  /** A sequence without repetitions, head and tail. */
  lemma DistinctCons<T>(s: seq<T>)
    requires s != []
    ensures Distinct(s) <==> s[0] !in s[1..] && Distinct(s[1..])
    ensures Elems(s) == {s[0]} + Elems(s[1..])
  {
    assert s == [s[0]] + s[1..];
    if s[0] !in s[1..] && Distinct(s[1..]) {
      forall i, j | 0 <= i < j < |s| ensures s[i] != s[j] {
        assert s[j] == s[1..][j - 1];
        if i > 0 { assert s[i] == s[1..][i - 1]; }
      }
    }
    if Distinct(s) {
      forall i, j | 0 <= i < j < |s[1..]| ensures s[1..][i] != s[1..][j] {
        assert s[1..][i] == s[i + 1] && s[1..][j] == s[j + 1];
      }
      forall i | 0 <= i < |s[1..]| ensures s[1..][i] != s[0] {
        assert s[1..][i] == s[i + 1];
      }
    }
  }

  /** Two sequences concatenate without repetitions exactly when each has
      none and they share no element. */
  lemma DistinctAppend<T>(a: seq<T>, b: seq<T>)
    ensures Distinct(a + b) <==> Distinct(a) && Distinct(b) && Elems(a) !! Elems(b)
    ensures Elems(a + b) == Elems(a) + Elems(b)
  {
    var ab := a + b;
    forall x ensures x in ab <==> x in a || x in b {
      if x in ab {
        var i :| 0 <= i < |ab| && ab[i] == x;
        if i >= |a| { assert b[i - |a|] == x; }
      }
    }
    if Distinct(a) && Distinct(b) && Elems(a) !! Elems(b) {
      forall i, j | 0 <= i < j < |ab| ensures ab[i] != ab[j] {
        if j < |a| {
          assert ab[i] == a[i] && ab[j] == a[j];
        } else if i >= |a| {
          assert ab[i] == b[i - |a|] && ab[j] == b[j - |a|];
        } else {
          assert ab[i] in Elems(a) && ab[j] in Elems(b);
        }
      }
    }
    if Distinct(ab) {
      forall i, j | 0 <= i < j < |a| ensures a[i] != a[j] {
        assert a[i] == ab[i] && a[j] == ab[j];
      }
      forall i, j | 0 <= i < j < |b| ensures b[i] != b[j] {
        assert b[i] == ab[|a| + i] && b[j] == ab[|a| + j];
      }
      forall i, j | 0 <= i < |a| && 0 <= j < |b| ensures a[i] != b[j] {
        assert a[i] == ab[i] && b[j] == ab[|a| + j];
      }
    }
  }

  /** The kinds of a concatenation. */
  lemma KindsOfAppend(a: seq<Producer>, b: seq<Producer>)
    ensures KindsOf(a + b) == KindsOf(a) + KindsOf(b)
  {
    var ab := a + b;
    forall k | k in KindsOf(ab) ensures k in KindsOf(a) + KindsOf(b) {
      var i :| 0 <= i < |ab| && ab[i].kind == k;
      if i < |a| { assert a[i].kind == k; } else { assert b[i - |a|].kind == k; }
    }
    forall k | k in KindsOf(a) ensures k in KindsOf(ab) {
      var i :| 0 <= i < |a| && a[i].kind == k;
      assert ab[i].kind == k;
    }
    forall k | k in KindsOf(b) ensures k in KindsOf(ab) {
      var i :| 0 <= i < |b| && b[i].kind == k;
      assert ab[|a| + i].kind == k;
    }
  }

  /** Under distinct kinds, a producer outside a sub-collection has a kind
      outside it too. */
  lemma KindOutside(order: seq<Producer>, xs: seq<Producer>, x: Producer)
    requires DistinctKinds(order) && Elems(xs) <= Elems(order) && x in order && x !in xs
    ensures x.kind !in KindsOf(xs)
  {
    var l :| 0 <= l < |order| && order[l] == x;
    forall i | 0 <= i < |xs| ensures xs[i].kind != x.kind {
      assert xs[i] in Elems(order);
      var j :| 0 <= j < |order| && order[j] == xs[i];
      assert j != l;
    }
  }

  /** Appending a producer whose dependencies are all owned by earlier
      producers keeps the dependency order. */
  lemma DepsBeforeSnoc(ps: seq<Producer>, x: Producer)
    requires DepsBefore(ps) && Elems(x.deps) <= KindsOf(ps)
    ensures DepsBefore(ps + [x])
  {
    var s := ps + [x];
    forall i, d | 0 <= i < |s| && d in s[i].deps ensures exists j :: 0 <= j < i && s[j].kind == d {
      if i < |ps| {
        assert s[i] == ps[i];
        var j :| 0 <= j < i && ps[j].kind == d;
        assert s[j].kind == d;
      } else {
        assert d in Elems(x.deps);
        var j :| 0 <= j < |ps| && ps[j].kind == d;
        assert s[j].kind == d;
      }
    }
  }

  /** Pages stored under their kinds, one after the other, a later page
      replacing an earlier one of the same kind. */
  function ByKind(pages: seq<Page>): map<Kind, Page> {
    if pages == [] then map[]
    else ByKind(pages[..|pages| - 1])[pages[|pages| - 1].kind := pages[|pages| - 1]]
  }

  /** Every page's kind is stored. */
  lemma {:induction false} ByKindIn(pages: seq<Page>, i: nat)
    requires i < |pages|
    ensures pages[i].kind in ByKind(pages)
  {
    if i < |pages| - 1 {
      ByKindIn(pages[..|pages| - 1], i);
    }
  }

  /** Nothing else is stored. */
  lemma {:induction false} ByKindOnly(pages: seq<Page>, k: Kind)
    requires forall i :: 0 <= i < |pages| ==> pages[i].kind != k
    ensures k !in ByKind(pages)
  {
    if pages != [] {
      ByKindOnly(pages[..|pages| - 1], k);
    }
  }

  /** A page that no later page of its kind follows is the one stored. */
  lemma {:induction false} ByKindWins(pages: seq<Page>, i: nat)
    requires i < |pages|
    requires forall j :: i < j < |pages| ==> pages[j].kind != pages[i].kind
    ensures pages[i].kind in ByKind(pages) && ByKind(pages)[pages[i].kind] == pages[i]
  {
    if i < |pages| - 1 {
      ByKindWins(pages[..|pages| - 1], i);
    }
  }

  /** Every page is stored under its own kind. */
  lemma {:induction false} ByKindKeyed(pages: seq<Page>)
    ensures forall k :: k in ByKind(pages) ==> ByKind(pages)[k].kind == k
  {
    if pages != [] {
      ByKindKeyed(pages[..|pages| - 1]);
    }
  }

  /** Distinct kinds make the producers themselves distinct. */
  lemma DistinctKindsDistinct(ps: seq<Producer>)
    requires DistinctKinds(ps)
    ensures Distinct(ps)
  {
  }
}
