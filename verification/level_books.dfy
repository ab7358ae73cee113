/** The bookkeeping of the level scheduler in DependencyAwareConfigParser:
    the per-executor counters of unfinished dependencies, the ready queue and
    the executors already taken off it, as values, with the facts that each
    step of the scheduler keeps. */
module LevelBooks {
  import opened ConfigTypes

  /** A sequence holds at most as many different elements as entries, and
      exactly as many when nothing repeats. */
  lemma {:induction false} ElemsCard<T>(s: seq<T>)
    ensures |Elems(s)| <= |s|
    ensures |Elems(s)| == |s| <==> Distinct(s)
  {
    if s != [] {
      ElemsCard(s[1..]);
      DistinctCons(s);
      if s[0] in s[1..] {
        assert Elems(s) == Elems(s[1..]);
      } else {
        assert Elems(s) == Elems(s[1..]) + {s[0]};
      }
    }
  }

  /** What the counter of an executor with dependency list `ds` holds once
      the kinds in `fin` have finished: the counter starts at the length of
      the list and loses one per finished kind that the list names, however
      often it names it. */
  function Outstanding(ds: seq<Kind>, fin: set<Kind>): int {
    |ds| - |Elems(ds) * fin|
  }

  lemma OutstandingBounds(ds: seq<Kind>, fin: set<Kind>)
    ensures 0 <= Outstanding(ds, fin) <= |ds|
    ensures Outstanding(ds, {}) == |ds|
  {
    ElemsCard(ds);
    assert |Elems(ds) - fin| == |Elems(ds)| - |Elems(ds) * fin|;
    assert Elems(ds) * {} == {};
  }

  /** A counter reaches zero only for a list without repetitions whose
      kinds have all finished. */
  lemma OutstandingZero(ds: seq<Kind>, fin: set<Kind>)
    requires Outstanding(ds, fin) == 0
    ensures Distinct(ds) && Elems(ds) <= fin
  {
    ElemsCard(ds);
    var a := Elems(ds);
    assert |a - fin| == |a| - |a * fin|;
    assert a - fin == {};
    forall x | x in a ensures x in fin {
      assert x !in a - fin;
    }
  }

  /** A counter whose list names an unfinished kind is above zero. */
  lemma OutstandingPositive(ds: seq<Kind>, fin: set<Kind>, k: Kind)
    requires k in ds && k !in fin
    ensures Outstanding(ds, fin) > 0
  {
    ElemsCard(ds);
    var a := Elems(ds);
    var b, c := a - {k}, a * fin;
    assert b * c == c;
    assert |b - c| == |b| - |b * c|;
    assert |b| == |a| - 1;
  }

  /** The converse: all kinds finished and none repeated means zero. */
  lemma OutstandingDone(ds: seq<Kind>, fin: set<Kind>)
    requires Distinct(ds) && Elems(ds) <= fin
    ensures Outstanding(ds, fin) == 0
  {
    ElemsCard(ds);
    assert Elems(ds) * fin == Elems(ds);
  }

  /** Finishing one more kind takes one off the counter of each list that
      names it and leaves the others alone. */
  lemma OutstandingFinish(ds: seq<Kind>, fin: set<Kind>, k: Kind)
    requires k !in fin
    ensures Outstanding(ds, fin + {k}) == Outstanding(ds, fin) - if k in ds then 1 else 0
  {
    var a := Elems(ds);
    if k in ds {
      assert a * (fin + {k}) == (a * fin) + {k};
    } else {
      assert a * (fin + {k}) == a * fin;
    }
  }

  /** The counters `BuildRemainingDeps` starts from (source lines 249-259). */
  function Initial(order: seq<Producer>): map<Producer, int> {
    map n | n in order :: |n.deps|
  }

  /** Which executors a scan over `order` enqueues: the ready ones
      (`EnqueueReady`, counter zero) or those whose counter the finishing
      kind `k` brings from one to zero. */
  datatype Pick = Ready | Unlocked(k: Kind)

  predicate Picked(pick: Pick, rem: map<Producer, int>, n: Producer) {
    n in rem &&
    match pick
    case Ready => rem[n] == 0
    case Unlocked(k) => k in n.deps && rem[n] == 1
  }

  /** The executors of `order` that `pick` selects, in order. */
  function Select(order: seq<Producer>, rem: map<Producer, int>, pick: Pick): seq<Producer> {
    if order == [] then []
    else
      var last := order[|order| - 1];
      Select(order[..|order| - 1], rem, pick) + if Picked(pick, rem, last) then [last] else []
  }

  lemma {:induction false} SelectMembers(order: seq<Producer>, rem: map<Producer, int>, pick: Pick)
    ensures forall n :: n in Select(order, rem, pick) <==> n in order && Picked(pick, rem, n)
    ensures Distinct(order) ==> Distinct(Select(order, rem, pick))
  {
    if order != [] {
      var init, last := order[..|order| - 1], order[|order| - 1];
      assert order == init + [last];
      SelectMembers(init, rem, pick);
      DistinctAppend(init, [last]);
      var tail := if Picked(pick, rem, last) then [last] else [];
      DistinctAppend(Select(init, rem, pick), tail);
    }
  }

  /** Scanning one more executor. */
  lemma SelectStep(order: seq<Producer>, rem: map<Producer, int>, pick: Pick, i: nat)
    requires i < |order|
    ensures Select(order[..i + 1], rem, pick)
            == Select(order[..i], rem, pick) + if Picked(pick, rem, order[i]) then [order[i]] else []
  {
    assert order[..i + 1][..i] == order[..i];
  }

  /** In a sequence without repetitions, the next element is not among
      the ones before it. */
  lemma ScanStep<T>(s: seq<T>, i: nat)
    requires Distinct(s) && i < |s|
    ensures s[i] !in Elems(s[..i])
    ensures Elems(s[..i + 1]) == Elems(s[..i]) + {s[i]}
  {
    assert s[..i + 1] == s[..i] + [s[i]];
    forall j | 0 <= j < i ensures s[..i][j] != s[i] {
      assert s[..i][j] == s[j];
    }
  }

  /** The counters after the kind `k` finishes (source lines 200-206). */
  function Decremented(rem: map<Producer, int>, k: Kind): map<Producer, int> {
    map n | n in rem :: if k in n.deps then rem[n] - 1 else rem[n]
  }

  /** The counters after the loop of source lines 200-206 has scanned the
      executors `ns`, one after the other, each read and written back. */
  function DecrementedOver(rem: map<Producer, int>, k: Kind, ns: seq<Producer>): (r: map<Producer, int>)
    requires Elems(ns) <= rem.Keys
    ensures r.Keys == rem.Keys
  {
    if ns == [] then rem
    else
      var init, n := ns[..|ns| - 1], ns[|ns| - 1];
      assert ns == init + [n];
      var r := DecrementedOver(rem, k, init);
      if k in n.deps then r[n := r[n] - 1] else r
  }

  /** An executor not scanned keeps its counter; scanning executors that
      are all different decrements each that depends on `k` once. */
  lemma {:induction false} DecrementedOverFacts(rem: map<Producer, int>, k: Kind, ns: seq<Producer>)
    requires Elems(ns) <= rem.Keys
    ensures forall n :: n in rem && n !in ns ==> DecrementedOver(rem, k, ns)[n] == rem[n]
    ensures Distinct(ns) ==> forall n :: n in ns ==>
              DecrementedOver(rem, k, ns)[n] == if k in n.deps then rem[n] - 1 else rem[n]
  {
    if ns != [] {
      var init, last := ns[..|ns| - 1], ns[|ns| - 1];
      assert ns == init + [last];
      DecrementedOverFacts(rem, k, init);
      if Distinct(ns) {
        DistinctAppend(init, [last]);
      }
    }
  }

  /** One step of the loop of source lines 200-206: the counter read for
      the next executor is still its counter from before the loop, and the
      step decrements it and enqueues the executor as the specification
      functions say. */
  lemma UnlockScan(order: seq<Producer>, rem: map<Producer, int>, k: Kind, i: nat)
    requires Distinct(order) && rem.Keys == Elems(order) && i < |order|
    ensures var n, counters := order[i], DecrementedOver(rem, k, order[..i]);
            && n in counters && counters[n] == rem[n]
            && DecrementedOver(rem, k, order[..i + 1]) == (if k in n.deps then counters[n := counters[n] - 1] else counters)
            && Select(order[..i + 1], rem, Unlocked(k))
               == Select(order[..i], rem, Unlocked(k)) + (if k in n.deps && counters[n] - 1 == 0 then [n] else [])
  {
    assert order[..i + 1] == order[..i] + [order[i]];
    SelectStep(order, rem, Unlocked(k), i);
    ScanStep(order, i);
    DecrementedOverFacts(rem, k, order[..i]);
  }

  /** Scanning the whole order, which names each executor once, gives the
      counters of `Decremented`. */
  lemma DecrementedOverAll(rem: map<Producer, int>, k: Kind, order: seq<Producer>)
    requires Distinct(order) && rem.Keys == Elems(order)
    ensures DecrementedOver(rem, k, order) == Decremented(rem, k)
  {
    DecrementedOverFacts(rem, k, order);
  }

  /** The scheduler's books: one counter per executor of `order`, equal to
      its outstanding dependencies given the finished kinds `fin`; an
      executor has been queued (it is in `queue` or in `taken`, the
      executors already dequeued) exactly when its counter is zero; and no
      executor is queued twice. */
  ghost predicate Books(order: seq<Producer>, rem: map<Producer, int>, queue: seq<Producer>,
                        taken: seq<Producer>, fin: set<Kind>) {
    && rem.Keys == Elems(order)
    && (forall n :: n in rem ==> rem[n] == Outstanding(n.deps, fin))
    && (forall n :: n in rem ==> (n in queue || n in taken <==> rem[n] == 0))
    && Distinct(queue) && Distinct(taken) && Elems(queue) !! Elems(taken)
    && Elems(queue) <= Elems(order) && Elems(taken) <= Elems(order)
  }

  /** Source lines 169-172: the initial counters and the ready executors
      make up the books of a run that has done nothing yet. */
  lemma BooksStart(order: seq<Producer>)
    requires Distinct(order)
    ensures Books(order, Initial(order), Select(order, Initial(order), Ready), [], {})
  {
    var rem := Initial(order);
    SelectMembers(order, rem, Ready);
    forall n | n in rem ensures rem[n] == Outstanding(n.deps, {}) {
      OutstandingBounds(n.deps, {});
    }
  }

  /** Source lines 176-191 and 275-286: taking the whole queue as a level. */
  lemma BooksDequeue(order: seq<Producer>, rem: map<Producer, int>, queue: seq<Producer>,
                     taken: seq<Producer>, fin: set<Kind>)
    requires Books(order, rem, queue, taken, fin)
    ensures Books(order, rem, [], taken + queue, fin)
  {
    DistinctAppend(taken, queue);
  }

  /** Source lines 200-206: finishing a kind not finished before decrements
      the counters of the executors that name it and enqueues those that
      reach zero, which keeps the books. */
  lemma BooksUnlock(order: seq<Producer>, rem: map<Producer, int>, queue: seq<Producer>,
                    taken: seq<Producer>, fin: set<Kind>, k: Kind)
    requires Books(order, rem, queue, taken, fin) && Distinct(order) && k !in fin
    ensures Books(order, Decremented(rem, k), queue + Select(order, rem, Unlocked(k)), taken, fin + {k})
  {
    var rem', released := Decremented(rem, k), Select(order, rem, Unlocked(k));
    SelectMembers(order, rem, Unlocked(k));
    forall n | n in rem
      ensures rem'[n] == Outstanding(n.deps, fin + {k})
      ensures k in n.deps ==> rem[n] > 0
    {
      OutstandingFinish(n.deps, fin, k);
      if k in n.deps {
        OutstandingPositive(n.deps, fin, k);
      }
    }
    DistinctAppend(queue, released);
    DistinctAppend(taken, []);
  }

  /** A queued or dequeued executor has a dependency list without
      repetitions, all of whose kinds have finished. */
  lemma BooksQueued(order: seq<Producer>, rem: map<Producer, int>, queue: seq<Producer>,
                    taken: seq<Producer>, fin: set<Kind>, n: Producer)
    requires Books(order, rem, queue, taken, fin)
    requires n in queue || n in taken
    ensures Distinct(n.deps) && Elems(n.deps) <= fin
  {
    assert n in Elems(order);
    OutstandingZero(n.deps, fin);
  }

  /** An executor of an input in dependency order whose predecessors have
      all been dequeued has all its dependencies finished. */
  lemma DepsFinished(order: seq<Producer>, taken: seq<Producer>, fin: set<Kind>, i: nat)
    requires DepsBefore(order) && i < |order| && KindsOf(taken) <= fin
    requires forall j :: 0 <= j < i ==> order[j] in taken
    ensures Elems(order[i].deps) <= fin
  {
    forall d | d in order[i].deps ensures d in fin {
      var j :| 0 <= j < i && order[j].kind == d;
      var l :| 0 <= l < |taken| && taken[l] == order[j];
      assert taken[l].kind == d;
    }
  }

  /** With the queue empty, an executor whose counter is zero was dequeued. */
  lemma ZeroTaken(order: seq<Producer>, rem: map<Producer, int>, taken: seq<Producer>,
                  fin: set<Kind>, n: Producer)
    requires Books(order, rem, [], taken, fin) && n in order
    requires Distinct(n.deps) && Elems(n.deps) <= fin
    ensures n in taken
  {
    OutstandingDone(n.deps, fin);
    assert n in rem && rem[n] == 0;
  }

  lemma {:induction false} ClosedPrefix(order: seq<Producer>, taken: seq<Producer>, fin: set<Kind>, i: nat)
    requires DepsBefore(order) && KindsOf(taken) <= fin && i <= |order|
    requires forall j :: 0 <= j < |order| && Elems(order[j].deps) <= fin ==> order[j] in taken
    ensures forall j :: 0 <= j < i ==> order[j] in taken
  {
    if i > 0 {
      ClosedPrefix(order, taken, fin, i - 1);
      DepsFinished(order, taken, fin, i - 1);
    }
  }

  /** With the queue empty and the kinds of the dequeued executors
      finished, an input in dependency order whose executors list no
      dependency twice has been dequeued completely. */
  lemma BooksComplete(order: seq<Producer>, rem: map<Producer, int>, taken: seq<Producer>, fin: set<Kind>)
    requires Books(order, rem, [], taken, fin) && KindsOf(taken) <= fin
    requires DepsBefore(order) && forall j :: 0 <= j < |order| ==> Distinct(order[j].deps)
    ensures forall n :: n in order ==> n in taken
  {
    forall j | 0 <= j < |order| && Elems(order[j].deps) <= fin ensures order[j] in taken {
      ZeroTaken(order, rem, taken, fin, order[j]);
    }
    ClosedPrefix(order, taken, fin, |order|);
  }
}
