/** DependencyAwareConfigParser: resolves the executors into dependency
    order, then runs them level by level. A level is everything in the ready
    queue; each executor's page is added to the shared context and to the
    output, and every executor that depends on its kind has its counter
    decremented and is enqueued once the counter reaches zero.

    The source runs the members of a level in parallel. Here they run one
    after the other in dequeue order, which is one of the interleavings the
    source allows: in the blocking shape each member runs, commits and
    unlocks in turn, as `Run` does; in the awaitable shapes all members are
    started on the context as it was when the level began, and their pages
    are committed in dequeue order once all have finished, as the code after
    `Task.WhenAll` does. The class `Batches` is proved to follow the
    functions of `ScheduleSpec`. */
module DependencyAwareParser {
  import opened ConfigTypes
  import opened SimpleResolver
  import opened ResolverProperties
  import opened LevelBooks
  import opened ScheduleSpec
  import opened ParseSpec

  /** Source lines 249-259: every executor's counter starts at the number of
      dependencies it lists. */
  method BuildRemainingDeps(order: seq<Producer>) returns (dict: map<Producer, int>)
    ensures dict == Initial(order)
  {
    dict := map[];
    for i := 0 to |order|
      invariant dict == map n | n in order[..i] :: |n.deps|
    {
      assert order[..i + 1] == order[..i] + [order[i]];
      dict := dict[order[i] := |order[i].deps|];
    }
    assert order[..|order|] == order;
  }

  /** Source lines 288-301. */
  method DependsOn(ex: Producer, dependencyType: Kind) returns (b: bool)
    ensures b <==> dependencyType in ex.deps
  {
    for i := 0 to |ex.deps|
      invariant dependencyType !in ex.deps[..i]
    {
      if ex.deps[i] == dependencyType {
        return true;
      }
      assert ex.deps[..i + 1] == ex.deps[..i] + [ex.deps[i]];
    }
    assert ex.deps[..|ex.deps|] == ex.deps;
    return false;
  }

  /** The state of one `ExecuteBatches` / `ExecuteBatchesAsync` run (and of
      the loop the progress-reporting `ParseAsync` writes out inline): the
      counters, the queue, the context and output lists that the commit
      callback of `Parse` fills, and the progress events reported so far.
      The ghost fields record which executors were invoked and on which
      context. */
  class Batches {
    const order: seq<Producer>
    const work: Work
    const reporting: bool
    var remaining: map<Producer, int>
    var queue: seq<Producer>
    var context: map<Kind, Page>
    var output: seq<Page>
    var reports: seq<Progress>
    ghost var invoked: seq<Producer>
    ghost var seen: seq<map<Kind, Page>>

    ghost function Setup(): Setup {
      ScheduleSpec.Setup(order, work, reporting)
    }

    ghost function State(): Sched
      reads this
    {
      Sched(remaining, queue, context, output, reports, invoked, seen)
    }

    /** Source lines 35-36 and 169-172: empty context and output, the
        initial counters, and the ready executors enqueued. */
    constructor (order: seq<Producer>, work: Work, reporting: bool)
      ensures this.order == order && this.work == work && this.reporting == reporting
      ensures State() == Start(order)
    {
      this.order, this.work, this.reporting := order, work, reporting;
      context, output, reports := map[], [], [];
      invoked, seen := [], [];
      remaining, queue := map[], [];
      new;
      remaining := BuildRemainingDeps(order);
      EnqueueReady();
    }

    /** Source lines 261-273. */
    method EnqueueReady()
      requires forall n :: n in order ==> n in remaining
      modifies this`queue
      ensures queue == old(queue) + Select(order, remaining, Ready)
    {
      for i := 0 to |order|
        invariant queue == old(queue) + Select(order[..i], remaining, Ready)
      {
        SelectStep(order, remaining, Ready, i);
        if remaining[order[i]] == 0 {
          queue := queue + [order[i]];
        }
      }
      assert order[..|order|] == order;
    }

    /** Source lines 275-286: takes the whole queue, in order. */
    method DequeueLevel() returns (level: seq<Producer>)
      modifies this`queue
      ensures level == old(queue) && queue == []
    {
      var count := |queue|;
      level := [];
      for i := 0 to count
        invariant level + queue == old(queue) && |level| == i
      {
        level := level + [queue[0]];
        queue := queue[1..];
      }
    }

    /** The executor's body: `ex.Parse(ctx)` or `ex.ParseAsync(ctx, token)`. */
    method Invoke(ex: Producer, ctx: map<Kind, Page>) returns (r: Result<Page>)
      modifies this`invoked, this`seen
      ensures r == work(ex, ctx)
      ensures State() == AfterInvoke(old(State()), ex, ctx)
    {
      r := work(ex, ctx);
      invoked := invoked + [ex];
      seen := seen + [ctx];
    }

    /** The commit callback (source lines 41-45, 65-69) and, when progress
        is reported, source lines 114-127. */
    method Commit(page: Page)
      modifies this`context, this`output, this`reports
      ensures State() == AfterCommit(Setup(), old(State()), page)
    {
      context := context[page.kind := page];
      output := output + [page];
      if reporting {
        reports := reports + [Progress(|output|, |order|, page.kind)];
      }
    }

    /** Source lines 200-206 and 237-244: decrements the counter of every
        executor that depends on the finished kind `k`, enqueueing those
        that reach zero. */
    method Unlock(k: Kind)
      requires Distinct(order) && remaining.Keys == Elems(order)
      modifies this`remaining, this`queue
      ensures remaining == Decremented(old(remaining), k)
      ensures queue == old(queue) + Select(order, old(remaining), Unlocked(k))
    {
      var counters, ready := remaining, queue;
      ghost var rem0 := remaining;
      for i := 0 to |order|
        invariant counters == DecrementedOver(rem0, k, order[..i])
        invariant ready == old(queue) + Select(order[..i], rem0, Unlocked(k))
      {
        var n := order[i];
        UnlockScan(order, rem0, k, i);
        var depends := DependsOn(n, k);
        if depends {
          var cnt := counters[n] - 1;
          counters := counters[n := cnt];
          if cnt == 0 {
            ready := ready + [n];
          }
        }
      }
      assert order[..|order|] == order;
      DecrementedOverAll(rem0, k, order);
      remaining, queue := counters, ready;
    }

    /** One level in the blocking shape (source lines 174-207): each member
        in dequeue order parses on the current context (`Run`, lines
        194-197), commits, and unlocks its dependants. */
    method RunLevelInline() returns (e: Outcome)
      requires Distinct(order) && remaining.Keys == Elems(order)
      modifies this`remaining, this`queue, this`context, this`output, this`reports, this`invoked, this`seen
      ensures (e, State()) == InlineLevel(Setup(), old(State()))
    {
      ghost var s0 := State();
      var level := DequeueLevel();
      assert level[0..] == level;
      for i := 0 to |level|
        invariant remaining.Keys == Elems(order)
        invariant InlineLevel(Setup(), s0) == InlineSteps(Setup(), State(), level[i..])
      {
        var ex := level[i];
        assert level[i..][0] == ex && level[i..][1..] == level[i + 1..];
        var r := Invoke(ex, context);
        if r.Err? {
          return Fail(r.error);
        }
        Commit(r.value);
        Unlock(ex.kind);
      }
      assert level[|level|..] == [];
      e := Pass;
    }

    /** Source lines 225-231 (and 106-112): every member of the level is
        started on the same context; the result is the pages in dequeue
        order, or the first fault in dequeue order. */
    method InvokeLevel(level: seq<Producer>, snapshot: map<Kind, Page>) returns (r: Result<seq<Page>>)
      modifies this`invoked, this`seen
      ensures r == Bodies(work, level, snapshot)
      ensures State() == InvokeAll(old(State()), level, snapshot)
    {
      ghost var s0 := State();
      var pages: seq<Page> := [];
      var failure: Option<Error> := None;
      assert level[..0] == [];
      for i := 0 to |level|
        invariant State() == InvokeAll(s0, level[..i], snapshot)
        invariant (if failure.Some? then Err(failure.value) else Ok(pages)) == Bodies(work, level[..i], snapshot)
      {
        assert level[..i + 1][..i] == level[..i] && level[..i + 1][i] == level[i];
        var page := Invoke(level[i], snapshot);
        if failure.None? {
          if page.Err? {
            failure := Some(page.error);
          } else {
            pages := pages + [page.value];
          }
        }
      }
      assert level[..|level|] == level;
      r := if failure.Some? then Err(failure.value) else Ok(pages);
    }

    /** Source lines 232-235 (and 114-127): the pages are committed in
        order. */
    method CommitPages(pages: seq<Page>)
      modifies this`context, this`output, this`reports
      ensures State() == CommitAll(Setup(), old(State()), pages)
    {
      ghost var s0 := State();
      assert pages[0..] == pages;
      for j := 0 to |pages|
        invariant CommitAll(Setup(), s0, pages) == CommitAll(Setup(), State(), pages[j..])
      {
        assert pages[j..][0] == pages[j] && pages[j..][1..] == pages[j + 1..];
        Commit(pages[j]);
      }
      assert pages[|pages|..] == [];
    }

    /** Source lines 237-244 (and 129-145): every member of the level
        unlocks its dependants, in dequeue order. */
    method UnlockLevel(level: seq<Producer>)
      requires Distinct(order) && remaining.Keys == Elems(order)
      modifies this`remaining, this`queue
      ensures State() == UnlockAll(order, old(State()), level)
    {
      ghost var s0 := State();
      assert level[0..] == level;
      for j := 0 to |level|
        invariant remaining.Keys == Elems(order)
        invariant UnlockAll(order, s0, level) == UnlockAll(order, State(), level[j..])
      {
        assert level[j..][0] == level[j] && level[j..][1..] == level[j + 1..];
        Unlock(level[j].kind);
      }
      assert level[|level|..] == [];
    }

    /** One level in the awaitable shapes (source lines 223-244, and 99-145
        with progress): every member is started on the context as it was
        when the level began; the first fault in dequeue order, if any, is
        the result; otherwise the pages are committed in dequeue order and
        then every member unlocks its dependants. */
    method RunLevel() returns (e: Outcome)
      requires Distinct(order) && remaining.Keys == Elems(order)
      modifies this`remaining, this`queue, this`context, this`output, this`reports, this`invoked, this`seen
      ensures (e, State()) == SnapshotLevel(Setup(), old(State()))
    {
      var level := DequeueLevel();
      var r := InvokeLevel(level, context);
      if r.Err? {
        return Fail(r.error);
      }
      CommitPages(r.value);
      UnlockLevel(level);
      e := Pass;
    }

    /** `ExecuteBatches` (source lines 164-209, `inline`) and
        `ExecuteBatchesAsync` (source lines 211-246): levels run until the
        queue is empty or an executor faults. */
    method Execute(inline: bool) returns (e: Outcome)
      requires Valid(Setup(), State())
      modifies this`remaining, this`queue, this`context, this`output, this`reports, this`invoked, this`seen
      ensures (e, State()) == Run(Setup(), inline, old(State()))
    {
      ghost var s0 := State();
      DistinctKindsDistinct(order);
      e := Pass;
      while queue != []
        invariant e == Pass && Valid(Setup(), State())
        invariant Run(Setup(), inline, s0) == Run(Setup(), inline, State())
        decreases Left(Setup(), State())
      {
        ghost var before := State();
        LevelKeeps(Setup(), inline, before);
        if inline {
          e := RunLevelInline();
        } else {
          e := RunLevel();
        }
        assert (e, State()) == Level(Setup(), inline, before);
        if e.Fail? {
          assert Run(Setup(), inline, before) == (e, State());
          return;
        }
      }
    }
  }

  /** The shared body of the three entry points: resolve the executors,
      then run the levels; the result and the progress events reported. */
  method ParseWith(execs: array?<Producer>, work: Work, inline: bool, reporting: bool)
    returns (r: Result<seq<Page>>, reports: seq<Progress>)
    requires OwnKind(work)
    ensures r == ParseRun(Input(execs), work, inline, reporting).0
    ensures reports == ParseRun(Input(execs), work, inline, reporting).1.reports
  {
    var order := Resolve(execs);
    if order.Err? {
      return Err(order.error), [];
    }
    ResolvedDistinct(Input(execs));
    var batches := new Batches(order.value, work, reporting);
    StartValid(batches.Setup());
    var e := batches.Execute(inline);
    reports := batches.reports;
    if e.Fail? {
      return Err(e.error), reports;
    }
    r := Ok(batches.output);
  }

  /** `Parse` (source lines 32-48): the blocking shape. A null executors
      array is rejected, as the constructor (source line 27) does. */
  method Parse(execs: array?<Producer>, work: Work) returns (r: Result<seq<Page>>)
    requires OwnKind(work)
    ensures r == ParseRun(Input(execs), work, true, false).0
  {
    var reports;
    r, reports := ParseWith(execs, work, true, false);
  }

  /** `ParseAsync(token)` (source lines 51-73): a token cancelled before the
      call is reported before anything else; otherwise the awaitable
      shape. */
  method ParseAsync(execs: array?<Producer>, work: Work, cancelled: bool) returns (r: Result<seq<Page>>)
    requires OwnKind(work)
    ensures cancelled ==> r == Err(Cancelled)
    ensures !cancelled ==> r == ParseRun(Input(execs), work, false, false).0
  {
    if cancelled {
      return Err(Cancelled);
    }
    var reports;
    r, reports := ParseWith(execs, work, false, false);
  }

  /** `ParseAsync(progress, token)` (source lines 75-149): as `ParseAsync`,
      reporting one progress event per committed page when a progress sink
      is given. */
  method ParseAsyncWithProgress(execs: array?<Producer>, work: Work, hasProgress: bool, cancelled: bool)
    returns (r: Result<seq<Page>>, reports: seq<Progress>)
    requires OwnKind(work)
    ensures cancelled ==> r == Err(Cancelled) && reports == []
    ensures !cancelled ==> r == ParseRun(Input(execs), work, false, hasProgress).0
    ensures !cancelled ==> reports == ParseRun(Input(execs), work, false, hasProgress).1.reports
  {
    if cancelled {
      return Err(Cancelled), [];
    }
    r, reports := ParseWith(execs, work, false, hasProgress);
  }
}
