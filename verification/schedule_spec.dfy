/** The level scheduler of DependencyAwareConfigParser as functions over its
    state: what one invocation, one commit and one unlock do, what a whole
    level does in the blocking and in the awaitable shape, and what a whole
    run does; then the invariants these keep. */
module ScheduleSpec {
  import opened ConfigTypes
  import opened LevelBooks

  /** An executor's `Parse` or `ParseAsync`: given the context it may read,
      the page it returns or the fault it throws. */
  type Work = (Producer, map<Kind, Page>) -> Result<Page>

  /** Every page an executor returns has the executor's target kind. */
  ghost predicate OwnKind(work: Work) {
    forall p, ctx :: work(p, ctx).Ok? ==> work(p, ctx).value.kind == p.kind
  }

  /** One progress event: pages done so far, pages in all, and the kind of
      the page just added. */
  datatype Progress = Progress(done: int, total: int, kind: Kind)

  /** The events reported while `pages` are committed one by one. */
  function ProgressOf(pages: seq<Page>, total: int): seq<Progress> {
    if pages == [] then []
    else ProgressOf(pages[..|pages| - 1], total) + [Progress(|pages|, total, pages[|pages| - 1].kind)]
  }

  lemma {:induction false} ProgressOfEvents(pages: seq<Page>, total: int)
    ensures |ProgressOf(pages, total)| == |pages|
    ensures forall k :: 0 <= k < |pages| ==> ProgressOf(pages, total)[k] == Progress(k + 1, total, pages[k].kind)
  {
    if pages != [] {
      ProgressOfEvents(pages[..|pages| - 1], total);
    }
  }

  /** Every entry of `a` is in `b` with the same page. */
  ghost predicate SubMap(a: map<Kind, Page>, b: map<Kind, Page>) {
    forall k :: k in a ==> k in b && b[k] == a[k]
  }

  /** What holds of the executors invoked so far, `invoked` in invocation
      order with `seen` the context each was given: each comes from `order`
      and was invoked once, after the executors it depends on, with a
      dependency list naming no kind twice, and on a context that holds
      every kind it depends on. */
  ghost predicate Scheduled(order: seq<Producer>, invoked: seq<Producer>, seen: seq<map<Kind, Page>>) {
    && Distinct(invoked) && Elems(invoked) <= Elems(order)
    && |seen| == |invoked|
    && DepsBefore(invoked)
    && (forall i :: 0 <= i < |invoked| ==> Distinct(invoked[i].deps))
    && (forall i, d :: 0 <= i < |invoked| && d in invoked[i].deps ==> d in seen[i])
  }

  /** The first `n` invocations have been committed: `output` holds their
      pages in invocation order, `context` holds them under their kinds, and
      every context an executor was given is part of `context`. */
  ghost predicate Committed(work: Work, invoked: seq<Producer>, seen: seq<map<Kind, Page>>, n: nat,
                            output: seq<Page>, context: map<Kind, Page>) {
    && n <= |invoked| == |seen| && |output| == n
    && (forall i :: 0 <= i < n ==> work(invoked[i], seen[i]) == Ok(output[i]))
    && context == ByKind(output)
    && (forall i :: 0 <= i < |seen| ==> SubMap(seen[i], context))
  }

  /** Before anything runs. */
  lemma NothingDone(work: Work, order: seq<Producer>)
    ensures Scheduled(order, [], []) && Committed(work, [], [], 0, [], map[])
    ensures KindsOf([]) == {} && ProgressOf([], |order|) == []
  {
    assert KindsOf([]) == {};
    assert Elems<Producer>([]) == {};
  }

  /** The kind of every committed page is in the context. */
  lemma CommittedHolds(work: Work, invoked: seq<Producer>, seen: seq<map<Kind, Page>>, n: nat,
                       output: seq<Page>, context: map<Kind, Page>, i: nat)
    requires Committed(work, invoked, seen, n, output, context) && OwnKind(work) && i < n
    ensures invoked[i].kind in context
  {
    assert output[i].kind == invoked[i].kind;
    ByKindIn(output, i);
  }

  /** With every invocation committed, the context holds every kind
      produced. */
  lemma CommittedCovers(work: Work, invoked: seq<Producer>, seen: seq<map<Kind, Page>>,
                        output: seq<Page>, context: map<Kind, Page>)
    requires Committed(work, invoked, seen, |invoked|, output, context) && OwnKind(work)
    ensures KindsOf(invoked) <= context.Keys
  {
    forall k | k in KindsOf(invoked) ensures k in context {
      var i :| 0 <= i < |invoked| && invoked[i].kind == k;
      CommittedHolds(work, invoked, seen, |invoked|, output, context, i);
    }
  }

  /** A kind that no committed invocation produces is not in the context. */
  lemma CommittedLacks(work: Work, invoked: seq<Producer>, seen: seq<map<Kind, Page>>, n: nat,
                       output: seq<Page>, context: map<Kind, Page>, k: Kind)
    requires Committed(work, invoked, seen, n, output, context) && OwnKind(work)
    requires k !in KindsOf(invoked[..n])
    ensures k !in context
  {
    forall i | 0 <= i < |output| ensures output[i].kind != k {
      assert output[i].kind == invoked[..n][i].kind;
    }
    ByKindOnly(output, k);
  }

  /** Invoking an executor that was queued, on a context holding its
      dependencies. */
  lemma InvokeScheduled(order: seq<Producer>, invoked: seq<Producer>, seen: seq<map<Kind, Page>>,
                        ex: Producer, ctx: map<Kind, Page>)
    requires Scheduled(order, invoked, seen)
    requires ex in order && ex !in invoked && Distinct(ex.deps)
    requires Elems(ex.deps) <= KindsOf(invoked) && Elems(ex.deps) <= ctx.Keys
    ensures Scheduled(order, invoked + [ex], seen + [ctx])
  {
    DistinctAppend(invoked, [ex]);
    DepsBeforeSnoc(invoked, ex);
    var inv', seen' := invoked + [ex], seen + [ctx];
    forall i, d | 0 <= i < |inv'| && d in inv'[i].deps ensures d in seen'[i] {
      if i < |invoked| {
        assert inv'[i] == invoked[i] && seen'[i] == seen[i];
      } else {
        assert d in Elems(ex.deps);
      }
    }
  }

  lemma InvokeCommitted(work: Work, invoked: seq<Producer>, seen: seq<map<Kind, Page>>, n: nat,
                        output: seq<Page>, context: map<Kind, Page>, ex: Producer)
    requires Committed(work, invoked, seen, n, output, context)
    ensures Committed(work, invoked + [ex], seen + [context], n, output, context)
  {
    assert (invoked + [ex])[..n] == invoked[..n];
  }

  /** Committing the page of the next invocation, whose kind is new. */
  lemma CommitCommitted(work: Work, invoked: seq<Producer>, seen: seq<map<Kind, Page>>, n: nat,
                        output: seq<Page>, context: map<Kind, Page>, page: Page)
    requires Committed(work, invoked, seen, n, output, context) && n < |invoked|
    requires work(invoked[n], seen[n]) == Ok(page) && page.kind == invoked[n].kind
    requires page.kind !in context
    ensures Committed(work, invoked, seen, n + 1, output + [page], context[page.kind := page])
  {
    assert (output + [page])[..|output|] == output;
  }

  /** The next member of a level is new: neither dequeued before the level
      nor earlier in the level. */
  lemma NextFresh(start: seq<Producer>, level: seq<Producer>, i: nat)
    requires Distinct(start + level) && i < |level|
    ensures level[i] !in start + level[..i] && level[i] in start + level
    ensures Elems(start + level[..i + 1]) <= Elems(start + level)
    ensures start + level[..i + 1] == (start + level[..i]) + [level[i]]
  {
    assert level[..i + 1] == level[..i] + [level[i]];
    assert level == level[..i + 1] + level[i + 1..];
    DistinctAppend(start, level);
    DistinctAppend(start, level[..i]);
    DistinctAppend(start, level[..i + 1]);
    DistinctAppend(level[..i + 1], level[i + 1..]);
    DistinctAppend(start + level[..i + 1], level[i + 1..]);
    assert start + level == (start + level[..i + 1]) + level[i + 1..];
    assert level[i] in Elems(level);
    ScanStep(level, i);
  }

  /** Fewer executors of `order` remain uninvoked once a new one is. */
  lemma FewerLeft(all: set<Producer>, before: set<Producer>, after: set<Producer>, x: Producer)
    requires before <= after && x in all && x !in before && x in after
    ensures |all - after| < |all - before|
  {
    var big, small := all - before, all - after;
    assert small <= big - {x};
    assert (big - {x}) * small == small;
    assert |(big - {x}) - small| == |big - {x}| - |(big - {x}) * small|;
  }

  lemma ProgressSnoc(pages: seq<Page>, page: Page, total: int)
    ensures ProgressOf(pages + [page], total) == ProgressOf(pages, total) + [Progress(|pages| + 1, total, page.kind)]
  {
    assert (pages + [page])[..|pages|] == pages;
  }

  /** A level makes progress: once its first member is invoked, fewer
      executors remain uninvoked. */
  lemma LevelProgress(order: seq<Producer>, start: seq<Producer>, level: seq<Producer>, i: nat)
    requires Distinct(start + level) && Elems(start + level) <= Elems(order) && 0 < i <= |level|
    ensures |Elems(order) - Elems(start + level[..i])| < |Elems(order) - Elems(start)|
  {
    DistinctAppend(start, level[..i]);
    DistinctAppend(start, level);
    assert level[0] == level[..i][0];
    FewerLeft(Elems(order), Elems(start), Elems(start + level[..i]), level[0]);
  }

  /** A fault of one of the invoked executors on the context it was given. */
  ghost predicate Faulted(work: Work, invoked: seq<Producer>, seen: seq<map<Kind, Page>>, err: Error) {
    exists i :: 0 <= i < |invoked| && i < |seen| && work(invoked[i], seen[i]) == Err(err)
  }

  /** What does not change during a run: the resolved order, the executors'
      behaviour, and whether progress is reported. */
  datatype Setup = Setup(order: seq<Producer>, work: Work, reporting: bool)

  /** The state of a run: the counters, the queue, the context and output
      lists, the progress events reported, and which executors were invoked
      on which context. */
  datatype Sched = Sched(remaining: map<Producer, int>, queue: seq<Producer>, context: map<Kind, Page>,
                         output: seq<Page>, reports: seq<Progress>,
                         invoked: seq<Producer>, seen: seq<map<Kind, Page>>)

  /** The progress events owed for the pages in `output`. */
  function Reported(setup: Setup, output: seq<Page>): seq<Progress> {
    if setup.reporting then ProgressOf(output, |setup.order|) else []
  }

  /** The state between two levels. */
  ghost predicate Valid(setup: Setup, s: Sched) {
    && DistinctKinds(setup.order) && OwnKind(setup.work)
    && Scheduled(setup.order, s.invoked, s.seen)
    && Books(setup.order, s.remaining, s.queue, s.invoked, KindsOf(s.invoked))
    && Committed(setup.work, s.invoked, s.seen, |s.invoked|, s.output, s.context)
    && s.reports == Reported(setup, s.output)
  }

  /** The state before the first level (source lines 35-36 and 169-172). */
  function Start(order: seq<Producer>): Sched {
    Sched(Initial(order), Select(order, Initial(order), Ready), map[], [], [], [], [])
  }

  lemma StartValid(setup: Setup)
    requires DistinctKinds(setup.order) && OwnKind(setup.work)
    ensures Valid(setup, Start(setup.order))
  {
    DistinctKindsDistinct(setup.order);
    BooksStart(setup.order);
    NothingDone(setup.work, setup.order);
  }

  /** An executor is invoked on `ctx`. */
  function AfterInvoke(s: Sched, ex: Producer, ctx: map<Kind, Page>): Sched {
    s.(invoked := s.invoked + [ex], seen := s.seen + [ctx])
  }

  /** A page is committed: added to the context under its kind and to the
      output, with a progress event when progress is reported. */
  function AfterCommit(setup: Setup, s: Sched, page: Page): Sched {
    s.(context := s.context[page.kind := page], output := s.output + [page],
       reports := if setup.reporting then s.reports + [Progress(|s.output| + 1, |setup.order|, page.kind)]
                  else s.reports)
  }

  /** The dependants of kind `k` are unlocked. */
  function AfterUnlock(order: seq<Producer>, s: Sched, k: Kind): Sched {
    s.(remaining := Decremented(s.remaining, k), queue := s.queue + Select(order, s.remaining, Unlocked(k)))
  }

  /** The blocking shape: each member in turn parses on the current context,
      commits, and unlocks; the first fault ends the run. */
  function InlineSteps(setup: Setup, s: Sched, members: seq<Producer>): (Outcome, Sched)
    decreases |members|
  {
    if members == [] then (Pass, s)
    else
      var ex := members[0];
      var s1 := AfterInvoke(s, ex, s.context);
      match setup.work(ex, s.context)
      case Err(e) => (Fail(e), s1)
      case Ok(page) => InlineSteps(setup, AfterUnlock(setup.order, AfterCommit(setup, s1, page), ex.kind), members[1..])
  }

  function InlineLevel(setup: Setup, s: Sched): (Outcome, Sched) {
    InlineSteps(setup, s.(queue := []), s.queue)
  }

  /** `n` copies of one context. */
  function Repeat(ctx: map<Kind, Page>, n: nat): seq<map<Kind, Page>> {
    seq(n, _ => ctx)
  }

  lemma RepeatSnoc(seen0: seq<map<Kind, Page>>, ctx: map<Kind, Page>, n: nat)
    ensures (seen0 + Repeat(ctx, n)) + [ctx] == seen0 + Repeat(ctx, n + 1)
  {
    assert Repeat(ctx, n) + [ctx] == Repeat(ctx, n + 1);
  }

  /** Every member of a level is invoked on the same context. */
  function InvokeAll(s: Sched, level: seq<Producer>, ctx: map<Kind, Page>): (r: Sched)
    ensures r.invoked == s.invoked + level && r.seen == s.seen + Repeat(ctx, |level|)
    ensures r.remaining == s.remaining && r.queue == s.queue && r.context == s.context
    ensures r.output == s.output && r.reports == s.reports
  {
    if level == [] then
      assert s.invoked + [] == s.invoked && s.seen + Repeat(ctx, 0) == s.seen;
      s
    else
      var init := level[..|level| - 1];
      assert level == init + [level[|level| - 1]];
      assert Repeat(ctx, |init|) + [ctx] == Repeat(ctx, |level|);
      AfterInvoke(InvokeAll(s, init, ctx), level[|level| - 1], ctx)
  }

  /** The pages of a level in dequeue order, or the first fault in dequeue
      order. This is what awaiting `Task.WhenAll` gives when every member
      returns its task and none is cancelled beside a faulted one. */
  function Bodies(work: Work, level: seq<Producer>, ctx: map<Kind, Page>): Result<seq<Page>> {
    if level == [] then Ok([])
    else
      match Bodies(work, level[..|level| - 1], ctx)
      case Err(e) => Err(e)
      case Ok(pages) =>
        match work(level[|level| - 1], ctx)
        case Err(e) => Err(e)
        case Ok(page) => Ok(pages + [page])
  }

  /** The pages committed one after the other. */
  function CommitAll(setup: Setup, s: Sched, pages: seq<Page>): (r: Sched)
    ensures r.remaining == s.remaining && r.queue == s.queue && r.invoked == s.invoked && r.seen == s.seen
    decreases |pages|
  {
    if pages == [] then s else CommitAll(setup, AfterCommit(setup, s, pages[0]), pages[1..])
  }

  /** The members' kinds unlocked one after the other. */
  function UnlockAll(order: seq<Producer>, s: Sched, level: seq<Producer>): (r: Sched)
    ensures r.context == s.context && r.output == s.output && r.reports == s.reports
    ensures r.invoked == s.invoked && r.seen == s.seen
    decreases |level|
  {
    if level == [] then s else UnlockAll(order, AfterUnlock(order, s, level[0].kind), level[1..])
  }

  /** The awaitable shape: all members parse on the context as it was when
      the level began; then either the first fault, or every page committed
      in dequeue order followed by every member's unlock. */
  function SnapshotLevel(setup: Setup, s: Sched): (Outcome, Sched) {
    var level := s.queue;
    var s1 := InvokeAll(s.(queue := []), level, s.context);
    match Bodies(setup.work, level, s.context)
    case Err(e) => (Fail(e), s1)
    case Ok(pages) => (Pass, UnlockAll(setup.order, CommitAll(setup, s1, pages), level))
  }

  function Level(setup: Setup, inline: bool, s: Sched): (Outcome, Sched) {
    if inline then InlineLevel(setup, s) else SnapshotLevel(setup, s)
  }

  /** How many executors of the order are still to be invoked. */
  function Left(setup: Setup, s: Sched): nat {
    |Elems(setup.order) - Elems(s.invoked)|
  }

  /** A whole run: levels until the queue is empty or an executor faults. */
  ghost function Run(setup: Setup, inline: bool, s: Sched): (Outcome, Sched)
    requires Valid(setup, s)
    decreases Left(setup, s)
  {
    if s.queue == [] then (Pass, s)
    else
      LevelKeeps(setup, inline, s);
      var r := Level(setup, inline, s);
      if r.0.Fail? then r else Run(setup, inline, r.1)
  }

  /** The loop invariant of the blocking shape after `i` members of `level`,
      dequeued after `start`. */
  ghost predicate InlineInv(setup: Setup, start: seq<Producer>, level: seq<Producer>, i: nat, s: Sched) {
    && DistinctKinds(setup.order) && OwnKind(setup.work)
    && i <= |level|
    && s.invoked == start + level[..i]
    && Scheduled(setup.order, s.invoked, s.seen)
    && Books(setup.order, s.remaining, s.queue, start + level, KindsOf(s.invoked))
    && Committed(setup.work, s.invoked, s.seen, |s.invoked|, s.output, s.context)
    && s.reports == Reported(setup, s.output)
  }

  /** The next member of a level in the blocking shape is a fresh executor
      of the order whose dependencies have all finished and are in the
      context. */
  lemma InlineNext(setup: Setup, start: seq<Producer>, level: seq<Producer>, i: nat, s: Sched)
    requires InlineInv(setup, start, level, i, s) && i < |level|
    ensures level[i] in setup.order && level[i] !in s.invoked
    ensures Distinct(level[i].deps) && Elems(level[i].deps) <= KindsOf(s.invoked)
    ensures Elems(level[i].deps) <= s.context.Keys
    ensures level[i].kind !in KindsOf(s.invoked) && level[i].kind !in s.context
    ensures start + level[..i + 1] == s.invoked + [level[i]]
  {
    var order := setup.order;
    DistinctKindsDistinct(order);
    NextFresh(start, level, i);
    BooksQueued(order, s.remaining, s.queue, start + level, KindsOf(s.invoked), level[i]);
    KindOutside(order, s.invoked, level[i]);
    assert s.invoked[..|s.invoked|] == s.invoked;
    CommittedCovers(setup.work, s.invoked, s.seen, s.output, s.context);
    CommittedLacks(setup.work, s.invoked, s.seen, |s.invoked|, s.output, s.context, level[i].kind);
  }

  /** Invoking the next member keeps the invocation record. */
  lemma InlineInvoke(setup: Setup, start: seq<Producer>, level: seq<Producer>, i: nat, s: Sched)
    requires InlineInv(setup, start, level, i, s) && i < |level|
    ensures var s1 := AfterInvoke(s, level[i], s.context);
            && s1.invoked == start + level[..i + 1]
            && Scheduled(setup.order, s1.invoked, s1.seen)
            && Committed(setup.work, s1.invoked, s1.seen, |s.invoked|, s.output, s.context)
            && s1.invoked[|s.invoked|] == level[i] && s1.seen[|s.invoked|] == s.context
  {
    InlineNext(setup, start, level, i, s);
    InvokeScheduled(setup.order, s.invoked, s.seen, level[i], s.context);
    InvokeCommitted(setup.work, s.invoked, s.seen, |s.invoked|, s.output, s.context, level[i]);
  }

  /** Committing the next member's page and unlocking its dependants keeps
      the invariant. */
  lemma InlineCommit(setup: Setup, start: seq<Producer>, level: seq<Producer>, i: nat, s: Sched, page: Page)
    requires InlineInv(setup, start, level, i, s) && i < |level|
    requires setup.work(level[i], s.context) == Ok(page)
    ensures InlineInv(setup, start, level, i + 1,
                      AfterUnlock(setup.order, AfterCommit(setup, AfterInvoke(s, level[i], s.context), page), level[i].kind))
  {
    var order, work, ex, before := setup.order, setup.work, level[i], s.invoked;
    var s1 := AfterInvoke(s, ex, s.context);
    InlineNext(setup, start, level, i, s);
    InlineInvoke(setup, start, level, i, s);
    assert page.kind == ex.kind;
    CommitCommitted(work, s1.invoked, s1.seen, |before|, s.output, s.context, page);
    ProgressSnoc(s.output, page, |order|);
    DistinctKindsDistinct(order);
    BooksUnlock(order, s.remaining, s.queue, start + level, KindsOf(before), ex.kind);
    KindsOfSnoc(before, ex);
  }

  /** One member in the blocking shape keeps the invariant, or faults. */
  lemma InlineStep(setup: Setup, start: seq<Producer>, level: seq<Producer>, i: nat, s: Sched)
    requires InlineInv(setup, start, level, i, s) && i < |level|
    ensures var s1 := AfterInvoke(s, level[i], s.context);
            && s1.invoked == start + level[..i + 1]
            && Scheduled(setup.order, s1.invoked, s1.seen)
            && (setup.work(level[i], s.context).Err? ==>
                  Faulted(setup.work, s1.invoked, s1.seen, setup.work(level[i], s.context).error))
            && (setup.work(level[i], s.context).Ok? ==>
                  var page := setup.work(level[i], s.context).value;
                  InlineInv(setup, start, level, i + 1,
                            AfterUnlock(setup.order, AfterCommit(setup, s1, page), level[i].kind)))
  {
    InlineInvoke(setup, start, level, i, s);
    if setup.work(level[i], s.context).Ok? {
      InlineCommit(setup, start, level, i, s, setup.work(level[i], s.context).value);
    }
  }

  /** The rest of a level in the blocking shape, by induction on the members
      still to run. */
  lemma {:induction false} InlineRest(setup: Setup, start: seq<Producer>, level: seq<Producer>, i: nat, s: Sched)
    requires InlineInv(setup, start, level, i, s)
    ensures var r := InlineSteps(setup, s, level[i..]);
            && Scheduled(setup.order, r.1.invoked, r.1.seen)
            && r.1.invoked <= start + level
            && |start| + i <= |r.1.invoked|
            && (i < |level| ==> |start| + i < |r.1.invoked|)
            && (r.0.Pass? ==> InlineInv(setup, start, level, |level|, r.1))
            && (r.0.Fail? ==> Faulted(setup.work, r.1.invoked, r.1.seen, r.0.error))
    decreases |level| - i
  {
    if i < |level| {
      InlineStep(setup, start, level, i, s);
      LevelPrefix(start, level, i + 1);
      assert level[i..][0] == level[i] && level[i..][1..] == level[i + 1..];
      var s1 := AfterInvoke(s, level[i], s.context);
      if setup.work(level[i], s.context).Ok? {
        var page := setup.work(level[i], s.context).value;
        InlineRest(setup, start, level, i + 1, AfterUnlock(setup.order, AfterCommit(setup, s1, page), level[i].kind));
      }
    } else {
      LevelPrefix(start, level, i);
    }
  }

  /** The members of a level taken so far, after those taken before it,
      are a prefix of all taken once the level ends. */
  lemma LevelPrefix(start: seq<Producer>, level: seq<Producer>, i: nat)
    requires i <= |level|
    ensures start + level[..i] <= start + level
    ensures (start + level)[..|start| + i] == start + level[..i]
  {
    assert start + level == (start + level[..i]) + level[i..];
  }

  /** The bodies of a level: the pages of all members in dequeue order, or
      the first fault. */
  lemma {:induction false} BodiesSound(work: Work, level: seq<Producer>, ctx: map<Kind, Page>)
    ensures Bodies(work, level, ctx).Ok? ==>
              var pages := Bodies(work, level, ctx).value;
              |pages| == |level| && forall j :: 0 <= j < |level| ==> work(level[j], ctx) == Ok(pages[j])
    ensures Bodies(work, level, ctx).Err? ==>
              exists j :: 0 <= j < |level| && work(level[j], ctx) == Err(Bodies(work, level, ctx).error)
  {
    if level != [] {
      var init := level[..|level| - 1];
      BodiesSound(work, init, ctx);
      if Bodies(work, init, ctx).Err? {
        var j :| 0 <= j < |init| && work(init[j], ctx) == Err(Bodies(work, init, ctx).error);
        assert level[j] == init[j];
      }
    }
  }

  /** Invoking one more member of a level on the context as it was when
      the level began. */
  lemma InvokeOneMore(order: seq<Producer>, start: seq<Producer>, level: seq<Producer>, i: nat,
                      seen: seq<map<Kind, Page>>, rem: map<Producer, int>, ctx: map<Kind, Page>)
    requires i < |level| && Scheduled(order, start + level[..i], seen) && KindsOf(start) <= ctx.Keys
    requires Books(order, rem, [], start + level, KindsOf(start))
    ensures Scheduled(order, start + level[..i + 1], seen + [ctx])
  {
    var ex := level[i];
    NextFresh(start, level, i);
    BooksQueued(order, rem, [], start + level, KindsOf(start), ex);
    KindsOfAppend(start, level[..i]);
    InvokeScheduled(order, start + level[..i], seen, ex, ctx);
  }

  /** Invoking the members of a level, one after the other, on the
      context as it was when the level began. */
  lemma {:induction false} InvokeAllScheduled(order: seq<Producer>, start: seq<Producer>, level: seq<Producer>, i: nat,
                                              seen0: seq<map<Kind, Page>>, rem: map<Producer, int>, ctx: map<Kind, Page>)
    requires i <= |level| && Scheduled(order, start, seen0) && KindsOf(start) <= ctx.Keys
    requires Books(order, rem, [], start + level, KindsOf(start))
    ensures Scheduled(order, start + level[..i], seen0 + Repeat(ctx, i))
  {
    if i > 0 {
      InvokeAllScheduled(order, start, level, i - 1, seen0, rem, ctx);
      InvokeOneMore(order, start, level, i - 1, seen0 + Repeat(ctx, i - 1), rem, ctx);
      RepeatSnoc(seen0, ctx, i - 1);
    } else {
      assert level[..0] == [] && start + [] == start && seen0 + Repeat(ctx, 0) == seen0;
    }
  }

  /** Invoking executors on the current context leaves what has been
      committed as it was. */
  lemma InvokeAllCommitted(work: Work, start: seq<Producer>, seen0: seq<map<Kind, Page>>, level: seq<Producer>,
                           output: seq<Page>, ctx: map<Kind, Page>)
    requires Committed(work, start, seen0, |start|, output, ctx)
    ensures Committed(work, start + level, seen0 + Repeat(ctx, |level|), |start|, output, ctx)
  {
    var invoked, seen := start + level, seen0 + Repeat(ctx, |level|);
    assert invoked[..|start|] == start;
    forall i | 0 <= i < |start| ensures invoked[i] == start[i] && seen[i] == seen0[i] {
    }
    forall i | 0 <= i < |seen| ensures SubMap(seen[i], ctx) {
      if i >= |seen0| {
        assert seen[i] == ctx;
      } else {
        assert seen[i] == seen0[i];
      }
    }
  }

  /** A part of an order with distinct kinds has distinct kinds. */
  lemma DistinctKindsWithin(order: seq<Producer>, xs: seq<Producer>)
    requires DistinctKinds(order) && Distinct(xs) && Elems(xs) <= Elems(order)
    ensures DistinctKinds(xs)
  {
    forall i, j | 0 <= i < j < |xs| ensures xs[i].kind != xs[j].kind {
      assert xs[i] in Elems(order) && xs[j] in Elems(order);
      var a :| 0 <= a < |order| && order[a] == xs[i];
      var b :| 0 <= b < |order| && order[b] == xs[j];
      assert a != b;
    }
  }

  /** With distinct kinds, no earlier producer has the kind of the `n`-th. */
  lemma KindFresh(ps: seq<Producer>, n: nat)
    requires DistinctKinds(ps) && n < |ps|
    ensures ps[n].kind !in KindsOf(ps[..n])
  {
    forall i | 0 <= i < n ensures ps[..n][i].kind != ps[n].kind {
      assert ps[..n][i] == ps[i];
    }
  }

  /** Committing pages one after the other appends them to the output and
      reports one event per page. */
  lemma {:induction false} CommitAllReports(setup: Setup, s: Sched, pages: seq<Page>)
    requires s.reports == Reported(setup, s.output)
    ensures CommitAll(setup, s, pages).output == s.output + pages
    ensures CommitAll(setup, s, pages).reports == Reported(setup, CommitAll(setup, s, pages).output)
    decreases |pages|
  {
    if pages != [] {
      ProgressSnoc(s.output, pages[0], |setup.order|);
      CommitAllReports(setup, AfterCommit(setup, s, pages[0]), pages[1..]);
      assert (s.output + [pages[0]]) + pages[1..] == s.output + pages;
    } else {
      assert s.output + [] == s.output;
    }
  }

  /** `pages` are what the invocations from the `n`-th on returned. */
  ghost predicate Recorded(work: Work, invoked: seq<Producer>, seen: seq<map<Kind, Page>>, n: nat, pages: seq<Page>) {
    && n + |pages| <= |invoked| == |seen|
    && forall j :: 0 <= j < |pages| ==> work(invoked[n + j], seen[n + j]) == Ok(pages[j])
  }

  /** Committing the pages of a level in dequeue order. */
  lemma {:induction false} CommitAllCommitted(setup: Setup, invoked: seq<Producer>, seen: seq<map<Kind, Page>>,
                                              n: nat, s: Sched, pages: seq<Page>)
    requires OwnKind(setup.work) && DistinctKinds(invoked)
    requires Committed(setup.work, invoked, seen, n, s.output, s.context)
    requires Recorded(setup.work, invoked, seen, n, pages)
    ensures var r := CommitAll(setup, s, pages);
            Committed(setup.work, invoked, seen, n + |pages|, r.output, r.context)
    decreases |pages|
  {
    if pages != [] {
      var page := pages[0];
      assert setup.work(invoked[n], seen[n]) == Ok(page);
      KindFresh(invoked, n);
      CommittedLacks(setup.work, invoked, seen, n, s.output, s.context, invoked[n].kind);
      CommitCommitted(setup.work, invoked, seen, n, s.output, s.context, page);
      forall j | 0 <= j < |pages[1..]| ensures setup.work(invoked[n + 1 + j], seen[n + 1 + j]) == Ok(pages[1..][j]) {
        assert pages[1..][j] == pages[j + 1];
      }
      assert Recorded(setup.work, invoked, seen, n + 1, pages[1..]);
      CommitAllCommitted(setup, invoked, seen, n + 1, AfterCommit(setup, s, page), pages[1..]);
      assert CommitAll(setup, s, pages) == CommitAll(setup, AfterCommit(setup, s, page), pages[1..]);
      assert n + 1 + |pages[1..]| == n + |pages|;
    } else {
      assert CommitAll(setup, s, pages) == s;
    }
  }

  /** Unlocking the members of a level one after the other. */
  lemma {:induction false} UnlockAllKeeps(order: seq<Producer>, start: seq<Producer>, level: seq<Producer>,
                                          j: nat, s: Sched)
    requires DistinctKinds(order) && j <= |level|
    requires Books(order, s.remaining, s.queue, start + level, KindsOf(start + level[..j]))
    ensures var r := UnlockAll(order, s, level[j..]);
            Books(order, r.remaining, r.queue, start + level, KindsOf(start + level))
    decreases |level| - j
  {
    DistinctKindsDistinct(order);
    if j < |level| {
      NextFresh(start, level, j);
      KindOutside(order, start + level[..j], level[j]);
      BooksUnlock(order, s.remaining, s.queue, start + level, KindsOf(start + level[..j]), level[j].kind);
      KindsOfSnoc(start + level[..j], level[j]);
      assert level[j..][0] == level[j] && level[j..][1..] == level[j + 1..];
      UnlockAllKeeps(order, start, level, j + 1, AfterUnlock(order, s, level[j].kind));
    } else {
      assert level[..j] == level;
    }
  }

  /** The invocation phase of a level in the awaitable shape. */
  lemma SnapshotInvoke(setup: Setup, s: Sched)
    requires Valid(setup, s)
    ensures var s1 := InvokeAll(s.(queue := []), s.queue, s.context);
            && s1.invoked == s.invoked + s.queue && s1.seen == s.seen + Repeat(s.context, |s.queue|)
            && Scheduled(setup.order, s1.invoked, s1.seen)
            && DistinctKinds(s1.invoked)
            && Committed(setup.work, s1.invoked, s1.seen, |s.invoked|, s.output, s.context)
            && Books(setup.order, s.remaining, [], s1.invoked, KindsOf(s.invoked))
  {
    var start, level, order := s.invoked, s.queue, setup.order;
    var t := s.(queue := []);
    assert t.invoked == start && t.seen == s.seen && t.output == s.output && t.context == s.context;
    BooksDequeue(order, s.remaining, level, start, KindsOf(start));
    assert start[..|start|] == start;
    CommittedCovers(setup.work, start, s.seen, s.output, s.context);
    InvokeAllScheduled(order, start, level, |level|, s.seen, s.remaining, s.context);
    assert level[..|level|] == level;
    InvokeAllCommitted(setup.work, start, s.seen, level, s.output, s.context);
    DistinctKindsWithin(order, start + level);
  }

  /** The bodies of a level, read off the invocation record. */
  lemma BodiesRecorded(work: Work, start: seq<Producer>, seen0: seq<map<Kind, Page>>, level: seq<Producer>,
                       ctx: map<Kind, Page>, pages: seq<Page>)
    requires |seen0| == |start| && Bodies(work, level, ctx) == Ok(pages)
    ensures |pages| == |level|
    ensures Recorded(work, start + level, seen0 + Repeat(ctx, |level|), |start|, pages)
  {
    BodiesSound(work, level, ctx);
    forall j | 0 <= j < |pages|
      ensures work((start + level)[|start| + j], (seen0 + Repeat(ctx, |level|))[|start| + j]) == Ok(pages[j])
    {
    }
  }

  /** Unlocking the members of a level once all their pages are committed. */
  lemma UnlockPhase(setup: Setup, s2: Sched, start: seq<Producer>, level: seq<Producer>)
    requires DistinctKinds(setup.order) && OwnKind(setup.work)
    requires s2.invoked == start + level
    requires Scheduled(setup.order, s2.invoked, s2.seen)
    requires Committed(setup.work, s2.invoked, s2.seen, |s2.invoked|, s2.output, s2.context)
    requires s2.reports == Reported(setup, s2.output)
    requires Books(setup.order, s2.remaining, s2.queue, s2.invoked, KindsOf(start))
    ensures Valid(setup, UnlockAll(setup.order, s2, level))
  {
    assert start + level[..0] == start && level[0..] == level;
    DistinctKindsDistinct(setup.order);
    UnlockAllKeeps(setup.order, start, level, 0, s2);
  }

  /** Committing all the pages of a level, once all its members have been
      invoked, leaves every invocation committed and reported. */
  lemma CommitPhase(setup: Setup, s1: Sched, n: nat, pages: seq<Page>)
    requires OwnKind(setup.work) && DistinctKinds(s1.invoked)
    requires Committed(setup.work, s1.invoked, s1.seen, n, s1.output, s1.context)
    requires Recorded(setup.work, s1.invoked, s1.seen, n, pages) && n + |pages| == |s1.invoked|
    requires s1.reports == Reported(setup, s1.output)
    ensures var s2 := CommitAll(setup, s1, pages);
            && Committed(setup.work, s2.invoked, s2.seen, |s2.invoked|, s2.output, s2.context)
            && s2.reports == Reported(setup, s2.output)
  {
    CommitAllCommitted(setup, s1.invoked, s1.seen, n, s1, pages);
    CommitAllReports(setup, s1, pages);
  }

  /** Committing the pages of a level and then unlocking its members, once
      all members have been invoked on the level's starting context, keeps
      the invariant. */
  lemma CommitUnlockValid(setup: Setup, s1: Sched, start: seq<Producer>, level: seq<Producer>, pages: seq<Page>)
    requires DistinctKinds(setup.order) && OwnKind(setup.work)
    requires s1.invoked == start + level && s1.queue == []
    requires Scheduled(setup.order, s1.invoked, s1.seen) && DistinctKinds(s1.invoked)
    requires Committed(setup.work, s1.invoked, s1.seen, |start|, s1.output, s1.context)
    requires Books(setup.order, s1.remaining, [], s1.invoked, KindsOf(start))
    requires s1.reports == Reported(setup, s1.output)
    requires |pages| == |level|
    requires Recorded(setup.work, s1.invoked, s1.seen, |start|, pages)
    ensures Valid(setup, UnlockAll(setup.order, CommitAll(setup, s1, pages), level))
  {
    CommitPhase(setup, s1, |start|, pages);
    UnlockPhase(setup, CommitAll(setup, s1, pages), start, level);
  }

  /** A level in the awaitable shape whose bodies all succeed keeps the
      invariant. */
  lemma SnapshotPass(setup: Setup, s: Sched, pages: seq<Page>)
    requires Valid(setup, s) && Bodies(setup.work, s.queue, s.context) == Ok(pages)
    ensures Valid(setup, UnlockAll(setup.order, CommitAll(setup, InvokeAll(s.(queue := []), s.queue, s.context), pages), s.queue))
  {
    SnapshotInvoke(setup, s);
    BodiesRecorded(setup.work, s.invoked, s.seen, s.queue, s.context, pages);
    CommitUnlockValid(setup, InvokeAll(s.(queue := []), s.queue, s.context), s.invoked, s.queue, pages);
  }

  /** A fault among the bodies of a level is recorded as an invocation that
      faulted. */
  lemma SnapshotFault(work: Work, start: seq<Producer>, seen0: seq<map<Kind, Page>>, level: seq<Producer>,
                      ctx: map<Kind, Page>, e: Error)
    requires |seen0| == |start| && Bodies(work, level, ctx) == Err(e)
    ensures Faulted(work, start + level, seen0 + Repeat(ctx, |level|), e)
  {
    BodiesSound(work, level, ctx);
    var j :| 0 <= j < |level| && work(level[j], ctx) == Err(e);
    assert (start + level)[|start| + j] == level[j] && (seen0 + Repeat(ctx, |level|))[|start| + j] == ctx;
  }

  /** One level in the awaitable shape keeps the invariant, or faults. */
  lemma SnapshotKeeps(setup: Setup, s: Sched)
    requires Valid(setup, s) && s.queue != []
    ensures var r := SnapshotLevel(setup, s);
            && Scheduled(setup.order, r.1.invoked, r.1.seen)
            && r.1.invoked == s.invoked + s.queue
            && (r.0.Pass? ==> Valid(setup, r.1))
            && (r.0.Fail? ==> Faulted(setup.work, r.1.invoked, r.1.seen, r.0.error))
  {
    SnapshotInvoke(setup, s);
    match Bodies(setup.work, s.queue, s.context)
    case Err(e) =>
      SnapshotFault(setup.work, s.invoked, s.seen, s.queue, s.context, e);
    case Ok(pages) =>
      SnapshotPass(setup, s, pages);
  }

  /** A level that invokes at least one of its members leaves fewer
      executors of the order uninvoked. */
  lemma LeftDecreases(setup: Setup, s: Sched, r: Sched)
    requires Books(setup.order, s.remaining, [], s.invoked + s.queue, KindsOf(s.invoked))
    requires r.invoked <= s.invoked + s.queue && |s.invoked| < |r.invoked|
    ensures Left(setup, r) < Left(setup, s)
  {
    var start, level := s.invoked, s.queue;
    var m := |r.invoked| - |start|;
    LevelPrefix(start, level, m);
    assert r.invoked == (start + level)[..|start| + m];
    LevelProgress(setup.order, start, level, m);
  }

  /** The state at the start of a level in the blocking shape. */
  lemma InlineStart(setup: Setup, s: Sched)
    requires Valid(setup, s)
    ensures InlineInv(setup, s.invoked, s.queue, 0, s.(queue := []))
    ensures Books(setup.order, s.remaining, [], s.invoked + s.queue, KindsOf(s.invoked))
  {
    var t := s.(queue := []);
    assert t.invoked == s.invoked && t.seen == s.seen && t.remaining == s.remaining && t.queue == [];
    assert t.output == s.output && t.context == s.context && t.reports == s.reports;
    BooksDequeue(setup.order, s.remaining, s.queue, s.invoked, KindsOf(s.invoked));
    assert s.invoked + s.queue[..0] == s.invoked;
  }

  /** The state at the end of a level in the blocking shape. */
  lemma InlineEnd(setup: Setup, start: seq<Producer>, level: seq<Producer>, r: Sched)
    requires InlineInv(setup, start, level, |level|, r)
    ensures Valid(setup, r)
  {
    assert level[..|level|] == level;
  }

  /** One level in the blocking shape keeps the invariant, or faults. */
  lemma InlineKeeps(setup: Setup, s: Sched)
    requires Valid(setup, s) && s.queue != []
    ensures var r := InlineLevel(setup, s);
            && Scheduled(setup.order, r.1.invoked, r.1.seen)
            && Left(setup, r.1) < Left(setup, s)
            && (r.0.Pass? ==> Valid(setup, r.1))
            && (r.0.Fail? ==> Faulted(setup.work, r.1.invoked, r.1.seen, r.0.error))
  {
    InlineStart(setup, s);
    assert s.queue[0..] == s.queue;
    InlineRest(setup, s.invoked, s.queue, 0, s.(queue := []));
    var r := InlineLevel(setup, s);
    LeftDecreases(setup, s, r.1);
    if r.0.Pass? {
      InlineEnd(setup, s.invoked, s.queue, r.1);
    }
  }

  /** One level, in either shape, keeps the invariant or faults, and
      invokes at least one executor not invoked before. */
  lemma LevelKeeps(setup: Setup, inline: bool, s: Sched)
    requires Valid(setup, s) && s.queue != []
    ensures var r := Level(setup, inline, s);
            && Scheduled(setup.order, r.1.invoked, r.1.seen)
            && Left(setup, r.1) < Left(setup, s)
            && (r.0.Pass? ==> Valid(setup, r.1))
            && (r.0.Fail? ==> Faulted(setup.work, r.1.invoked, r.1.seen, r.0.error))
  {
    if inline {
      InlineKeeps(setup, s);
    } else {
      SnapshotKeeps(setup, s);
      BooksDequeue(setup.order, s.remaining, s.queue, s.invoked, KindsOf(s.invoked));
      var r := SnapshotLevel(setup, s);
      assert r.1.invoked == s.invoked + s.queue;
      LeftDecreases(setup, s, r.1);
    }
  }

  /** A whole run keeps the invariant and ends with an empty queue, or ends
      with the fault of an invoked executor. */
  lemma {:induction false} RunSound(setup: Setup, inline: bool, s: Sched)
    requires Valid(setup, s)
    ensures var r := Run(setup, inline, s);
            && Scheduled(setup.order, r.1.invoked, r.1.seen)
            && (r.0.Pass? ==> Valid(setup, r.1) && r.1.queue == [])
            && (r.0.Fail? ==> Faulted(setup.work, r.1.invoked, r.1.seen, r.0.error))
    decreases Left(setup, s)
  {
    if s.queue != [] {
      LevelKeeps(setup, inline, s);
      var r := Level(setup, inline, s);
      if r.0.Pass? {
        RunSound(setup, inline, r.1);
      }
    }
  }
}
