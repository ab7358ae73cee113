/** CompositeConfigParser (Source/Parser): runs several parsers and
    concatenates their pages in parser order.

    The sub-parsers are not part of this model: each entry point takes the
    outcome of every sub-parser's call, in parser order. `WhenAll` is what
    awaiting all of them yields: every page array, or the fault of the first
    faulting parser in parser order. This is what `Task.WhenAll` gives when
    every sub-parser returns its task and none is cancelled beside a
    faulted one. */
module CompositeParser {
  import opened ConfigTypes

  /** The page arrays one after the other. */
  function Flatten(outputs: seq<seq<Page>>): seq<Page> {
    if outputs == [] then []
    else Flatten(outputs[..|outputs| - 1]) + outputs[|outputs| - 1]
  }

  /** The sum of the arrays' lengths. */
  function TotalLength(outputs: seq<seq<Page>>): nat {
    if outputs == [] then 0
    else TotalLength(outputs[..|outputs| - 1]) + |outputs[|outputs| - 1]|
  }

  /** The outcome of awaiting every sub-parser. */
  function WhenAll(results: seq<Result<seq<Page>>>): (r: Result<seq<seq<Page>>>)
    ensures r.Ok? ==> |r.value| == |results| && forall i :: 0 <= i < |results| ==> results[i] == Ok(r.value[i])
    ensures r.Err? ==> exists i :: 0 <= i < |results| && results[i] == Err(r.error) &&
                                   forall j :: 0 <= j < i ==> results[j].Ok?
  {
    if results == [] then Ok([])
    else
      match WhenAll(results[..|results| - 1])
      case Err(e) => Err(e)
      case Ok(vs) =>
        match results[|results| - 1]
        case Err(e) => Err(e)
        case Ok(v) => Ok(vs + [v])
  }

  /** What the composite delivers: the first fault in parser order, or all
      pages in parser order. */
  function Combined(results: seq<Result<seq<Page>>>): Result<seq<Page>> {
    match WhenAll(results)
    case Err(e) => Err(e)
    case Ok(vs) => Ok(Flatten(vs))
  }

  /** How many sub-parsers in a row, from the first, succeed. */
  function Succeeding(results: seq<Result<seq<Page>>>): (n: nat)
    ensures n <= |results|
  {
    if results == [] || results[0].Err? then 0 else 1 + Succeeding(results[1..])
  }

  /** One composite progress event: sub-parsers done, and how many there
      are. */
  datatype Step = Step(done: int, total: int)

  /** The events of `n` finished sub-parsers out of `total`. */
  function Steps(n: nat, total: int): (r: seq<Step>)
    ensures |r| == n && forall k :: 0 <= k < n ==> r[k] == Step(k + 1, total)
  {
    seq(n, k => Step(k + 1, total))
  }

  lemma {:induction false} FlattenLength(outputs: seq<seq<Page>>)
    ensures |Flatten(outputs)| == TotalLength(outputs)
  {
    if outputs != [] {
      FlattenLength(outputs[..|outputs| - 1]);
    }
  }

  /** Every page of the `i`-th array sits at the sum of the lengths before
      it plus its index in that array: order is kept, within and across
      sub-parsers. */
  lemma {:induction false} FlattenAt(outputs: seq<seq<Page>>, i: nat, j: nat)
    requires i < |outputs| && j < |outputs[i]|
    ensures TotalLength(outputs[..i]) + j < |Flatten(outputs)|
    ensures Flatten(outputs)[TotalLength(outputs[..i]) + j] == outputs[i][j]
  {
    var init := outputs[..|outputs| - 1];
    FlattenLength(init);
    FlattenLength(outputs);
    if i == |outputs| - 1 {
      assert outputs[..i] == init;
    } else {
      assert init[..i] == outputs[..i];
      FlattenAt(init, i, j);
    }
  }

  /** A fault among the first sub-parsers is the composite's fault. */
  lemma {:induction false} WhenAllPrefixFault(results: seq<Result<seq<Page>>>, i: nat)
    requires i <= |results| && WhenAll(results[..i]).Err?
    ensures WhenAll(results) == WhenAll(results[..i])
    decreases |results|
  {
    if i < |results| {
      var init := results[..|results| - 1];
      assert init[..i] == results[..i];
      WhenAllPrefixFault(init, i);
    } else {
      assert results[..i] == results;
    }
  }

  /** With one sub-parser, the composite delivers exactly its outcome. */
  lemma CombinedSingle(x: Result<seq<Page>>)
    ensures Combined([x]) == x
  {
    assert WhenAll([]) == Ok([]);
    AwaitNext([], [], x);
    assert [] + [x] == [x];
    if x.Ok? {
      assert [] + [x.value] == [x.value];
      assert Flatten([x.value]) == Flatten([]) + x.value == x.value;
    }
  }

  /** Awaiting one more sub-parser: its fault, or its pages after the
      others'. */
  lemma AwaitNext(prefix: seq<Result<seq<Page>>>, outputs: seq<seq<Page>>, x: Result<seq<Page>>)
    requires WhenAll(prefix) == Ok(outputs)
    ensures x.Err? ==> WhenAll(prefix + [x]) == Err(x.error)
    ensures x.Ok? ==> WhenAll(prefix + [x]) == Ok(outputs + [x.value])
    ensures x.Ok? ==> Flatten(outputs + [x.value]) == Flatten(outputs) + x.value
  {
    assert (prefix + [x])[..|prefix|] == prefix;
    if x.Ok? {
      assert (outputs + [x.value])[..|outputs|] == outputs;
    }
  }

  /** One more progress event. */
  lemma StepsNext(n: nat, total: int)
    ensures Steps(n + 1, total) == Steps(n, total) + [Step(n + 1, total)]
  {
  }

  /** The composite succeeds exactly when every sub-parser does; a fault is
      the first sub-parser's fault, with every earlier sub-parser
      successful. */
  lemma {:induction false} SucceedingFault(results: seq<Result<seq<Page>>>)
    ensures WhenAll(results).Ok? <==> Succeeding(results) == |results|
    ensures WhenAll(results).Err? ==> results[Succeeding(results)] == Err(WhenAll(results).error)
  {
    var n := Succeeding(results);
    assert forall j :: 0 <= j < n ==> results[j].Ok? by {
      SucceedingLeads(results);
    }
    if n < |results| {
      SucceedingLeads(results);
      assert results[..n + 1][..n] == results[..n];
      assert WhenAll(results[..n]).Ok? by {
        AllOk(results[..n]);
      }
      assert WhenAll(results[..n + 1]) == Err(results[n].error);
      WhenAllPrefixFault(results, n + 1);
    } else {
      AllOk(results);
    }
  }

  /** The sub-parsers counted by `Succeeding` succeed, and the next one,
      if any, faults. */
  lemma {:induction false} SucceedingLeads(results: seq<Result<seq<Page>>>)
    ensures forall j :: 0 <= j < Succeeding(results) ==> results[j].Ok?
    ensures Succeeding(results) < |results| ==> results[Succeeding(results)].Err?
  {
    if results != [] && results[0].Ok? {
      SucceedingLeads(results[1..]);
      forall j | 0 < j < Succeeding(results) ensures results[j].Ok? {
        assert results[j] == results[1..][j - 1];
      }
    }
  }

  /** The sub-parser after `i` successful ones either faults, and then
      exactly `i` succeed in a row, or succeeds, and then more do. */
  lemma SucceedingStep(results: seq<Result<seq<Page>>>, i: nat)
    requires i <= Succeeding(results) && i < |results|
    ensures results[i].Err? ==> Succeeding(results) == i
    ensures results[i].Ok? ==> i < Succeeding(results)
  {
    SucceedingLeads(results);
  }

  /** Awaiting sub-parsers that all succeed yields their pages. */
  lemma {:induction false} AllOk(results: seq<Result<seq<Page>>>)
    requires forall j :: 0 <= j < |results| ==> results[j].Ok?
    ensures WhenAll(results).Ok?
  {
    if results != [] {
      AllOk(results[..|results| - 1]);
    }
  }

  /** Source lines 17-28: the sub-parsers run in order, a fault ending the
      loop, and their pages are appended to one list. */
  method Parse(results: seq<Result<seq<Page>>>) returns (r: Result<seq<Page>>)
    ensures r == Combined(results)
  {
    var list: seq<Page> := [];
    ghost var outputs: seq<seq<Page>> := [];
    assert results[..0] == [];
    for i := 0 to |results|
      invariant WhenAll(results[..i]) == Ok(outputs) && list == Flatten(outputs)
    {
      assert results[..i + 1] == results[..i] + [results[i]];
      var pages := results[i];
      AwaitNext(results[..i], outputs, pages);
      if pages.Err? {
        WhenAllPrefixFault(results, i + 1);
        return Err(pages.error);
      }
      list := list + pages.value;
      outputs := outputs + [pages.value];
    }
    assert results[..|results|] == results;
    r := Ok(list);
  }

  /** The offset copy of source lines 51-65: the arrays' lengths summed,
      then each array copied into one array at the running offset. */
  method Concatenate(outputs: seq<seq<Page>>) returns (combined: array<Page>)
    ensures fresh(combined) && combined[..] == Flatten(outputs)
  {
    var total := 0;
    for i := 0 to |outputs|
      invariant total == TotalLength(outputs[..i])
    {
      assert outputs[..i + 1][..i] == outputs[..i];
      total := total + |outputs[i]|;
    }
    assert outputs[..|outputs|] == outputs;
    combined := new Page[total];
    var offset := 0;
    for i := 0 to |outputs|
      invariant offset == TotalLength(outputs[..i]) <= total
      invariant combined[..offset] == Flatten(outputs[..i])
    {
      var arr := outputs[i];
      assert outputs[..i + 1][..i] == outputs[..i];
      TotalLengthGrows(outputs, i + 1);
      CopyAt(combined, arr, offset);
      assert Flatten(outputs[..i + 1]) == Flatten(outputs[..i]) + arr;
      offset := offset + |arr|;
    }
    FlattenLength(outputs);
  }

  /** `Array.Copy(arr, 0, combined, offset, arr.Length)`. */
  method CopyAt(combined: array<Page>, arr: seq<Page>, offset: nat)
    requires offset + |arr| <= combined.Length
    modifies combined
    ensures combined[..offset + |arr|] == old(combined[..offset]) + arr
    ensures combined[offset + |arr|..] == old(combined[offset + |arr|..])
  {
    for j := 0 to |arr|
      invariant combined[..offset + j] == old(combined[..offset]) + arr[..j]
      invariant combined[offset + j..] == old(combined[offset + j..])
    {
      combined[offset + j] := arr[j];
      assert arr[..j + 1] == arr[..j] + [arr[j]];
    }
    assert arr[..|arr|] == arr;
  }

  /** A prefix of the arrays is no longer than all of them. */
  lemma {:induction false} TotalLengthGrows(outputs: seq<seq<Page>>, i: nat)
    requires i <= |outputs|
    ensures TotalLength(outputs[..i]) <= TotalLength(outputs)
    decreases |outputs|
  {
    if i < |outputs| {
      var init := outputs[..|outputs| - 1];
      assert init[..i] == outputs[..i];
      TotalLengthGrows(init, i);
    } else {
      assert outputs[..i] == outputs;
    }
  }

  /** Source lines 30-66: a token cancelled before the call is reported
      first; a single sub-parser's outcome is passed on as it is; otherwise
      every sub-parser is awaited and their arrays are concatenated. */
  method ParseAsync(results: seq<Result<seq<Page>>>, cancelled: bool) returns (r: Result<seq<Page>>)
    ensures cancelled ==> r == Err(Cancelled)
    ensures !cancelled ==> r == Combined(results)
  {
    if cancelled {
      return Err(Cancelled);
    }
    if |results| == 1 {
      CombinedSingle(results[0]);
      assert results == [results[0]];
      return results[0];
    }
    var awaited := WhenAll(results);
    if awaited.Err? {
      return Err(awaited.error);
    }
    var combined := Concatenate(awaited.value);
    r := Ok(combined[..]);
  }

  /** Source lines 68-90: the sub-parsers are awaited one after the other,
      their pages appended in order, and one progress event reported per
      finished sub-parser when a progress sink is given. */
  method ParseAsyncWithProgress(results: seq<Result<seq<Page>>>, hasProgress: bool, cancelled: bool)
    returns (r: Result<seq<Page>>, reports: seq<Step>)
    ensures cancelled ==> r == Err(Cancelled) && reports == []
    ensures !cancelled ==> r == Combined(results)
    ensures !cancelled ==> reports == if hasProgress then Steps(Succeeding(results), |results|) else []
  {
    if cancelled {
      return Err(Cancelled), [];
    }
    var allPages: seq<Page> := [];
    var total, done := |results|, 0;
    ghost var outputs: seq<seq<Page>> := [];
    reports := [];
    assert results[..0] == [];
    for i := 0 to |results|
      invariant done == i && i <= Succeeding(results)
      invariant WhenAll(results[..i]) == Ok(outputs) && allPages == Flatten(outputs)
      invariant reports == if hasProgress then Steps(done, total) else []
    {
      assert results[..i + 1] == results[..i] + [results[i]];
      var pages := results[i];
      AwaitNext(results[..i], outputs, pages);
      SucceedingStep(results, i);
      if pages.Err? {
        WhenAllPrefixFault(results, i + 1);
        return Err(pages.error), reports;
      }
      StepsNext(done, total);
      allPages := allPages + pages.value;
      outputs := outputs + [pages.value];
      done := done + 1;
      if hasProgress {
        reports := reports + [Step(done, total)];
      }
    }
    assert results[..|results|] == results;
    r := Ok(allPages);
  }
}
