/** The root-level CompositeConfigParser: the same concatenation written as
    one query over the sub-parsers, without the cancellation check and the
    single-parser shortcut of the one in Source/Parser.

    As there, each function takes the outcome of every sub-parser's call, in
    parser order. */
module RootCompositeParser {
  import opened ConfigTypes
  import opened CompositeParser

  /** `SelectMany` over the page arrays: the first array, then the rest. */
  function SelectMany(outputs: seq<seq<Page>>): seq<Page> {
    if outputs == [] then [] else outputs[0] + SelectMany(outputs[1..])
  }

  /** Source lines 16-21: the sub-parsers asked one after the other while
      the query is enumerated, a fault ending it. */
  function Parse(results: seq<Result<seq<Page>>>): Result<seq<Page>> {
    if results == [] then Ok([])
    else
      match results[0]
      case Err(e) => Err(e)
      case Ok(pages) =>
        match Parse(results[1..])
        case Err(e) => Err(e)
        case Ok(rest) => Ok(pages + rest)
  }

  /** Source lines 23-33: every sub-parser awaited, then their arrays
      concatenated; the token is only handed on. */
  function ParseAsync(results: seq<Result<seq<Page>>>): Result<seq<Page>> {
    match WhenAll(results)
    case Err(e) => Err(e)
    case Ok(vs) => Ok(SelectMany(vs))
  }

  /** Concatenating from the front and from the back agree. */
  lemma {:induction false} SelectManyFlatten(outputs: seq<seq<Page>>)
    ensures SelectMany(outputs) == Flatten(outputs)
  {
    if outputs != [] {
      SelectManyFlatten(outputs[1..]);
      FlattenCons(outputs);
    }
  }

  /** The first array, then the rest, is all of them. */
  lemma {:induction false} FlattenCons(outputs: seq<seq<Page>>)
    requires outputs != []
    ensures Flatten(outputs) == outputs[0] + Flatten(outputs[1..])
    decreases |outputs|
  {
    var n := |outputs|;
    if n > 1 {
      var init, tail := outputs[..n - 1], outputs[1..];
      FlattenCons(init);
      assert init[0] == outputs[0] && init[1..] == tail[..|tail| - 1];
      assert tail[|tail| - 1] == outputs[n - 1];
      assert Flatten(tail) == Flatten(init[1..]) + outputs[n - 1];
      assert Flatten(outputs) == Flatten(init) + outputs[n - 1];
    } else {
      assert outputs[1..] == [] && outputs[..0] == [];
    }
  }

  /** Asking the sub-parsers in turn from the front ends at the first
      one that faults, with its outcome. */
  lemma {:induction false} ParseFaultAt(results: seq<Result<seq<Page>>>)
    ensures Succeeding(results) < |results| ==> Parse(results) == results[Succeeding(results)]
    ensures Succeeding(results) == |results| ==> Parse(results).Ok?
  {
    if results != [] && results[0].Ok? {
      var tail := results[1..];
      ParseFaultAt(tail);
      SucceedingLeads(tail);
      if Succeeding(tail) < |tail| {
        assert tail[Succeeding(tail)] == results[Succeeding(results)];
      }
    }
  }

  /** Both entry points deliver what the Source/Parser composite delivers:
      the first fault in parser order, or all pages in parser order. */
  lemma {:induction false} ParseAgrees(results: seq<Result<seq<Page>>>)
    ensures Parse(results) == Combined(results)
    ensures ParseAsync(results) == Combined(results)
  {
    SucceedingFault(results);
    ParseFaultAt(results);
    var all := WhenAll(results);
    if all.Ok? {
      SelectManyFlatten(all.value);
      if results != [] {
        var tail := results[1..];
        AllOk(tail);
        ParseAgrees(tail);
        var vs, ws := all.value, WhenAll(tail).value;
        assert vs == [vs[0]] + ws;
        FlattenCons(vs);
        assert vs[1..] == ws;
      }
    }
  }

  /** Without sub-parsers there are no pages; otherwise the result holds
      exactly as many pages as the sub-parsers returned. */
  lemma ParseLength(results: seq<Result<seq<Page>>>)
    ensures results == [] ==> Parse(results) == Ok([]) && ParseAsync(results) == Ok([])
    ensures WhenAll(results).Ok? ==> Parse(results).Ok? && |Parse(results).value| == TotalLength(WhenAll(results).value)
  {
    ParseAgrees(results);
    if WhenAll(results).Ok? {
      FlattenLength(WhenAll(results).value);
    }
  }
}
