/** The `Config` façade: initialised once from a parser's pages, which it
    stores in a map under their kinds (a later page replacing an earlier one
    of the same kind), and then asked for pages by kind.

    The parser behind the façade is not part of this model: `Initialize`
    and `InitializeAsync` take the outcome of its `Parse` or
    `ParseAsync(token)` call as a parameter. */
module ConfigFacade {
  import opened ConfigTypes

  /** Source lines 68-94 (`ParseConfig` and `ParseConfigAsync` after the
      parser call): each page is written under its kind, in order. */
  method BuildContainer(configData: seq<Page>) returns (parsedData: map<Kind, Page>)
    ensures parsedData == ByKind(configData)
  {
    parsedData := map[];
    for i := 0 to |configData|
      invariant parsedData == ByKind(configData[..i])
    {
      assert configData[..i + 1][..i] == configData[..i];
      parsedData := parsedData[configData[i].kind := configData[i]];
    }
    assert configData[..|configData|] == configData;
  }

  class Config {
    var isInitialized: bool
    /** `None` is the null container of a façade not yet initialised. */
    var container: Option<map<Kind, Page>>

    /** Initialised exactly when there is a container, and every page in it
        is stored under its own kind. */
    ghost predicate Valid()
      reads this
    {
      && (isInitialized <==> container.Some?)
      && (container.Some? ==> forall k :: k in container.value ==> container.value[k].kind == k)
    }

    /** Source lines 15-20. */
    constructor ()
      ensures Valid() && !isInitialized && container == None
    {
      isInitialized, container := false, None;
    }

    /** Source lines 22-32: fails on a second call without touching the
        container; a parser fault leaves the façade uninitialised; otherwise
        the container holds the parsed pages by kind. */
    method Initialize(parsed: Result<seq<Page>>) returns (e: Outcome)
      requires Valid()
      modifies this
      ensures Valid()
      ensures old(isInitialized) ==> e == Fail(AlreadyInitialized) && isInitialized && container == old(container)
      ensures !old(isInitialized) && parsed.Err? ==>
                e == Fail(parsed.error) && !isInitialized && container == old(container)
      ensures !old(isInitialized) && parsed.Ok? ==>
                e == Pass && isInitialized && container == Some(ByKind(parsed.value))
    {
      if isInitialized {
        return Fail(AlreadyInitialized);
      }
      if parsed.Err? {
        return Fail(parsed.error);
      }
      var data := BuildContainer(parsed.value);
      ByKindKeyed(parsed.value);
      container := Some(data);
      isInitialized := true;
      e := Pass;
    }

    /** Source lines 34-46: as `Initialize`, with a cancelled token
        reported after the already-initialised check and before the
        parser is asked. */
    method InitializeAsync(parsed: Result<seq<Page>>, cancelled: bool) returns (e: Outcome)
      requires Valid()
      modifies this
      ensures Valid()
      ensures old(isInitialized) ==> e == Fail(AlreadyInitialized) && isInitialized && container == old(container)
      ensures !old(isInitialized) && cancelled ==>
                e == Fail(Cancelled) && !isInitialized && container == old(container)
      ensures !old(isInitialized) && !cancelled && parsed.Err? ==>
                e == Fail(parsed.error) && !isInitialized && container == old(container)
      ensures !old(isInitialized) && !cancelled && parsed.Ok? ==>
                e == Pass && isInitialized && container == Some(ByKind(parsed.value))
    {
      if isInitialized {
        return Fail(AlreadyInitialized);
      }
      if cancelled {
        return Fail(Cancelled);
      }
      e := Initialize(parsed);
    }

    /** Source lines 48-66: the page stored under `k`; the type check
        after the lookup cannot fail, since every page is stored under its
        own kind. */
    function GetConfigPage(k: Kind): (r: Result<Page>)
      reads this
      ensures container.None? <==> r == Err(ContainerNull)
      ensures r == Err(NotFound(k)) <==> container.Some? && k !in container.value
      ensures r.Ok? ==> container.Some? && k in container.value && r.value == container.value[k]
      ensures Valid() ==> !(r.Err? && r.error.TypeMismatch?)
    {
      match container
      case None => Err(ContainerNull)
      case Some(data) =>
        if k !in data then Err(NotFound(k))
        else if data[k].kind == k then Ok(data[k])
        else Err(TypeMismatch(k, data[k].kind))
    }
  }

  /** Source lines 55-63 and 73-77: after initialisation from `pages`, a
      page that no later page of its kind follows is the one found under
      its kind. */
  lemma LastPageFound(c: Config, pages: seq<Page>, i: nat)
    requires c.container == Some(ByKind(pages))
    requires i < |pages| && forall j :: i < j < |pages| ==> pages[j].kind != pages[i].kind
    ensures c.GetConfigPage(pages[i].kind) == Ok(pages[i])
  {
    ByKindWins(pages, i);
  }

  /** Source lines 55-58: after initialisation from `pages`, a kind that no
      page has is not found. */
  lemma UnproducedNotFound(c: Config, pages: seq<Page>, k: Kind)
    requires c.container == Some(ByKind(pages))
    requires forall i :: 0 <= i < |pages| ==> pages[i].kind != k
    ensures c.GetConfigPage(k) == Err(NotFound(k))
  {
    ByKindOnly(pages, k);
  }

  /** After initialisation from `pages`, every kind that some page has is
      found. */
  lemma ProducedFound(c: Config, pages: seq<Page>, i: nat)
    requires c.container == Some(ByKind(pages)) && i < |pages|
    ensures c.GetConfigPage(pages[i].kind).Ok?
  {
    ByKindIn(pages, i);
    ByKindKeyed(pages);
  }
}
