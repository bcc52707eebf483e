/** `resolve`: providers are gathered into a catalog, the catalog searched, and the tools of
    resolved capabilities selected. */
module CapabilityResolve {
  import opened Common
  import opened CapabilitySearch

  datatype Tool = Tool(id: Id, capability: Id)
  datatype Provider = Provider(id: Id, capabilities: seq<Descriptor>, tools: seq<Tool>)
  datatype Snapshot = Snapshot(capabilities: set<Id>, tools: set<Id>)

  datatype ResolutionError =
    | InvalidProvider(provider: Id)
    | DuplicateCapability(capability: Id, providers: seq<Id>)
    | DuplicateTool(tool: Id, providers: seq<Id>)
    | ToolCapabilityMissing(missing: Tool)

  /** One provider's claim to an id. */
  datatype Claim = Claim(provider: Id, id: Id)

  // ------------------------------------------------------------ specification

  /** The stable sort by provider id. */
  function Sorted(ps: seq<Provider>): seq<Provider> {
    if ps == [] then [] else Placed(ps[0], Sorted(ps[1..]))
  }

  function Placed(p: Provider, ps: seq<Provider>): seq<Provider> {
    if ps == [] || p.id <= ps[0].id then [p] + ps else [ps[0]] + Placed(p, ps[1..])
  }

  predicate ContributesNothing(p: Provider) {
    p.capabilities == [] && p.tools == []
  }

  function Descriptors(ps: seq<Provider>): seq<Descriptor> {
    if ps == [] then [] else ps[0].capabilities + Descriptors(ps[1..])
  }

  function Tools(ps: seq<Provider>): seq<Tool> {
    if ps == [] then [] else ps[0].tools + Tools(ps[1..])
  }

  function CapabilityClaims(ps: seq<Provider>): seq<Claim> {
    if ps == [] then []
    else
      var first := ps[0].capabilities;
      seq(|first|, i requires 0 <= i < |first| => Claim(ps[0].id, first[i].id)) + CapabilityClaims(ps[1..])
  }

  function ToolClaims(ps: seq<Provider>, resolved: set<Id>): seq<Claim> {
    if ps == [] then [] else ClaimsOf(ps[0].id, ps[0].tools, resolved) + ToolClaims(ps[1..], resolved)
  }

  function ClaimsOf(provider: Id, tools: seq<Tool>, resolved: set<Id>): seq<Claim> {
    if tools == [] then []
    else
      (if tools[0].capability in resolved then [Claim(provider, tools[0].id)] else [])
      + ClaimsOf(provider, tools[1..], resolved)
  }

  function ClaimedIds(claims: seq<Claim>): set<Id> {
    set c | c in claims :: c.id
  }

  /** Who claims `id`, in order. */
  function Owners(claims: seq<Claim>, id: Id): seq<Id> {
    if claims == [] then []
    else
      var n := |claims| - 1;
      Owners(claims[..n], id) + if claims[n].id == id then [claims[n].provider] else []
  }

  function Contested(claims: seq<Claim>): set<Id> {
    set c | c in claims && |Owners(claims, c.id)| > 1 :: c.id
  }

  function Least(ids: set<Id>): (k: Id)
    requires ids != {}
    ensures IsLeast(k, ids)
  {
    LeastExists(ids);
    var k :| IsLeast(k, ids);
    k
  }

  /** The first descriptor of an id wins. */
  function CatalogOf(ds: seq<Descriptor>): Catalog {
    if ds == [] then map[]
    else
      var c, d := CatalogOf(ds[..|ds| - 1]), ds[|ds| - 1];
      if d.id in c then c else c[d.id := d]
  }

  predicate HasEmptyProvider(ps: seq<Provider>) {
    exists i :: 0 <= i < |ps| && ContributesNothing(ps[i])
  }

  function FirstEmptyProvider(ps: seq<Provider>): Id
    requires HasEmptyProvider(ps)
  {
    if ContributesNothing(ps[0]) then ps[0].id else FirstEmptyProvider(ps[1..])
  }

  predicate HasStrayTool(tools: seq<Tool>, c: Catalog) {
    exists i :: 0 <= i < |tools| && tools[i].capability !in c
  }

  function FirstStrayTool(tools: seq<Tool>, c: Catalog): Tool
    requires HasStrayTool(tools, c)
  {
    if tools[0].capability !in c then tools[0] else FirstStrayTool(tools[1..], c)
  }

  function Resolution(providers: seq<Provider>, enabled: set<Id>, selected: set<Id>)
    : Result<Snapshot, ResolutionError>
  {
    var ps := Sorted(providers);
    if HasEmptyProvider(ps) then Err(InvalidProvider(FirstEmptyProvider(ps)))
    else
      var claims := CapabilityClaims(ps);
      if Contested(claims) != {} then
        Err(DuplicateCapability(Least(Contested(claims)), Owners(claims, Least(Contested(claims)))))
      else
        var c := CatalogOf(Descriptors(ps));
        var resolved := Searched(c, enabled, selected).resolved;
        if HasStrayTool(Tools(ps), c) then Err(ToolCapabilityMissing(FirstStrayTool(Tools(ps), c)))
        else
          var tools := ToolClaims(ps, resolved);
          if Contested(tools) != {} then
            Err(DuplicateTool(Least(Contested(tools)), Owners(tools, Least(Contested(tools)))))
          else Ok(Snapshot(resolved, ClaimedIds(tools)))
  }

  // ------------------------------------------------------------ the algorithm

  lemma {:induction false} OwnersStep(claims: seq<Claim>, n: nat, id: Id)
    requires n < |claims|
    ensures Owners(claims[..n + 1], id)
            == Owners(claims[..n], id) + if claims[n].id == id then [claims[n].provider] else []
  {
    assert claims[..n + 1][..n] == claims[..n];
  }

  lemma {:induction false} OwnerHasClaim(claims: seq<Claim>, id: Id)
    ensures Owners(claims, id) != [] <==> exists c :: c in claims && c.id == id
  {
    if claims != [] {
      OwnerHasClaim(claims[..|claims| - 1], id);
      assert claims == claims[..|claims| - 1] + [claims[|claims| - 1]];
    }
  }

  /** The `entry(..).or_default().push(..)` loop. */
  method GroupClaims(claims: seq<Claim>) returns (owners: map<Id, seq<Id>>)
    ensures forall id :: id in owners <==> Owners(claims, id) != []
    ensures forall id :: id in owners ==> owners[id] == Owners(claims, id)
  {
    owners := map[];
    for n := 0 to |claims|
      invariant forall id :: (if id in owners then owners[id] else []) == Owners(claims[..n], id)
      invariant forall id :: id in owners ==> owners[id] != []
    {
      forall id
        ensures Owners(claims[..n + 1], id)
                == Owners(claims[..n], id) + if claims[n].id == id then [claims[n].provider] else []
      {
        OwnersStep(claims, n, id);
      }
      var id := claims[n].id;
      owners := owners[id := (if id in owners then owners[id] else []) + [claims[n].provider]];
    }
    assert claims[..|claims|] == claims;
  }

  lemma {:induction false} ContestedMeans(claims: seq<Claim>, id: Id)
    ensures id in Contested(claims) <==> |Owners(claims, id)| > 1
  {
    OwnerHasClaim(claims, id);
  }

  lemma {:induction false} FirstIsLeast(ids: seq<Id>, n: nat, among: set<Id>)
    requires Ascending(ids) && n < |ids| && ids[n] in among
    requires forall k :: k in among ==> k in ids
    requires forall i :: 0 <= i < n ==> ids[i] !in among
    ensures Least(among) == ids[n]
  {
    forall k | k in among ensures ids[n] <= k {
      assert k in ids;
      var i :| 0 <= i < |ids| && ids[i] == k;
    }
  }

  /** The check that no id has two owners; the least contested id is the one reported. */
  method FindContested(claims: seq<Claim>) returns (contested: Option<(Id, seq<Id>)>)
    ensures contested == if Contested(claims) == {} then None
                         else Some((Least(Contested(claims)), Owners(claims, Least(Contested(claims)))))
  {
    var owners := GroupClaims(claims);
    var ids := KeyOrder(owners.Keys);
    ghost var among := Contested(claims);
    forall k | k in among ensures k in ids {
      ContestedMeans(claims, k);
    }
    for n := 0 to |ids|
      invariant forall i :: 0 <= i < n ==> ids[i] !in among
    {
      assert ids[n] in ids;
      ContestedMeans(claims, ids[n]);
      if |owners[ids[n]]| > 1 {
        FirstIsLeast(ids, n, among);
        return Some((ids[n], owners[ids[n]]));
      }
    }
    assert forall k :: k in among ==> k in ids;
    assert among == {};
    contested := None;
  }

  method BuildCatalog(ds: seq<Descriptor>) returns (c: Catalog)
    ensures c == CatalogOf(ds)
  {
    c := map[];
    for n := 0 to |ds|
      invariant c == CatalogOf(ds[..n])
    {
      assert ds[..n + 1][..n] == ds[..n];
      if ds[n].id !in c {
        c := c[ds[n].id := ds[n]];
      }
    }
    assert ds[..|ds|] == ds;
  }

  method FindEmptyProvider(ps: seq<Provider>) returns (found: Option<Id>)
    ensures found == if HasEmptyProvider(ps) then Some(FirstEmptyProvider(ps)) else None
  {
    for n := 0 to |ps|
      invariant forall i :: 0 <= i < n ==> !ContributesNothing(ps[i])
    {
      if ContributesNothing(ps[n]) {
        FirstEmptyIs(ps, n);
        return Some(ps[n].id);
      }
    }
    found := None;
  }

  lemma {:induction false} FirstEmptyIs(ps: seq<Provider>, n: nat)
    requires n < |ps| && ContributesNothing(ps[n]) && forall i :: 0 <= i < n ==> !ContributesNothing(ps[i])
    ensures HasEmptyProvider(ps) && FirstEmptyProvider(ps) == ps[n].id
  {
    if n > 0 {
      assert ps[1..][n - 1] == ps[n];
      FirstEmptyIs(ps[1..], n - 1);
    }
  }

  method FindStrayTool(tools: seq<Tool>, c: Catalog) returns (found: Option<Tool>)
    ensures found == if HasStrayTool(tools, c) then Some(FirstStrayTool(tools, c)) else None
  {
    for n := 0 to |tools|
      invariant forall i :: 0 <= i < n ==> tools[i].capability in c
    {
      if tools[n].capability !in c {
        FirstStrayIs(tools, n, c);
        return Some(tools[n]);
      }
    }
    found := None;
  }

  lemma {:induction false} FirstStrayIs(tools: seq<Tool>, n: nat, c: Catalog)
    requires n < |tools| && tools[n].capability !in c && forall i :: 0 <= i < n ==> tools[i].capability in c
    ensures HasStrayTool(tools, c) && FirstStrayTool(tools, c) == tools[n]
  {
    if n > 0 {
      assert tools[1..][n - 1] == tools[n];
      FirstStrayIs(tools[1..], n - 1, c);
    }
  }

  method Resolve(providers: seq<Provider>, enabled: set<Id>, selected: set<Id>)
    returns (r: Result<Snapshot, ResolutionError>)
    ensures r == Resolution(providers, enabled, selected)
  {
    var ps := Sorted(providers);
    var empty := FindEmptyProvider(ps);
    if empty.Some? {
      return Err(InvalidProvider(empty.value));
    }
    var contested := FindContested(CapabilityClaims(ps));
    if contested.Some? {
      return Err(DuplicateCapability(contested.value.0, contested.value.1));
    }
    var c := BuildCatalog(Descriptors(ps));
    var resolver := new Resolver(c, enabled);
    resolver.VisitAll(selected);
    var stray := FindStrayTool(Tools(ps), c);
    if stray.Some? {
      return Err(ToolCapabilityMissing(stray.value));
    }
    var tools := ToolClaims(ps, resolver.resolved);
    contested := FindContested(tools);
    if contested.Some? {
      return Err(DuplicateTool(contested.value.0, contested.value.1));
    }
    r := Ok(Snapshot(resolver.resolved, ClaimedIds(tools)));
  }
}
