/** What the errors of resolution name, said of the providers as they are given. */
module ResolveErrors {
  import opened Common
  import opened CapabilitySearch
  import opened CapabilityResolve
  import opened CapabilityOrder
  import opened ResolveResults

  /** Ids that a provider contributes, in order. */
  type Listing = Provider -> seq<Id>

  function DeclaredIds(p: Provider): seq<Id> {
    seq(|p.capabilities|, i requires 0 <= i < |p.capabilities| => p.capabilities[i].id)
  }

  /** The ids of the tools of resolved capabilities. */
  function ToolIds(resolved: set<Id>): Listing {
    (p: Provider) => ActiveIds(p.tools, resolved)
  }

  /** How often the providers contribute `id`. */
  function Times(ps: seq<Provider>, ids: Listing, id: Id): nat {
    if ps == [] then 0 else multiset(ids(ps[0]))[id] + Times(ps[1..], ids, id)
  }

  ghost predicate InIdOrder(ps: seq<Provider>) {
    forall i, j :: 0 <= i <= j < |ps| ==> ps[i].id <= ps[j].id
  }

  /** The least id contributed twice, with its contributors in order, each as often as it does. */
  ghost predicate NamesDuplicate(ps: seq<Provider>, ids: Listing, id: Id, owners: seq<Id>) {
    && |owners| == Times(ps, ids, id) > 1 && (forall k: Id :: k < id ==> Times(ps, ids, k) <= 1)
    && (forall i, j :: 0 <= i < j < |owners| ==> owners[i] <= owners[j])
    && (forall o :: o in owners <==> exists p :: p in ps && p.id == o && id in ids(p))
  }

  /** A tool whose capability nobody declares: the first of its provider, and no provider of a
      smaller id lists one. */
  ghost predicate NamesStray(ps: seq<Provider>, t: Tool) {
    exists p, i :: p in ps && 0 <= i < |p.tools| && p.tools[i] == t && !Declared(ps, t.capability)
                   && (forall j :: 0 <= j < i ==> Declared(ps, p.tools[j].capability))
                   && (forall q, u :: q in ps && q.id < p.id && u in q.tools ==> Declared(ps, u.capability))
  }

  // ---------------------------------------------------------------- the order of providers

  lemma {:induction false} PlacedMembers(p: Provider, ps: seq<Provider>)
    requires InIdOrder(ps)
    ensures InIdOrder(Placed(p, ps)) && forall q :: q in Placed(p, ps) <==> q == p || q in ps
  {
    if ps != [] && p.id > ps[0].id {
      PlacedMembers(p, ps[1..]);
      assert forall q :: q in ps <==> q == ps[0] || q in ps[1..];
      var rest := Placed(p, ps[1..]);
      forall i | 0 <= i < |rest| ensures ps[0].id <= rest[i].id {
        assert rest[i] in rest;
      }
    }
  }

  lemma {:induction false} SortedMembers(ps: seq<Provider>)
    ensures InIdOrder(Sorted(ps)) && forall p :: p in Sorted(ps) <==> p in ps
  {
    if ps != [] {
      SortedMembers(ps[1..]);
      PlacedMembers(ps[0], Sorted(ps[1..]));
      assert forall p :: p in ps <==> p == ps[0] || p in ps[1..];
    }
  }

  lemma {:induction false} TimesPlaced(p: Provider, ps: seq<Provider>, ids: Listing, id: Id)
    ensures Times(Placed(p, ps), ids, id) == multiset(ids(p))[id] + Times(ps, ids, id)
  {
    if ps == [] || p.id <= ps[0].id {
      assert ([p] + ps)[1..] == ps;
    } else {
      TimesPlaced(p, ps[1..], ids, id);
      assert ([ps[0]] + Placed(p, ps[1..]))[1..] == Placed(p, ps[1..]);
    }
  }

  lemma {:induction false} TimesSorted(ps: seq<Provider>, ids: Listing, id: Id)
    ensures Times(Sorted(ps), ids, id) == Times(ps, ids, id)
  {
    if ps != [] {
      TimesSorted(ps[1..], ids, id);
      TimesPlaced(ps[0], Sorted(ps[1..]), ids, id);
    }
  }

  // ---------------------------------------------------------------- owners

  function Claims(provider: Id, ids: seq<Id>): seq<Claim> {
    seq(|ids|, i requires 0 <= i < |ids| => Claim(provider, ids[i]))
  }

  function ClaimsBy(ps: seq<Provider>, ids: Listing): seq<Claim> {
    if ps == [] then [] else Claims(ps[0].id, ids(ps[0])) + ClaimsBy(ps[1..], ids)
  }

  lemma {:induction false} OwnersConcat(a: seq<Claim>, b: seq<Claim>, id: Id)
    ensures Owners(a + b, id) == Owners(a, id) + Owners(b, id)
    decreases |b|
  {
    if b == [] {
      assert a + b == a;
    } else {
      var n := |b| - 1;
      OwnersConcat(a, b[..n], id);
      assert (a + b)[..|a + b| - 1] == a + b[..n];
    }
  }

  lemma {:induction false} OwnersOfOne(provider: Id, ids: seq<Id>, id: Id)
    ensures |Owners(Claims(provider, ids), id)| == multiset(ids)[id]
    ensures forall o :: o in Owners(Claims(provider, ids), id) <==> o == provider && id in ids
  {
    if ids != [] {
      var n := |ids| - 1;
      OwnersOfOne(provider, ids[..n], id);
      assert Claims(provider, ids)[..n] == Claims(provider, ids[..n]);
      assert ids == ids[..n] + [ids[n]];
    }
  }

  lemma {:induction false} OwnersBy(ps: seq<Provider>, ids: Listing, id: Id)
    requires InIdOrder(ps)
    ensures var owners := Owners(ClaimsBy(ps, ids), id);
            && |owners| == Times(ps, ids, id)
            && (forall i, j :: 0 <= i < j < |owners| ==> owners[i] <= owners[j])
            && (forall o :: o in owners <==> exists p :: p in ps && p.id == o && id in ids(p))
  {
    if ps != [] {
      var first, rest := Claims(ps[0].id, ids(ps[0])), ClaimsBy(ps[1..], ids);
      OwnersBy(ps[1..], ids, id);
      OwnersOfOne(ps[0].id, ids(ps[0]), id);
      OwnersConcat(first, rest, id);
      var a, b := Owners(first, id), Owners(rest, id);
      forall i | 0 <= i < |a| ensures a[i] == ps[0].id {
        assert a[i] in a;
      }
      forall j | 0 <= j < |b| ensures ps[0].id <= b[j] {
        assert b[j] in b;
        var p :| p in ps[1..] && p.id == b[j];
      }
      OwnersOfMore(ps, ids, id, a, b);
    }
  }

  lemma OwnersOfMore(ps: seq<Provider>, ids: Listing, id: Id, a: seq<Id>, b: seq<Id>)
    requires ps != [] && forall o :: o in a <==> o == ps[0].id && id in ids(ps[0])
    requires forall o :: o in b <==> exists p :: p in ps[1..] && p.id == o && id in ids(p)
    ensures forall o :: o in a + b <==> exists p :: p in ps && p.id == o && id in ids(p)
  {
    assert forall p :: p in ps <==> p == ps[0] || p in ps[1..];
  }

  lemma {:induction false} CapabilityClaimsBy(ps: seq<Provider>)
    ensures CapabilityClaims(ps) == ClaimsBy(ps, DeclaredIds)
  {
    if ps != [] {
      CapabilityClaimsBy(ps[1..]);
      var first := ps[0].capabilities;
      assert seq(|first|, i requires 0 <= i < |first| => Claim(ps[0].id, first[i].id))
          == Claims(ps[0].id, DeclaredIds(ps[0]));
    }
  }

  lemma {:induction false} ClaimsOfTools(provider: Id, tools: seq<Tool>, resolved: set<Id>)
    ensures ClaimsOf(provider, tools, resolved) == Claims(provider, ActiveIds(tools, resolved))
  {
    if tools != [] {
      ClaimsOfTools(provider, tools[1..], resolved);
    }
  }

  lemma {:induction false} ToolClaimsBy(ps: seq<Provider>, resolved: set<Id>)
    ensures ToolClaims(ps, resolved) == ClaimsBy(ps, ToolIds(resolved))
  {
    if ps != [] {
      ToolClaimsBy(ps[1..], resolved);
      ClaimsOfTools(ps[0].id, ps[0].tools, resolved);
    }
  }

  lemma DuplicateIsNamed(ps: seq<Provider>, ids: Listing)
    requires Contested(ClaimsBy(Sorted(ps), ids)) != {}
    ensures var claims := ClaimsBy(Sorted(ps), ids);
            NamesDuplicate(ps, ids, Least(Contested(claims)), Owners(claims, Least(Contested(claims))))
  {
    var claims := ClaimsBy(Sorted(ps), ids);
    var id := Least(Contested(claims));
    SortedMembers(ps);
    forall k: Id ensures |Owners(claims, k)| == Times(ps, ids, k) {
      OwnersBy(Sorted(ps), ids, k);
      TimesSorted(ps, ids, k);
    }
    forall k: Id ensures k in Contested(claims) <==> Times(ps, ids, k) > 1 {
      ContestedMeans(claims, k);
    }
    OwnersBy(Sorted(ps), ids, id);
  }

  // ---------------------------------------------------------------- the other two

  lemma {:induction false} FirstEmptyIsLeast(ps: seq<Provider>)
    requires HasEmptyProvider(ps) && InIdOrder(ps)
    ensures exists p :: p in ps && ContributesNothing(p) && p.id == FirstEmptyProvider(ps)
    ensures forall p :: p in ps && ContributesNothing(p) ==> FirstEmptyProvider(ps) <= p.id
  {
    if ContributesNothing(ps[0]) {
      assert ps[0] in ps;
    } else {
      var i :| 0 <= i < |ps| && ContributesNothing(ps[i]);
      assert ps[1..][i - 1] == ps[i];
      FirstEmptyIsLeast(ps[1..]);
      assert forall p :: p in ps <==> p == ps[0] || p in ps[1..];
    }
  }

  /** The first stray tool of a list, by its place. */
  lemma {:induction false} FirstStrayAt(tools: seq<Tool>, c: Catalog) returns (i: nat)
    requires HasStrayTool(tools, c)
    ensures i < |tools| && tools[i] == FirstStrayTool(tools, c) && tools[i].capability !in c
    ensures forall j :: 0 <= j < i ==> tools[j].capability in c
  {
    i := 0;
    if tools[0].capability in c {
      var k :| 0 <= k < |tools| && tools[k].capability !in c;
      assert tools[1..][k - 1] == tools[k];
      i := FirstStrayAt(tools[1..], c);
      i := i + 1;
    }
  }

  /** And of the providers in order, by provider and place. */
  lemma {:induction false} FirstStrayOf(ps: seq<Provider>, c: Catalog) returns (p: Provider, i: nat)
    requires HasStrayTool(Tools(ps), c) && InIdOrder(ps)
    ensures p in ps && i < |p.tools| && p.tools[i] == FirstStrayTool(Tools(ps), c) && p.tools[i].capability !in c
    ensures forall j :: 0 <= j < i ==> p.tools[j].capability in c
    ensures forall q, u :: q in ps && q.id < p.id && u in q.tools ==> u.capability in c
  {
    var at := FirstStrayAt(Tools(ps), c);
    var first, rest := ps[0].tools, Tools(ps[1..]);
    if at < |first| {
      p, i := ps[0], at;
      forall j | 0 <= j < i ensures p.tools[j].capability in c {
        assert Tools(ps)[j] == p.tools[j];
      }
    } else {
      assert forall j :: 0 <= j < |first| ==> Tools(ps)[j] == first[j];
      assert rest[at - |first|] == Tools(ps)[at];
      StraySkips(first, rest, c);
      p, i := FirstStrayOf(ps[1..], c);
      assert forall q :: q in ps <==> q == ps[0] || q in ps[1..];
    }
  }

  lemma {:induction false} StraySkips(first: seq<Tool>, rest: seq<Tool>, c: Catalog)
    requires (forall j :: 0 <= j < |first| ==> first[j].capability in c) && HasStrayTool(rest, c)
    ensures HasStrayTool(first + rest, c) && FirstStrayTool(first + rest, c) == FirstStrayTool(rest, c)
  {
    if first == [] {
      assert first + rest == rest;
    } else {
      StraySkips(first[1..], rest, c);
      var k :| 0 <= k < |rest| && rest[k].capability !in c;
      assert (first + rest)[|first| + k] == rest[k];
      assert (first + rest)[1..] == first[1..] + rest;
    }
  }

  lemma StrayIsNamed(ps: seq<Provider>, c: Catalog)
    requires IsCatalog(c, ps) && HasStrayTool(Tools(Sorted(ps)), c)
    ensures NamesStray(ps, FirstStrayTool(Tools(Sorted(ps)), c))
  {
    SortedMembers(ps);
    var p, i := FirstStrayOf(Sorted(ps), c);
    assert p in ps && p.tools[i] == FirstStrayTool(Tools(Sorted(ps)), c) && !Declared(ps, p.tools[i].capability);
  }

  /** The errors name their cause: the least empty provider; the least id declared twice, or listed
      twice for resolved capabilities, with its providers in order; the first listed tool of a
      capability that nobody declares. */
  lemma ErrorsNameTheirCause(ps: seq<Provider>, enabled: set<Id>, selected: set<Id>, c: Catalog)
    requires Resolution(ps, enabled, selected).Err? && IsCatalog(c, ps)
    ensures match Resolution(ps, enabled, selected).error
            case InvalidProvider(id) =>
              && (exists p :: p in ps && p.capabilities == [] && p.tools == [] && p.id == id)
              && (forall p :: p in ps && p.capabilities == [] && p.tools == [] ==> id <= p.id)
            case DuplicateCapability(id, owners) => NamesDuplicate(ps, DeclaredIds, id, owners)
            case ToolCapabilityMissing(t) => NamesStray(ps, t)
            case DuplicateTool(id, owners) =>
              NamesDuplicate(ps, ToolIds(Searched(c, enabled, selected).resolved), id, owners)
  {
    var sp := Sorted(ps);
    SortedMembers(ps);
    Cascade(ps, enabled, selected, c);
    match Resolution(ps, enabled, selected).error
    case InvalidProvider(_) => FirstEmptyIsLeast(sp);
    case DuplicateCapability(_, _) =>
      CapabilityClaimsBy(sp);
      DuplicateIsNamed(ps, DeclaredIds);
    case ToolCapabilityMissing(_) =>
      CatalogIs(ps, c);
      StrayIsNamed(ps, c);
    case DuplicateTool(_, _) =>
      CatalogIs(ps, c);
      ToolClaimsBy(sp, Searched(c, enabled, selected).resolved);
      DuplicateIsNamed(ps, ToolIds(Searched(c, enabled, selected).resolved));
  }
}
