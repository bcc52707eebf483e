/** Whether resolution succeeds, and with what, does not depend on the order of providers or
    of what each of them contributes. */
module CapabilityOrder {
  import opened Common
  import opened CapabilitySearch
  import opened CapabilityResolve

  /** The same provider, contributing the same things in any order. */
  predicate SameProvider(p: Provider, q: Provider) {
    p.id == q.id && multiset(p.capabilities) == multiset(q.capabilities) && multiset(p.tools) == multiset(q.tools)
  }

  function Without(ps: seq<Provider>, i: nat): seq<Provider>
    requires i < |ps|
  {
    ps[..i] + ps[i + 1..]
  }

  /** `qs` is `ps` permuted, each provider's own lists permuted too. */
  ghost predicate Reordered(ps: seq<Provider>, qs: seq<Provider>)
    decreases |ps|
  {
    if ps == [] then qs == []
    else exists i :: 0 <= i < |qs| && SameProvider(ps[0], qs[i]) && Reordered(ps[1..], Without(qs, i))
  }

  /** What of the gathered lists does not depend on order. */
  datatype Gathered = Gathered(descriptors: multiset<Descriptor>, tools: multiset<Tool>, empty: bool)

  function Gather(ps: seq<Provider>): Gathered {
    if ps == [] then Gathered(multiset{}, multiset{}, false) else Plus(ps[0], Gather(ps[1..]))
  }

  function Plus(p: Provider, g: Gathered): Gathered {
    Gathered(multiset(p.capabilities) + g.descriptors, multiset(p.tools) + g.tools, ContributesNothing(p) || g.empty)
  }

  lemma {:induction false} GatherIs(ps: seq<Provider>)
    ensures Gather(ps) == Gathered(multiset(Descriptors(ps)), multiset(Tools(ps)), HasEmptyProvider(ps))
  {
    if ps != [] {
      var rest := ps[1..];
      GatherIs(rest);
      if i :| 0 <= i < |ps| && ContributesNothing(ps[i]) {
        assert i > 0 ==> rest[i - 1] == ps[i];
      }
      if i :| 0 <= i < |rest| && ContributesNothing(rest[i]) {
        assert ps[i + 1] == rest[i];
      }
    }
  }

  lemma PlusCommutes(p: Provider, q: Provider, g: Gathered)
    ensures Plus(p, Plus(q, g)) == Plus(q, Plus(p, g))
  {
  }

  lemma {:induction false} WithoutTail(ps: seq<Provider>, i: nat)
    requires 0 < i < |ps|
    ensures var w := Without(ps, i);
            w != [] && w[0] == ps[0] && w[1..] == Without(ps[1..], i - 1) && ps[1..][i - 1] == ps[i]
  {
  }

  lemma {:induction false} GatherWithout(ps: seq<Provider>, i: nat)
    requires i < |ps|
    ensures Gather(ps) == Plus(ps[i], Gather(Without(ps, i)))
    decreases i
  {
    if i == 0 {
      assert Without(ps, 0) == ps[1..];
    } else {
      var tail := ps[1..];
      GatherWithout(tail, i - 1);
      WithoutTail(ps, i);
      PlusCommutes(ps[0], ps[i], Gather(Without(tail, i - 1)));
    }
  }

  lemma {:induction false} SamePlus(p: Provider, q: Provider, g: Gathered)
    requires SameProvider(p, q)
    ensures Plus(p, g) == Plus(q, g)
  {
    assert |multiset(p.capabilities)| == |p.capabilities| && |multiset(q.capabilities)| == |q.capabilities|;
    assert |multiset(p.tools)| == |p.tools| && |multiset(q.tools)| == |q.tools|;
  }

  lemma {:induction false} ReorderedGather(ps: seq<Provider>, qs: seq<Provider>)
    requires Reordered(ps, qs)
    ensures Gather(ps) == Gather(qs)
    decreases |ps|
  {
    if ps != [] {
      var i :| 0 <= i < |qs| && SameProvider(ps[0], qs[i]) && Reordered(ps[1..], Without(qs, i));
      ReorderedGather(ps[1..], Without(qs, i));
      GatherWithout(qs, i);
      SamePlus(ps[0], qs[i], Gather(ps[1..]));
    }
  }

  lemma {:induction false} SortedGather(ps: seq<Provider>)
    ensures Gather(Sorted(ps)) == Gather(ps)
  {
    if ps != [] {
      SortedGather(ps[1..]);
      PlacedGather(ps[0], Sorted(ps[1..]));
    }
  }

  lemma {:induction false} PlacedGather(p: Provider, ps: seq<Provider>)
    ensures Gather(Placed(p, ps)) == Plus(p, Gather(ps))
  {
    var placed := Placed(p, ps);
    if ps == [] || p.id <= ps[0].id {
      assert placed[1..] == ps;
    } else {
      PlacedGather(p, ps[1..]);
      assert placed[1..] == Placed(p, ps[1..]);
      PlusCommutes(p, ps[0], Gather(ps[1..]));
    }
  }

  // ------------------------------------------------------- order-free conditions

  /** No two list positions hold the same id. */
  predicate DistinctIds(ids: seq<Id>) {
    forall i, j :: 0 <= i < j < |ids| ==> ids[i] != ids[j]
  }

  function DescriptorIds(ds: seq<Descriptor>): seq<Id> {
    seq(|ds|, i requires 0 <= i < |ds| => ds[i].id)
  }

  function ClaimIds(claims: seq<Claim>): seq<Id> {
    seq(|claims|, i requires 0 <= i < |claims| => claims[i].id)
  }

  /** The ids of the tools whose capability resolved. */
  function ActiveIds(tools: seq<Tool>, resolved: set<Id>): seq<Id> {
    if tools == [] then []
    else (if tools[0].capability in resolved then [tools[0].id] else []) + ActiveIds(tools[1..], resolved)
  }

  predicate ClaimedTwice(claims: seq<Claim>, id: Id) {
    exists i, j :: 0 <= i < j < |claims| && claims[i].id == id && claims[j].id == id
  }

  lemma {:induction false} ClaimedTwiceLast(claims: seq<Claim>, id: Id)
    requires claims != []
    ensures var n := |claims| - 1;
            ClaimedTwice(claims, id) <==>
              ClaimedTwice(claims[..n], id) || (claims[n].id == id && exists c :: c in claims[..n] && c.id == id)
  {
    var n := |claims| - 1;
    var init := claims[..n];
    if i, j :| 0 <= i < j < n && init[i].id == id && init[j].id == id {
      assert claims[i].id == id && claims[j].id == id;
    }
    if c :| c in init && c.id == id {
      var i :| 0 <= i < n && init[i] == c;
      assert claims[i].id == id;
    }
    if i, j :| 0 <= i < j < |claims| && claims[i].id == id && claims[j].id == id {
      assert init[i] in init && init[i].id == id;
      assert j < n ==> init[j].id == id;
    }
  }

  lemma {:induction false} OwnersOfTwo(claims: seq<Claim>, id: Id)
    ensures |Owners(claims, id)| > 1 <==> ClaimedTwice(claims, id)
  {
    if claims != [] {
      OwnersOfTwo(claims[..|claims| - 1], id);
      OwnerHasClaim(claims[..|claims| - 1], id);
      ClaimedTwiceLast(claims, id);
    }
  }

  lemma {:induction false} UncontestedMeansDistinct(claims: seq<Claim>)
    ensures Contested(claims) == {} <==> DistinctIds(ClaimIds(claims))
  {
    forall id ensures id in Contested(claims) <==> ClaimedTwice(claims, id) {
      OwnersOfTwo(claims, id);
      ContestedMeans(claims, id);
    }
    if id :| id in Contested(claims) {
      var i, j :| 0 <= i < j < |claims| && claims[i].id == id && claims[j].id == id;
      assert ClaimIds(claims)[i] == ClaimIds(claims)[j];
    }
    if !DistinctIds(ClaimIds(claims)) {
      var i, j :| 0 <= i < j < |claims| && ClaimIds(claims)[i] == ClaimIds(claims)[j];
      assert claims[i].id == claims[j].id;
      assert claims[i].id in Contested(claims);
    }
  }

  lemma {:induction false} TwoPositions<T>(s: seq<T>, x: T)
    requires multiset(s)[x] >= 2
    ensures exists i, j :: 0 <= i < j < |s| && s[i] == x && s[j] == x
  {
    var n := |s| - 1;
    assert s == s[..n] + [s[n]];
    if s[n] == x {
      assert x in multiset(s[..n]);
      var i :| 0 <= i < n && s[..n][i] == x;
      assert s[i] == x;
    } else {
      TwoPositions(s[..n], x);
      var i, j :| 0 <= i < j < n && s[..n][i] == x && s[..n][j] == x;
      assert s[i] == x && s[j] == x;
    }
  }

  lemma {:induction false} TwiceInMultiset<T>(s: seq<T>, i: nat, j: nat)
    requires i < j < |s| && s[i] == s[j]
    ensures multiset(s)[s[i]] >= 2
  {
    assert s == s[..j] + [s[j]] + s[j + 1..];
    assert s[i] in s[..j];
  }

  /** A pairwise condition on the items of a list does not depend on its order. */
  lemma {:induction false} PairsByMultiset<T>(a: seq<T>, b: seq<T>, apart: (T, T) -> bool)
    requires multiset(a) == multiset(b)
    requires forall x, y {:trigger apart(x, y)} :: x in a && y in a && apart(x, y) ==> apart(y, x)
    requires forall i, j :: 0 <= i < j < |a| ==> apart(a[i], a[j])
    ensures forall i, j :: 0 <= i < j < |b| ==> apart(b[i], b[j])
  {
    forall i, j | 0 <= i < j < |b| ensures apart(b[i], b[j]) {
      assert b[i] in multiset(a) && b[j] in multiset(a);
      if b[i] == b[j] {
        TwiceInMultiset(b, i, j);
        TwoPositions(a, b[i]);
      } else {
        var p :| 0 <= p < |a| && a[p] == b[i];
        var q :| 0 <= q < |a| && a[q] == b[j];
        if q < p { assert apart(a[q], a[p]); }
      }
    }
  }

  lemma {:induction false} ClaimIdsAreDescriptorIds(ps: seq<Provider>)
    ensures ClaimIds(CapabilityClaims(ps)) == DescriptorIds(Descriptors(ps))
  {
    if ps != [] {
      ClaimIdsAreDescriptorIds(ps[1..]);
      var c, d := CapabilityClaims(ps), Descriptors(ps);
      var n := |ps[0].capabilities|;
      forall i | 0 <= i < |d| ensures |c| == |d| && c[i].id == d[i].id {
        assert |ClaimIds(CapabilityClaims(ps[1..]))| == |DescriptorIds(Descriptors(ps[1..]))|;
        if i >= n {
          assert ClaimIds(CapabilityClaims(ps[1..]))[i - n] == DescriptorIds(Descriptors(ps[1..]))[i - n];
        }
      }
      assert |ClaimIds(CapabilityClaims(ps[1..]))| == |DescriptorIds(Descriptors(ps[1..]))|;
    }
  }

  lemma {:induction false} ActiveConcat(a: seq<Tool>, b: seq<Tool>, resolved: set<Id>)
    ensures ActiveIds(a + b, resolved) == ActiveIds(a, resolved) + ActiveIds(b, resolved)
  {
    if a == [] {
      assert a + b == b;
    } else {
      ActiveConcat(a[1..], b, resolved);
      assert (a + b)[0] == a[0] && (a + b)[1..] == a[1..] + b;
      var head := if a[0].capability in resolved then [a[0].id] else [];
      var x, y := ActiveIds(a[1..], resolved), ActiveIds(b, resolved);
      assert head + (x + y) == (head + x) + y;
    }
  }

  lemma {:induction false} ClaimIdsConcat(a: seq<Claim>, b: seq<Claim>)
    ensures ClaimIds(a + b) == ClaimIds(a) + ClaimIds(b)
  {
  }

  lemma {:induction false} ProviderClaimIds(provider: Id, tools: seq<Tool>, resolved: set<Id>)
    ensures ClaimIds(ClaimsOf(provider, tools, resolved)) == ActiveIds(tools, resolved)
  {
    if tools != [] {
      ProviderClaimIds(provider, tools[1..], resolved);
      ClaimIdsConcat(if tools[0].capability in resolved then [Claim(provider, tools[0].id)] else [],
                     ClaimsOf(provider, tools[1..], resolved));
    }
  }

  lemma {:induction false} ClaimIdsAreActiveIds(ps: seq<Provider>, resolved: set<Id>)
    ensures ClaimIds(ToolClaims(ps, resolved)) == ActiveIds(Tools(ps), resolved)
  {
    if ps != [] {
      ClaimIdsAreActiveIds(ps[1..], resolved);
      ProviderClaimIds(ps[0].id, ps[0].tools, resolved);
      ClaimIdsConcat(ClaimsOf(ps[0].id, ps[0].tools, resolved), ToolClaims(ps[1..], resolved));
      ActiveConcat(ps[0].tools, Tools(ps[1..]), resolved);
    }
  }

  predicate Clash(t: Tool, u: Tool, resolved: set<Id>) {
    t.capability in resolved && u.capability in resolved && t.id == u.id
  }

  lemma {:induction false} ActiveMembers(tools: seq<Tool>, resolved: set<Id>)
    ensures forall x :: x in ActiveIds(tools, resolved) <==>
                          exists t :: t in tools && t.capability in resolved && t.id == x
  {
    if tools != [] {
      ActiveMembers(tools[1..], resolved);
      assert forall t :: t in tools <==> t == tools[0] || t in tools[1..];
    }
  }

  lemma {:induction false} ActiveDistinct(tools: seq<Tool>, resolved: set<Id>)
    ensures DistinctIds(ActiveIds(tools, resolved)) <==>
              forall i, j :: 0 <= i < j < |tools| ==> !Clash(tools[i], tools[j], resolved)
  {
    if tools != [] {
      var t, rest := tools[0], tools[1..];
      ActiveDistinct(rest, resolved);
      ActiveMembers(rest, resolved);
      ClashCons(tools, resolved);
      if t.capability in resolved {
        DistinctCons(t.id, ActiveIds(rest, resolved));
        ClashWithFirst(t, rest, resolved);
      } else {
        assert ActiveIds(tools, resolved) == ActiveIds(rest, resolved);
      }
    }
  }

  lemma {:induction false} ClashWithFirst(t: Tool, rest: seq<Tool>, resolved: set<Id>)
    requires t.capability in resolved
    ensures (forall j :: 0 <= j < |rest| ==> !Clash(t, rest[j], resolved)) <==> t.id !in ActiveIds(rest, resolved)
  {
    ActiveMembers(rest, resolved);
    if j :| 0 <= j < |rest| && Clash(t, rest[j], resolved) {
      assert rest[j] in rest;
    }
    if u :| u in rest && u.capability in resolved && u.id == t.id {
      var j :| 0 <= j < |rest| && rest[j] == u;
      assert Clash(t, rest[j], resolved);
    }
  }

  lemma {:induction false} DistinctCons(x: Id, ids: seq<Id>)
    ensures DistinctIds([x] + ids) <==> DistinctIds(ids) && x !in ids
  {
    var all := [x] + ids;
    assert forall i :: 0 <= i < |ids| ==> all[i + 1] == ids[i];
    if DistinctIds(all) {
      forall i, j | 0 <= i < j < |ids| ensures ids[i] != ids[j] {
        assert all[i + 1] != all[j + 1];
      }
      forall i | 0 <= i < |ids| ensures ids[i] != x {
        assert all[0] != all[i + 1];
      }
    }
  }

  lemma {:induction false} ClashCons(tools: seq<Tool>, resolved: set<Id>)
    requires tools != []
    ensures (forall i, j :: 0 <= i < j < |tools| ==> !Clash(tools[i], tools[j], resolved))
            <==> ((forall i, j :: 0 <= i < j < |tools[1..]| ==> !Clash(tools[1..][i], tools[1..][j], resolved))
                  && (forall j :: 0 <= j < |tools[1..]| ==> !Clash(tools[0], tools[1..][j], resolved)))
  {
    var rest := tools[1..];
    assert forall i :: 0 <= i < |rest| ==> rest[i] == tools[i + 1];
    if forall i, j :: 0 <= i < j < |tools| ==> !Clash(tools[i], tools[j], resolved) {
      forall i, j | 0 <= i < j < |rest| ensures !Clash(rest[i], rest[j], resolved) {
        assert !Clash(tools[i + 1], tools[j + 1], resolved);
      }
      forall j | 0 <= j < |rest| ensures !Clash(tools[0], rest[j], resolved) {
        assert !Clash(tools[0], tools[j + 1], resolved);
      }
    } else {
      var i, j :| 0 <= i < j < |tools| && Clash(tools[i], tools[j], resolved);
      assert Clash(if i == 0 then tools[0] else rest[i - 1], rest[j - 1], resolved);
    }
  }

  lemma DistinctInit(ds: seq<Descriptor>)
    requires ds != [] && DistinctIds(DescriptorIds(ds))
    ensures var init, last := ds[..|ds| - 1], ds[|ds| - 1];
            DistinctIds(DescriptorIds(init)) && forall d :: d in init ==> d.id != last.id
  {
    var n := |ds| - 1;
    var init, ids := ds[..n], DescriptorIds(ds);
    assert forall i :: 0 <= i < n ==> DescriptorIds(init)[i] == ids[i];
    forall d | d in init ensures d.id != ds[n].id {
      var i :| 0 <= i < n && init[i] == d;
      assert ids[i] != ids[n];
    }
  }

  predicate CatalogHolds(c: Catalog, ds: seq<Descriptor>) {
    && (forall d :: d in ds ==> d.id in c && c[d.id] == d)
    && forall id :: id in c ==> c[id] in ds && c[id].id == id
  }

  lemma CatalogGrows(c: Catalog, init: seq<Descriptor>, last: Descriptor)
    requires CatalogHolds(c, init) && forall d :: d in init ==> d.id != last.id
    ensures last.id !in c && CatalogHolds(c[last.id := last], init + [last])
  {
  }

  lemma {:induction false} CatalogMembers(ds: seq<Descriptor>)
    requires DistinctIds(DescriptorIds(ds))
    ensures CatalogHolds(CatalogOf(ds), ds)
  {
    if ds != [] {
      var init, last := ds[..|ds| - 1], ds[|ds| - 1];
      DistinctInit(ds);
      CatalogMembers(init);
      CatalogGrows(CatalogOf(init), init, last);
      assert ds == init + [last];
    }
  }

  lemma {:induction false} DistinctByMultiset(a: seq<Descriptor>, b: seq<Descriptor>)
    requires multiset(a) == multiset(b) && DistinctIds(DescriptorIds(a))
    ensures DistinctIds(DescriptorIds(b))
  {
    var apart := (x: Descriptor, y: Descriptor) => x.id != y.id;
    forall i, j | 0 <= i < j < |a| ensures apart(a[i], a[j]) {
      assert DescriptorIds(a)[i] != DescriptorIds(a)[j];
    }
    PairsByMultiset(a, b, apart);
    forall i, j | 0 <= i < j < |b| ensures DescriptorIds(b)[i] != DescriptorIds(b)[j] {
      assert apart(b[i], b[j]);
    }
  }

  lemma {:induction false} CatalogWithin(a: seq<Descriptor>, b: seq<Descriptor>)
    requires multiset(a) == multiset(b) && DistinctIds(DescriptorIds(a)) && DistinctIds(DescriptorIds(b))
    ensures forall id :: id in CatalogOf(a) ==> id in CatalogOf(b) && CatalogOf(b)[id] == CatalogOf(a)[id]
  {
    CatalogMembers(a);
    CatalogMembers(b);
    forall id | id in CatalogOf(a) ensures id in CatalogOf(b) && CatalogOf(b)[id] == CatalogOf(a)[id] {
      assert CatalogOf(a)[id] in multiset(b);
    }
  }

  lemma {:induction false} SameCatalog(a: seq<Descriptor>, b: seq<Descriptor>)
    requires multiset(a) == multiset(b) && DistinctIds(DescriptorIds(a))
    ensures DistinctIds(DescriptorIds(b)) && CatalogOf(a) == CatalogOf(b)
  {
    DistinctByMultiset(a, b);
    CatalogWithin(a, b);
    CatalogWithin(b, a);
  }

  lemma {:induction false} SameActive(a: seq<Tool>, b: seq<Tool>, resolved: set<Id>)
    requires multiset(a) == multiset(b)
    ensures DistinctIds(ActiveIds(a, resolved)) ==> DistinctIds(ActiveIds(b, resolved))
    ensures forall x :: x in ActiveIds(a, resolved) ==> x in ActiveIds(b, resolved)
  {
    ActiveDistinct(a, resolved);
    ActiveDistinct(b, resolved);
    if DistinctIds(ActiveIds(a, resolved)) {
      PairsByMultiset(a, b, (t, u) => !Clash(t, u, resolved));
    }
    ActiveMembers(a, resolved);
    ActiveMembers(b, resolved);
    forall x | x in ActiveIds(a, resolved) ensures x in ActiveIds(b, resolved) {
      var t :| t in a && t.capability in resolved && t.id == x;
      assert t in multiset(b);
    }
  }

  lemma {:induction false} SelectedTools(ps: seq<Provider>, resolved: set<Id>)
    ensures forall x :: x in ClaimedIds(ToolClaims(ps, resolved)) <==> x in ActiveIds(Tools(ps), resolved)
  {
    var claims := ToolClaims(ps, resolved);
    ClaimIdsAreActiveIds(ps, resolved);
    forall x | x in ActiveIds(Tools(ps), resolved) ensures x in ClaimedIds(claims) {
      var i :| 0 <= i < |ClaimIds(claims)| && ClaimIds(claims)[i] == x;
      assert claims[i] in claims;
    }
    forall t | t in claims ensures t.id in ActiveIds(Tools(ps), resolved) {
      var i :| 0 <= i < |claims| && claims[i] == t;
      assert ClaimIds(claims)[i] == t.id;
    }
  }

  // --------------------------------------------------------------- the theorem

  lemma {:induction false} CapabilitiesAlike(ps: seq<Provider>, qs: seq<Provider>)
    requires Gather(ps) == Gather(qs) && Contested(CapabilityClaims(ps)) == {}
    ensures HasEmptyProvider(ps) == HasEmptyProvider(qs) && Contested(CapabilityClaims(qs)) == {}
    ensures CatalogOf(Descriptors(ps)) == CatalogOf(Descriptors(qs))
  {
    GatherIs(ps);
    GatherIs(qs);
    UncontestedMeansDistinct(CapabilityClaims(ps));
    UncontestedMeansDistinct(CapabilityClaims(qs));
    ClaimIdsAreDescriptorIds(ps);
    ClaimIdsAreDescriptorIds(qs);
    SameCatalog(Descriptors(ps), Descriptors(qs));
  }

  lemma {:induction false} ToolsAlike(ps: seq<Provider>, qs: seq<Provider>, resolved: set<Id>, c: Catalog)
    requires Gather(ps) == Gather(qs) && Contested(ToolClaims(ps, resolved)) == {} && !HasStrayTool(Tools(ps), c)
    ensures Contested(ToolClaims(qs, resolved)) == {} && !HasStrayTool(Tools(qs), c)
    ensures ClaimedIds(ToolClaims(ps, resolved)) == ClaimedIds(ToolClaims(qs, resolved))
  {
    GatherIs(ps);
    GatherIs(qs);
    forall i | 0 <= i < |Tools(qs)| ensures Tools(qs)[i].capability in c {
      assert Tools(qs)[i] in multiset(Tools(ps));
      var j :| 0 <= j < |Tools(ps)| && Tools(ps)[j] == Tools(qs)[i];
    }
    UncontestedMeansDistinct(ToolClaims(ps, resolved));
    UncontestedMeansDistinct(ToolClaims(qs, resolved));
    ClaimIdsAreActiveIds(ps, resolved);
    ClaimIdsAreActiveIds(qs, resolved);
    SameActive(Tools(ps), Tools(qs), resolved);
    SameActive(Tools(qs), Tools(ps), resolved);
    SelectedTools(ps, resolved);
    SelectedTools(qs, resolved);
  }

  lemma {:induction false} ResolvesAlike(providers: seq<Provider>, providers': seq<Provider>, enabled: set<Id>,
                                         selected: set<Id>)
    requires Gather(providers) == Gather(providers')
    requires Resolution(providers, enabled, selected).Ok?
    ensures Resolution(providers', enabled, selected) == Resolution(providers, enabled, selected)
  {
    var ps, qs := Sorted(providers), Sorted(providers');
    SortedGather(providers);
    SortedGather(providers');
    CapabilitiesAlike(ps, qs);
    var c := CatalogOf(Descriptors(ps));
    ToolsAlike(ps, qs, Searched(c, enabled, selected).resolved, c);
  }

  /** Reordering providers, or what each contributes, changes neither whether resolution
      succeeds nor the capability set and tool set it succeeds with. */
  lemma OrderDoesNotMatter(ps: seq<Provider>, qs: seq<Provider>, enabled: set<Id>, selected: set<Id>)
    requires Reordered(ps, qs)
    ensures var r, r' := Resolution(ps, enabled, selected), Resolution(qs, enabled, selected);
            (r.Ok? <==> r'.Ok?) && (r.Ok? ==> r == r')
  {
    ReorderedGather(ps, qs);
    if Resolution(ps, enabled, selected).Ok? {
      ResolvesAlike(ps, qs, enabled, selected);
    }
    if Resolution(qs, enabled, selected).Ok? {
      ResolvesAlike(qs, ps, enabled, selected);
    }
  }
}
