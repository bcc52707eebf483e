/** What resolution answers, said of the providers as they are given: when it succeeds, and with
    which capabilities and tools. */
module ResolveResults {
  import opened Common
  import opened CapabilitySearch
  import opened CapabilityProperties
  import opened CapabilityHints
  import opened CapabilityClosure
  import opened CapabilityResolve
  import opened CapabilityOrder

  // ---------------------------------------------------------------- what the providers list

  predicate NoneEmpty(ps: seq<Provider>) {
    forall p :: p in ps ==> p.capabilities != [] || p.tools != []
  }

  predicate ListsCapability(ps: seq<Provider>, d: Descriptor) {
    exists p :: p in ps && d in p.capabilities
  }

  predicate ListsTool(ps: seq<Provider>, t: Tool) {
    exists p :: p in ps && t in p.tools
  }

  predicate Declares(p: Provider, id: Id) {
    exists d :: d in p.capabilities && d.id == id
  }

  predicate Declared(ps: seq<Provider>, id: Id) {
    exists p :: p in ps && Declares(p, id)
  }

  /** Entry i of list p comes before entry j of list q. */
  predicate Before(p: nat, i: nat, q: nat, j: nat) {
    p < q || (p == q && i < j)
  }

  /** No two entries, of one provider or of two, declare one id. */
  ghost predicate DeclaredOnce(ps: seq<Provider>) {
    forall p: nat, i: nat, q: nat, j: nat ::
      p < |ps| && i < |ps[p].capabilities| && q < |ps| && j < |ps[q].capabilities| && Before(p, i, q, j) ==>
        ps[p].capabilities[i].id != ps[q].capabilities[j].id
  }

  ghost predicate ToolsAreDeclared(ps: seq<Provider>) {
    forall t :: ListsTool(ps, t) ==> Declared(ps, t.capability)
  }

  /** No two entries that list a tool of a resolved capability have one id. */
  ghost predicate ToolsListedOnce(ps: seq<Provider>, resolved: set<Id>) {
    forall p: nat, i: nat, q: nat, j: nat ::
      p < |ps| && i < |ps[p].tools| && q < |ps| && j < |ps[q].tools| && Before(p, i, q, j)
      && ps[p].tools[i].capability in resolved && ps[q].tools[j].capability in resolved ==>
        ps[p].tools[i].id != ps[q].tools[j].id
  }

  /** The catalog of the declared capabilities. */
  ghost predicate IsCatalog(c: Catalog, ps: seq<Provider>) {
    && (forall id :: id in c <==> Declared(ps, id))
    && (forall id :: id in c ==> c[id].id == id && ListsCapability(ps, c[id]))
  }

  // ---------------------------------------------------------------- lists of lists

  function Flat<T>(xss: seq<seq<T>>): seq<T> {
    if xss == [] then [] else xss[0] + Flat(xss[1..])
  }

  function Start<T>(xss: seq<seq<T>>, p: nat): nat
    requires p <= |xss|
  {
    if p == 0 then 0 else |xss[0]| + Start(xss[1..], p - 1)
  }

  lemma {:induction false} FlatAt<T>(xss: seq<seq<T>>, p: nat, i: nat)
    requires p < |xss| && i < |xss[p]|
    ensures Start(xss, p) + i < |Flat(xss)| && Flat(xss)[Start(xss, p) + i] == xss[p][i]
  {
    if p > 0 {
      FlatAt(xss[1..], p - 1, i);
    }
  }

  lemma {:induction false} StartGrows<T>(xss: seq<seq<T>>, p: nat, q: nat)
    requires p < q <= |xss|
    ensures Start(xss, p) + |xss[p]| <= Start(xss, q)
  {
    if p > 0 {
      StartGrows(xss[1..], p - 1, q - 1);
    }
  }

  lemma {:induction false} Located<T>(xss: seq<seq<T>>, n: nat) returns (p: nat, i: nat)
    requires n < |Flat(xss)|
    ensures p < |xss| && i < |xss[p]| && n == Start(xss, p) + i && Flat(xss)[n] == xss[p][i]
  {
    if n < |xss[0]| {
      p, i := 0, n;
    } else {
      p, i := Located(xss[1..], n - |xss[0]|);
      p := p + 1;
    }
  }

  lemma LaterIsLater<T>(xss: seq<seq<T>>, p: nat, i: nat, q: nat, j: nat)
    requires p < |xss| && i < |xss[p]| && q < |xss| && j < |xss[q]|
    ensures Before(p, i, q, j) <==> Start(xss, p) + i < Start(xss, q) + j
  {
    if p < q {
      StartGrows(xss, p, q);
    } else if q < p {
      StartGrows(xss, q, p);
    }
  }

  ghost predicate ApartInLists<T>(xss: seq<seq<T>>, apart: (T, T) -> bool) {
    forall p: nat, i: nat, q: nat, j: nat ::
      p < |xss| && i < |xss[p]| && q < |xss| && j < |xss[q]| && Before(p, i, q, j) ==> apart(xss[p][i], xss[q][j])
  }

  ghost predicate Apart<T>(xs: seq<T>, apart: (T, T) -> bool) {
    forall i, j :: 0 <= i < j < |xs| ==> apart(xs[i], xs[j])
  }

  lemma ApartFlat<T>(xss: seq<seq<T>>, apart: (T, T) -> bool)
    ensures Apart(Flat(xss), apart) <==> ApartInLists(xss, apart)
  {
    if Apart(Flat(xss), apart) {
      forall p: nat, i: nat, q: nat, j: nat
        | p < |xss| && i < |xss[p]| && q < |xss| && j < |xss[q]| && Before(p, i, q, j)
        ensures apart(xss[p][i], xss[q][j])
      {
        FlatAt(xss, p, i);
        FlatAt(xss, q, j);
        LaterIsLater(xss, p, i, q, j);
      }
    }
    if ApartInLists(xss, apart) {
      forall m, n | 0 <= m < n < |Flat(xss)| ensures apart(Flat(xss)[m], Flat(xss)[n]) {
        var p, i := Located(xss, m);
        var q, j := Located(xss, n);
        LaterIsLater(xss, p, i, q, j);
      }
    }
  }

  lemma InFlat<T>(xss: seq<seq<T>>, x: T)
    ensures x in Flat(xss) <==> exists p :: 0 <= p < |xss| && x in xss[p]
  {
    if x in Flat(xss) {
      var n :| 0 <= n < |Flat(xss)| && Flat(xss)[n] == x;
      var p, i := Located(xss, n);
      assert x in xss[p];
    }
    if p :| 0 <= p < |xss| && x in xss[p] {
      var i :| 0 <= i < |xss[p]| && xss[p][i] == x;
      FlatAt(xss, p, i);
    }
  }

  function CapabilityLists(ps: seq<Provider>): seq<seq<Descriptor>> {
    seq(|ps|, p requires 0 <= p < |ps| => ps[p].capabilities)
  }

  function ToolLists(ps: seq<Provider>): seq<seq<Tool>> {
    seq(|ps|, p requires 0 <= p < |ps| => ps[p].tools)
  }

  lemma {:induction false} ListsAreFlat(ps: seq<Provider>)
    ensures Descriptors(ps) == Flat(CapabilityLists(ps)) && Tools(ps) == Flat(ToolLists(ps))
  {
    if ps != [] {
      ListsAreFlat(ps[1..]);
      assert CapabilityLists(ps)[1..] == CapabilityLists(ps[1..]);
      assert ToolLists(ps)[1..] == ToolLists(ps[1..]);
    }
  }

  // ---------------------------------------------------------------- membership, in any order

  lemma ListedCapabilities(ps: seq<Provider>, d: Descriptor)
    ensures ListsCapability(ps, d) <==> d in Descriptors(ps)
  {
    ListsAreFlat(ps);
    InFlat(CapabilityLists(ps), d);
    if ListsCapability(ps, d) {
      var p :| p in ps && d in p.capabilities;
      var i :| 0 <= i < |ps| && ps[i] == p;
      assert d in CapabilityLists(ps)[i];
    }
  }

  lemma ListedTools(ps: seq<Provider>, t: Tool)
    ensures ListsTool(ps, t) <==> t in Tools(ps)
  {
    ListsAreFlat(ps);
    InFlat(ToolLists(ps), t);
    if ListsTool(ps, t) {
      var p :| p in ps && t in p.tools;
      var i :| 0 <= i < |ps| && ps[i] == p;
      assert t in ToolLists(ps)[i];
    }
  }

  lemma DeclaredMeans(ps: seq<Provider>, id: Id)
    ensures Declared(ps, id) <==> exists d :: d in Descriptors(ps) && d.id == id
  {
    if Declared(ps, id) {
      var p :| p in ps && Declares(p, id);
      var d :| d in p.capabilities && d.id == id;
      assert ListsCapability(ps, d);
      ListedCapabilities(ps, d);
    }
    if d :| d in Descriptors(ps) && d.id == id {
      ListedCapabilities(ps, d);
      var p :| p in ps && d in p.capabilities;
      assert Declares(p, id);
    }
  }

  predicate OtherId(d: Descriptor, e: Descriptor) {
    d.id != e.id
  }

  lemma OnceMeansDistinct(ps: seq<Provider>)
    ensures DeclaredOnce(ps) <==> DistinctIds(DescriptorIds(Descriptors(ps)))
  {
    ListsAreFlat(ps);
    ApartFlat(CapabilityLists(ps), OtherId);
    ApartIsOnce(ps);
    ApartIsDistinct(Descriptors(ps));
  }

  lemma ApartIsOnce(ps: seq<Provider>)
    ensures DeclaredOnce(ps) <==> ApartInLists(CapabilityLists(ps), OtherId)
  {
    var xss := CapabilityLists(ps);
    if DeclaredOnce(ps) {
      forall p: nat, i: nat, q: nat, j: nat
        | p < |xss| && i < |xss[p]| && q < |xss| && j < |xss[q]| && Before(p, i, q, j)
        ensures OtherId(xss[p][i], xss[q][j])
      {
        assert ps[p].capabilities[i].id != ps[q].capabilities[j].id;
      }
    }
    if ApartInLists(xss, OtherId) {
      forall p: nat, i: nat, q: nat, j: nat
        | p < |ps| && i < |ps[p].capabilities| && q < |ps| && j < |ps[q].capabilities| && Before(p, i, q, j)
        ensures ps[p].capabilities[i].id != ps[q].capabilities[j].id
      {
        assert OtherId(xss[p][i], xss[q][j]);
      }
    }
  }

  lemma ApartIsDistinct(ds: seq<Descriptor>)
    ensures Apart(ds, OtherId) <==> DistinctIds(DescriptorIds(ds))
  {
    var ids := DescriptorIds(ds);
    if Apart(ds, OtherId) {
      forall i, j | 0 <= i < j < |ids| ensures ids[i] != ids[j] {
        assert OtherId(ds[i], ds[j]);
      }
    }
    if DistinctIds(ids) {
      forall i, j | 0 <= i < j < |ds| ensures OtherId(ds[i], ds[j]) {
        assert ids[i] != ids[j];
      }
    }
  }

  lemma ToolsOnceMeans(ps: seq<Provider>, resolved: set<Id>)
    ensures ToolsListedOnce(ps, resolved) <==> DistinctIds(ActiveIds(Tools(ps), resolved))
  {
    var apart := (t: Tool, u: Tool) => !Clash(t, u, resolved);
    var xss, ts := ToolLists(ps), Tools(ps);
    ListsAreFlat(ps);
    ApartFlat(xss, apart);
    ActiveDistinct(ts, resolved);
    if ToolsListedOnce(ps, resolved) {
      forall p: nat, i: nat, q: nat, j: nat
        | p < |xss| && i < |xss[p]| && q < |xss| && j < |xss[q]| && Before(p, i, q, j)
        ensures apart(xss[p][i], xss[q][j])
      {
        assert xss[p][i] == ps[p].tools[i] && xss[q][j] == ps[q].tools[j];
      }
      forall i, j | 0 <= i < j < |ts| ensures !Clash(ts[i], ts[j], resolved) {
        assert apart(ts[i], ts[j]);
      }
    }
    if forall i, j :: 0 <= i < j < |ts| ==> !Clash(ts[i], ts[j], resolved) {
      assert Apart(ts, apart);
      forall p: nat, i: nat, q: nat, j: nat
        | p < |ps| && i < |ps[p].tools| && q < |ps| && j < |ps[q].tools| && Before(p, i, q, j)
        ensures !Clash(ps[p].tools[i], ps[q].tools[j], resolved)
      {
        assert apart(xss[p][i], xss[q][j]);
      }
    }
  }

  lemma EmptyMeans(ps: seq<Provider>)
    ensures HasEmptyProvider(ps) <==> !NoneEmpty(ps)
  {
    if p :| p in ps && p.capabilities == [] && p.tools == [] {
      var i :| 0 <= i < |ps| && ps[i] == p;
      assert ContributesNothing(ps[i]);
    }
  }

  // ---------------------------------------------------------------- success

  /** What sorting leaves alone. */
  lemma SortedAlike(ps: seq<Provider>)
    ensures multiset(Descriptors(Sorted(ps))) == multiset(Descriptors(ps))
    ensures multiset(Tools(Sorted(ps))) == multiset(Tools(ps))
    ensures HasEmptyProvider(Sorted(ps)) == HasEmptyProvider(ps)
  {
    SortedGather(ps);
    GatherIs(ps);
    GatherIs(Sorted(ps));
  }

  lemma SameMembers<T>(a: seq<T>, b: seq<T>, x: T)
    requires multiset(a) == multiset(b)
    ensures x in a <==> x in b
  {
    assert x in a <==> x in multiset(a);
    assert x in b <==> x in multiset(b);
  }

  lemma UncontestedCapabilities(ps: seq<Provider>)
    ensures Contested(CapabilityClaims(Sorted(ps))) == {} <==> DeclaredOnce(ps)
  {
    SortedAlike(ps);
    UncontestedMeansDistinct(CapabilityClaims(Sorted(ps)));
    ClaimIdsAreDescriptorIds(Sorted(ps));
    OnceMeansDistinct(ps);
    if DistinctIds(DescriptorIds(Descriptors(ps))) {
      DistinctByMultiset(Descriptors(ps), Descriptors(Sorted(ps)));
    }
    if DistinctIds(DescriptorIds(Descriptors(Sorted(ps)))) {
      DistinctByMultiset(Descriptors(Sorted(ps)), Descriptors(ps));
    }
  }

  lemma UncontestedTools(ps: seq<Provider>, resolved: set<Id>)
    ensures Contested(ToolClaims(Sorted(ps), resolved)) == {} <==> ToolsListedOnce(ps, resolved)
    ensures forall x :: x in ClaimedIds(ToolClaims(Sorted(ps), resolved)) <==> x in ActiveIds(Tools(ps), resolved)
  {
    var a, b := Tools(ps), Tools(Sorted(ps));
    SortedAlike(ps);
    UncontestedMeansDistinct(ToolClaims(Sorted(ps), resolved));
    ClaimIdsAreActiveIds(Sorted(ps), resolved);
    ToolsOnceMeans(ps, resolved);
    SameActive(a, b, resolved);
    SameActive(b, a, resolved);
    SelectedTools(Sorted(ps), resolved);
  }

  /** The catalog that is searched holds the declared capabilities. */
  lemma CatalogIs(ps: seq<Provider>, c: Catalog)
    requires DeclaredOnce(ps) && IsCatalog(c, ps)
    ensures CatalogOf(Descriptors(Sorted(ps))) == c
  {
    var ds := Descriptors(ps);
    SortedAlike(ps);
    OnceMeansDistinct(ps);
    SameCatalog(ds, Descriptors(Sorted(ps)));
    CatalogMembers(ds);
    var built := CatalogOf(ds);
    forall id ensures id in built <==> id in c {
      DeclaredMeans(ps, id);
    }
    forall id | id in c ensures built[id] == c[id] {
      ListedCapabilities(ps, c[id]);
      assert c[id] in ds;
    }
  }

  lemma StrayMeans(ps: seq<Provider>, c: Catalog)
    requires IsCatalog(c, ps)
    ensures HasStrayTool(Tools(Sorted(ps)), c) <==> !ToolsAreDeclared(ps)
  {
    var ts := Tools(Sorted(ps));
    SortedAlike(ps);
    if i :| 0 <= i < |ts| && ts[i].capability !in c {
      SameMembers(ts, Tools(ps), ts[i]);
      ListedTools(ps, ts[i]);
    }
    if t :| ListsTool(ps, t) && !Declared(ps, t.capability) {
      ListedTools(ps, t);
      SameMembers(ts, Tools(ps), t);
      var i :| 0 <= i < |ts| && ts[i] == t;
      assert ts[i].capability !in c;
    }
  }

  /** Which errors come first. */
  lemma Cascade(ps: seq<Provider>, enabled: set<Id>, selected: set<Id>, c: Catalog)
    requires IsCatalog(c, ps)
    ensures var r, resolved := Resolution(ps, enabled, selected), Searched(c, enabled, selected).resolved;
            if !NoneEmpty(ps) then r.Err? && r.error.InvalidProvider?
            else if !DeclaredOnce(ps) then r.Err? && r.error.DuplicateCapability?
            else if !ToolsAreDeclared(ps) then r.Err? && r.error.ToolCapabilityMissing?
            else if !ToolsListedOnce(ps, resolved) then r.Err? && r.error.DuplicateTool?
            else r == Ok(Snapshot(resolved, ClaimedIds(ToolClaims(Sorted(ps), resolved))))
  {
    SortedAlike(ps);
    EmptyMeans(ps);
    UncontestedCapabilities(ps);
    if DeclaredOnce(ps) {
      CatalogIs(ps, c);
      StrayMeans(ps, c);
      UncontestedTools(ps, Searched(c, enabled, selected).resolved);
    }
  }

  /** Resolution, said of the providers: it succeeds if and only if none is empty, no id is
      declared twice, every listed tool's capability is declared, and no two listed tools of
      resolved capabilities have one id.  It then answers the capabilities that the search of
      the declared ones resolves, and the ids of exactly the listed tools of those. */
  lemma ResolutionExactly(ps: seq<Provider>, enabled: set<Id>, selected: set<Id>, c: Catalog)
    requires IsCatalog(c, ps)
    ensures var r, resolved := Resolution(ps, enabled, selected), Searched(c, enabled, selected).resolved;
            && (r.Ok? <==> NoneEmpty(ps) && DeclaredOnce(ps) && ToolsAreDeclared(ps) && ToolsListedOnce(ps, resolved))
            && (r.Ok? ==> r.value.capabilities == resolved)
            && (r.Ok? ==> forall x :: x in r.value.tools <==>
                  exists t :: ListsTool(ps, t) && t.capability in resolved && t.id == x)
  {
    var resolved := Searched(c, enabled, selected).resolved;
    Cascade(ps, enabled, selected, c);
    UncontestedTools(ps, resolved);
    ActiveMembers(Tools(ps), resolved);
    forall t ensures t in Tools(ps) <==> ListsTool(ps, t) {
      ListedTools(ps, t);
    }
  }

  lemma {:induction false} CatalogPicks(ds: seq<Descriptor>, id: Id)
    ensures id in CatalogOf(ds) ==> CatalogOf(ds)[id] in ds && CatalogOf(ds)[id].id == id
    ensures id in CatalogOf(ds) <==> exists d :: d in ds && d.id == id
  {
    if ds != [] {
      var init, last := ds[..|ds| - 1], ds[|ds| - 1];
      CatalogPicks(init, id);
      CatalogPicks(init, last.id);
      assert ds == init + [last];
      if id in CatalogOf(init) {
        var d :| d in init && d.id == id;
        assert d in ds;
      }
    }
  }

  lemma CatalogListed(ps: seq<Provider>, id: Id)
    ensures id in CatalogOf(Descriptors(ps)) <==> Declared(ps, id)
    ensures id in CatalogOf(Descriptors(ps)) ==>
              var d := CatalogOf(Descriptors(ps))[id]; d.id == id && ListsCapability(ps, d)
  {
    CatalogPicks(Descriptors(ps), id);
    DeclaredMeans(ps, id);
    if id in CatalogOf(Descriptors(ps)) {
      ListedCapabilities(ps, CatalogOf(Descriptors(ps))[id]);
    }
  }

  /** Every list of providers has a catalog of what it declares. */
  lemma CatalogExists(ps: seq<Provider>)
    ensures exists c :: IsCatalog(c, ps)
  {
    var c := CatalogOf(Descriptors(ps));
    forall id: Id
      ensures id in c <==> Declared(ps, id)
      ensures id in c ==> c[id].id == id && ListsCapability(ps, c[id])
    {
      CatalogListed(ps, id);
    }
    assert IsCatalog(c, ps);
  }

  // ---------------------------------------------------------------- the answer is complete and closed

  /** The answer has exactly the enabled capabilities, and all that they require. */
  ghost predicate AnswersAll(c: Catalog, enabled: set<Id>, answer: set<Id>) {
    && (forall id :: id in answer <==> id in c && (enabled == {} || id in enabled))
    && (forall id, d :: id in answer && d in c[id].required ==> d in answer)
  }

  lemma AnswersAllMeans(c: Catalog, enabled: set<Id>, s: Search)
    ensures AnswersAll(c, enabled, s.resolved) <==> Complete(c, enabled, s)
  {
  }

  lemma AnswerIsSearched(ps: seq<Provider>, enabled: set<Id>, c: Catalog)
    requires IsCatalog(c, ps) && Resolution(ps, enabled, {}).Ok?
    ensures Resolution(ps, enabled, {}).value.capabilities == Searched(c, enabled, {}).resolved
  {
    ResolutionExactly(ps, enabled, {}, c);
  }

  /** When the answer is complete: the exact condition of the search, of what is answered. */
  lemma AnswerCompleteExactlyWhenHinted(ps: seq<Provider>, enabled: set<Id>, c: Catalog)
    requires IsCatalog(c, ps) && Resolution(ps, enabled, {}).Ok?
    ensures AnswersAll(c, enabled, Resolution(ps, enabled, {}).value.capabilities)
       <==> RequiredUsable(c, enabled) && Hinted(WholeWalk(c, enabled).backs)
  {
    AnswerIsSearched(ps, enabled, c);
    AnswersAllMeans(c, enabled, Searched(c, enabled, {}));
    CompleteExactlyWhenHinted(c, enabled);
  }

  /** In particular for acyclic catalogs. */
  lemma AcyclicAnswerIsComplete(ps: seq<Provider>, enabled: set<Id>, c: Catalog, rank: map<Id, nat>)
    requires IsCatalog(c, ps) && Resolution(ps, enabled, {}).Ok?
    requires RequiredUsable(c, enabled) && Ranked(c, enabled, rank)
    ensures AnswersAll(c, enabled, Resolution(ps, enabled, {}).value.capabilities)
  {
    AnswerIsSearched(ps, enabled, c);
    AnswersAllMeans(c, enabled, Searched(c, enabled, {}));
    AcyclicIsComplete(c, enabled, rank);
  }

  /** When the answer is closed, without optional edges. */
  lemma AnswerClosedExactlyWhenChased(ps: seq<Provider>, enabled: set<Id>, c: Catalog, sat: set<Id>,
                                      rank: map<Id, nat>)
    requires IsCatalog(c, ps) && Resolution(ps, enabled, {}).Ok?
    requires NoOptional(c) && Grounded(c, enabled, sat, rank)
    ensures var answer := Resolution(ps, enabled, {}).value.capabilities;
            && (AllChased(c, enabled, sat, {}, KeyOrder(c.Keys))
                <==> forall id, d :: id in answer && id in c && d in c[id].required ==> d in answer)
            && (AllChased(c, enabled, sat, {}, KeyOrder(c.Keys)) <==> answer == sat)
  {
    AnswerIsSearched(ps, enabled, c);
    ClosedExactlyWhenChased(c, enabled, sat, rank);
  }
}
