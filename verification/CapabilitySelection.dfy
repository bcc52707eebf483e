/** What a selection does to resolution: nothing is resolved but what is selected or needed, a
    selected capability that requires nothing resolves, and selecting everything is no selection. */
module CapabilitySelection {
  import opened Common
  import opened CapabilitySearch
  import opened CapabilityProperties

  predicate Needs(c: Catalog, y: Id, x: Id) {
    y in c && (x in c[y].required || x in c[y].optional)
  }

  /** From a root along required and optional edges. */
  predicate Path(c: Catalog, roots: set<Id>, p: seq<Id>) {
    p != [] && p[0] in roots && forall i :: 0 <= i < |p| - 1 ==> Needs(c, p[i], p[i + 1])
  }

  ghost predicate Reached(c: Catalog, roots: set<Id>, x: Id) {
    exists p :: Path(c, roots, p) && p[|p| - 1] == x
  }

  lemma RootIsReached(c: Catalog, roots: set<Id>, x: Id)
    requires x in roots
    ensures Reached(c, roots, x)
  {
    assert Path(c, roots, [x]);
  }

  lemma ReachedOn(c: Catalog, roots: set<Id>, y: Id, x: Id)
    requires Reached(c, roots, y) && Needs(c, y, x)
    ensures Reached(c, roots, x)
  {
    var p :| Path(c, roots, p) && p[|p| - 1] == y;
    assert Path(c, roots, p + [x]);
  }

  ghost predicate AllReached(c: Catalog, roots: set<Id>, s: Search) {
    forall x :: x in s.expanded ==> Reached(c, roots, x)
  }

  /** What requires nothing and was expanded is on the stack or resolved. */
  predicate LeavesResolve(c: Catalog, s: Search) {
    forall x :: x in s.expanded && x in c && c[x].required == [] ==> x in s.visiting || x in s.resolved
  }

  ghost predicate Kept(c: Catalog, roots: set<Id>, s: Search) {
    AllReached(c, roots, s) && LeavesResolve(c, s)
  }

  lemma KeptPushed(c: Catalog, roots: set<Id>, id: Id, s: Search)
    requires Kept(c, roots, s) && Reached(c, roots, id)
    ensures Kept(c, roots, Pushed(s, id))
  {
  }

  lemma {:induction false} VisitKeeps(c: Catalog, enabled: set<Id>, roots: set<Id>, id: Id, s: Search)
    requires Sane(c, enabled, s) && Kept(c, roots, s) && Reached(c, roots, id)
    ensures Kept(c, roots, Visit(c, enabled, id, s).0)
    decreases |Unstacked(c, s)|, 0, 0
  {
    if Expands(c, enabled, id, s) {
      StackShrinks(c, s, id);
      PushedSane(c, enabled, id, s);
      KeptPushed(c, roots, id, s);
      var p := Pushed(s, id);
      RequiredSane(c, enabled, id, c[id].required, p);
      RequiredKeeps(c, enabled, roots, id, c[id].required, p);
      var (s1, ok) := VisitRequired(c, enabled, id, c[id].required, p);
      if ok {
        OptionalSane(c, enabled, c[id].optional, s1);
        OptionalKeeps(c, enabled, roots, id, c[id].optional, s1);
        KeptSettled(c, roots, id, s.visiting, VisitOptional(c, enabled, c[id].optional, s1));
      } else {
        KeptRefused(c, roots, id, s.visiting, s1);
      }
    }
  }

  lemma KeptSettled(c: Catalog, roots: set<Id>, id: Id, stack: seq<Id>, s: Search)
    requires Kept(c, roots, s) && s.visiting == stack + [id]
    ensures Kept(c, roots, Popped(s.(resolved := s.resolved + {id}, finished := s.finished + [id])))
  {
    var s' := Popped(s.(resolved := s.resolved + {id}, finished := s.finished + [id]));
    assert s'.visiting == stack;
  }

  lemma KeptRefused(c: Catalog, roots: set<Id>, id: Id, stack: seq<Id>, s: Search)
    requires Kept(c, roots, s) && s.visiting == stack + [id] && id in c && c[id].required != []
    ensures Kept(c, roots, Popped(s))
  {
    var s' := Popped(s);
    assert s'.visiting == stack;
  }

  lemma {:induction false} RequiredKeeps(c: Catalog, enabled: set<Id>, roots: set<Id>, id: Id, deps: seq<Id>, s: Search)
    requires Sane(c, enabled, s) && Kept(c, roots, s) && id in s.visiting && id in c
    requires forall d :: d in deps ==> d in c[id].required
    ensures Kept(c, roots, VisitRequired(c, enabled, id, deps, s).0)
    ensures deps == [] ==> VisitRequired(c, enabled, id, deps, s).1
    decreases |Unstacked(c, s)|, 1, |deps|
  {
    if deps != [] {
      ReachedOn(c, roots, id, deps[0]);
      VisitKeeps(c, enabled, roots, deps[0], s);
      VisitSane(c, enabled, deps[0], s);
      var (s1, ok) := Visit(c, enabled, deps[0], s);
      if ok {
        RequiredKeeps(c, enabled, roots, id, deps[1..], s1);
      } else {
        KeptRecorded(c, roots, s1, id, DependencyUnavailable(deps[0]));
      }
    }
  }

  lemma KeptRecorded(c: Catalog, roots: set<Id>, s: Search, id: Id, reason: Reason)
    requires Kept(c, roots, s)
    ensures Kept(c, roots, Recorded(s, id, reason))
  {
  }

  lemma {:induction false} OptionalKeeps(c: Catalog, enabled: set<Id>, roots: set<Id>, id: Id, deps: seq<Id>, s: Search)
    requires Sane(c, enabled, s) && Kept(c, roots, s) && id in s.visiting
    requires id in c && forall d :: d in deps ==> d in c[id].optional
    ensures Kept(c, roots, VisitOptional(c, enabled, deps, s))
    decreases |Unstacked(c, s)|, 1, |deps|
  {
    if deps != [] {
      ReachedOn(c, roots, id, deps[0]);
      VisitKeeps(c, enabled, roots, deps[0], s);
      VisitSane(c, enabled, deps[0], s);
      OptionalKeeps(c, enabled, roots, id, deps[1..], Visit(c, enabled, deps[0], s).0);
    }
  }

  /** What is asked for is known, and if it is selected and usable it was not turned away as
      deselected. */
  predicate Asked(c: Catalog, enabled: set<Id>, selected: set<Id>, s: Search, x: Id) {
    Usable(c, enabled, x) && x in selected ==> x in s.expanded
  }

  lemma VisitExpands(c: Catalog, enabled: set<Id>, id: Id, s: Search)
    requires Sane(c, enabled, s) && Usable(c, enabled, id)
    requires id in s.unavailable ==> s.unavailable[id] != NotSelected
    ensures id in Visit(c, enabled, id, s).0.expanded
  {
    VisitSane(c, enabled, id, s);
    if Expands(c, enabled, id, s) {
      ExpandSane(c, enabled, id, s);
      PushedSane(c, enabled, id, s);
      RequiredSane(c, enabled, id, c[id].required, Pushed(s, id));
    }
  }

  ghost predicate NoneTurnedAway(selected: set<Id>, s: Search) {
    forall x :: x in s.unavailable && s.unavailable[x] == NotSelected ==> x !in selected
  }

  lemma DeselectedSane(c: Catalog, enabled: set<Id>, roots: set<Id>, id: Id, s: Search)
    requires Sane(c, enabled, s) && s.visiting == [] && Kept(c, roots, s) && id !in roots && NoneTurnedAway(roots, s)
    ensures var s' := Recorded(s, id, NotSelected);
            Sane(c, enabled, s') && Kept(c, roots, s') && NoneTurnedAway(roots, s')
  {
    KeptRecorded(c, roots, s, id, NotSelected);
  }

  lemma {:induction false} CandidatesKeep(c: Catalog, enabled: set<Id>, selected: set<Id>, ids: seq<Id>, s: Search)
    requires selected != {} && Sane(c, enabled, s) && s.visiting == [] && Kept(c, selected, s)
    requires NoneTurnedAway(selected, s)
    ensures var s' := VisitCandidates(c, enabled, selected, ids, s);
            && Sane(c, enabled, s') && s'.visiting == [] && Kept(c, selected, s') && s.expanded <= s'.expanded
            && forall x :: x in ids ==> Asked(c, enabled, selected, s', x)
    decreases |ids|
  {
    if ids != [] {
      var id := ids[0];
      if id in selected {
        var s1 := Visit(c, enabled, id, s).0;
        RootIsReached(c, selected, id);
        VisitKeeps(c, enabled, selected, id, s);
        VisitSane(c, enabled, id, s);
        if Usable(c, enabled, id) {
          VisitExpands(c, enabled, id, s);
        }
        CandidatesKeep(c, enabled, selected, ids[1..], s1);
      } else {
        DeselectedSane(c, enabled, selected, id, s);
        CandidatesKeep(c, enabled, selected, ids[1..], Recorded(s, id, NotSelected));
      }
    }
  }

  lemma StartIsKept(c: Catalog, enabled: set<Id>, roots: set<Id>)
    ensures Sane(c, enabled, START) && Kept(c, roots, START) && NoneTurnedAway(roots, START)
  {
  }

  /** With a selection: whatever resolves is reached from a selected id along required and optional
      edges; and whatever is selected, usable and requires nothing resolves. */
  lemma SelectionReaches(c: Catalog, enabled: set<Id>, selected: set<Id>, x: Id)
    requires selected != {}
    ensures var s := Searched(c, enabled, selected);
            && (x in s.resolved ==> exists p :: Path(c, selected, p) && p[|p| - 1] == x)
            && (x in selected && Usable(c, enabled, x) && c[x].required == [] ==> x in s.resolved)
  {
    StartIsKept(c, enabled, selected);
    CandidatesKeep(c, enabled, selected, KeyOrder(c.Keys), START);
    var s := Searched(c, enabled, selected);
    assert x in s.expanded ==> Reached(c, selected, x);
    if x in c {
      assert Asked(c, enabled, selected, s, x);
    }
  }

  lemma {:induction false} CandidatesAlike(c: Catalog, enabled: set<Id>, selected: set<Id>, ids: seq<Id>, s: Search)
    requires forall x :: x in ids ==> x in selected
    ensures VisitCandidates(c, enabled, selected, ids, s) == VisitCandidates(c, enabled, {}, ids, s)
    decreases |ids|
  {
    if ids != [] {
      CandidatesAlike(c, enabled, selected, ids[1..], Visit(c, enabled, ids[0], s).0);
    }
  }

  /** Selecting everything that is declared is selecting nothing in particular. */
  lemma SelectingAllIsNoSelection(c: Catalog, enabled: set<Id>, selected: set<Id>)
    requires c.Keys <= selected
    ensures Searched(c, enabled, selected) == Searched(c, enabled, {})
  {
    CandidatesAlike(c, enabled, selected, KeyOrder(c.Keys), START);
  }
}
