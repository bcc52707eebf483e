/** What the capability search guarantees, on which inputs. */
module CapabilityProperties {
  import opened Common
  import opened CapabilitySearch

  // -------------------------------------------------- every input, every state

  predicate Unrepeated(ids: seq<Id>) {
    forall i, j :: 0 <= i < j < |ids| ==> ids[i] != ids[j]
  }

  predicate Known(s: Search, id: Id) {
    id in s.resolved || id in s.unavailable
  }

  predicate KnownNotDisabled(s: Search, id: Id) {
    id in s.resolved || (id in s.unavailable && s.unavailable[id] != Disabled)
  }

  /** The stack holds distinct usable ids; each id was pushed at most once, and is on the
      stack or settled since; a resolved id's required ids are each resolved or recorded. */
  ghost predicate Sane(c: Catalog, enabled: set<Id>, s: Search) {
    && Unrepeated(s.visiting) && Unrepeated(s.expanded)
    && (forall x :: x in s.visiting ==> x in s.expanded && x !in s.resolved)
    && (forall x :: x in s.expanded ==> Usable(c, enabled, x) && (x in s.visiting || Known(s, x)))
    && (forall x :: x in s.resolved ==> x in s.expanded)
    && (forall x :: x in s.finished <==> x in s.resolved)
    && (forall x :: x in s.resolved ==> forall d :: d in c[x].required ==> KnownNotDisabled(s, d))
    && (forall x :: x in s.unavailable && Usable(c, enabled, x) ==> x in s.expanded || s.unavailable[x] == NotSelected)
    && (forall x :: x in s.unavailable && s.unavailable[x] == Disabled ==> !Enabled(enabled, x))
  }

  /** A later state of the same search. */
  ghost predicate Extends(s: Search, s': Search) {
    && s.resolved <= s'.resolved && s.unavailable.Keys <= s'.unavailable.Keys
    && s.expanded <= s'.expanded && s.finished <= s'.finished && s'.visiting == s.visiting
    && (forall x :: x in s'.resolved && x !in s.resolved ==> x !in s.expanded)
    && (forall x :: x in s.unavailable && s'.unavailable[x] == Disabled ==> s.unavailable[x] == Disabled)
    && (forall x :: x in s'.unavailable && s'.unavailable[x] == NotSelected ==>
        x in s.unavailable && s.unavailable[x] == NotSelected)
  }

  predicate Expands(c: Catalog, enabled: set<Id>, id: Id, s: Search) {
    id !in s.resolved && id !in s.unavailable && id !in s.visiting && Usable(c, enabled, id)
  }

  lemma {:induction false} PushedSane(c: Catalog, enabled: set<Id>, id: Id, s: Search)
    requires Sane(c, enabled, s) && Expands(c, enabled, id, s)
    ensures Sane(c, enabled, Pushed(s, id)) && id !in s.expanded
  {
  }

  lemma {:induction false} NoteSane(c: Catalog, enabled: set<Id>, id: Id, reason: Reason, s: Search)
    requires Sane(c, enabled, s) && id !in s.unavailable && reason != NotSelected
    requires id in s.visiting || !Usable(c, enabled, id)
    requires reason == Disabled ==> !Enabled(enabled, id)
    ensures Sane(c, enabled, Recorded(s, id, reason)) && Extends(s, Recorded(s, id, reason))
  {
  }

  lemma {:induction false} LeafSane(c: Catalog, enabled: set<Id>, id: Id, s: Search)
    requires Sane(c, enabled, s) && !Expands(c, enabled, id, s)
    ensures var s' := Visit(c, enabled, id, s).0;
            && Sane(c, enabled, s') && Extends(s, s') && Known(s', id)
            && (Visit(c, enabled, id, s).1 ==> KnownNotDisabled(s', id))
  {
    if id !in s.resolved && id !in s.unavailable {
      NoteSane(c, enabled, id, Visit(c, enabled, id, s).0.unavailable[id], s);
    }
  }

  lemma {:induction false} VisitSane(c: Catalog, enabled: set<Id>, id: Id, s: Search)
    requires Sane(c, enabled, s)
    ensures var s' := Visit(c, enabled, id, s).0;
            && Sane(c, enabled, s') && Extends(s, s') && Known(s', id)
            && (Visit(c, enabled, id, s).1 ==> KnownNotDisabled(s', id))
    decreases |Unstacked(c, s)|, 0, 1
  {
    if Expands(c, enabled, id, s) {
      ExpandSane(c, enabled, id, s);
    } else {
      LeafSane(c, enabled, id, s);
    }
  }

  lemma {:induction false} ExpandSane(c: Catalog, enabled: set<Id>, id: Id, s: Search)
    requires Sane(c, enabled, s) && Expands(c, enabled, id, s)
    ensures var (s', ok) := Visit(c, enabled, id, s);
            Sane(c, enabled, s') && Extends(s, s') && (if ok then id in s'.resolved else id in s'.unavailable)
    decreases |Unstacked(c, s)|, 0, 0
  {
    StackShrinks(c, s, id);
    PushedSane(c, enabled, id, s);
    var p := Pushed(s, id);
    RequiredSane(c, enabled, id, c[id].required, p);
    var (s1, ok) := VisitRequired(c, enabled, id, c[id].required, p);
    if ok {
      OptionalSane(c, enabled, c[id].optional, s1);
      var s2 := VisitOptional(c, enabled, c[id].optional, s1);
      ExtendsFurther(p, s1, s2);
      SettledSane(c, enabled, id, s2);
      ExpansionExtends(s, id, Popped(s2.(resolved := s2.resolved + {id}, finished := s2.finished + [id])));
    } else {
      PoppedSane(c, enabled, s1);
      ExpansionExtends(s, id, Popped(s1));
    }
  }

  lemma {:induction false} ExpansionExtends(s: Search, id: Id, s': Search)
    requires id !in s.expanded && s'.visiting == (s.visiting + [id])[..|s.visiting|]
    requires s.resolved <= s'.resolved && s.unavailable.Keys <= s'.unavailable.Keys
    requires s.expanded + [id] <= s'.expanded && s.finished <= s'.finished
    requires forall x :: x in s'.resolved && x !in s.resolved ==> x == id || x !in s.expanded + [id]
    requires forall x :: x in s'.unavailable && s'.unavailable[x] == NotSelected ==>
             x in s.unavailable && s.unavailable[x] == NotSelected
    requires forall x :: x in s.unavailable && s'.unavailable[x] == Disabled ==> s.unavailable[x] == Disabled
    ensures Extends(s, s')
  {
    assert s'.visiting == s.visiting;
    assert s.expanded <= s.expanded + [id] <= s'.expanded;
  }

  lemma {:induction false} PoppedSane(c: Catalog, enabled: set<Id>, s: Search)
    requires Sane(c, enabled, s) && s.visiting != [] && Known(s, s.visiting[|s.visiting| - 1])
    ensures Sane(c, enabled, Popped(s))
  {
    var top := |s.visiting| - 1;
    assert forall x :: x in s.visiting <==> x in Popped(s).visiting || x == s.visiting[top];
  }

  lemma {:induction false} SettledSane(c: Catalog, enabled: set<Id>, id: Id, s: Search)
    requires Sane(c, enabled, s) && s.visiting != [] && s.visiting[|s.visiting| - 1] == id
    requires id in c && forall d :: d in c[id].required ==> KnownNotDisabled(s, d)
    ensures Sane(c, enabled, Popped(s.(resolved := s.resolved + {id}, finished := s.finished + [id])))
  {
    var top := |s.visiting| - 1;
    var s' := Popped(s.(resolved := s.resolved + {id}, finished := s.finished + [id]));
    assert forall x :: x in s.visiting <==> x in s'.visiting || x == id;
    assert forall i :: 0 <= i < top ==> s'.visiting[i] == s.visiting[i];
  }

  lemma {:induction false} ExtendsFurther(s: Search, s1: Search, s2: Search)
    requires Extends(s, s1) && Extends(s1, s2)
    ensures Extends(s, s2)
  {
    assert s.expanded <= s1.expanded <= s2.expanded && s.finished <= s1.finished <= s2.finished;
  }

  lemma {:induction false} RefusedSane(c: Catalog, enabled: set<Id>, id: Id, d: Id, s: Search)
    requires Sane(c, enabled, s) && id in s.visiting
    ensures var s' := Recorded(s, id, DependencyUnavailable(d)); Sane(c, enabled, s') && Extends(s, s')
  {
  }

  lemma {:induction false} RequiredSane(c: Catalog, enabled: set<Id>, id: Id, deps: seq<Id>, s: Search)
    requires Sane(c, enabled, s) && id in s.visiting
    ensures var (s', ok) := VisitRequired(c, enabled, id, deps, s);
            && Sane(c, enabled, s') && Extends(s, s')
            && (if ok then forall d :: d in deps ==> KnownNotDisabled(s', d) else id in s'.unavailable)
    decreases |Unstacked(c, s)|, 1, |deps|
  {
    if deps != [] {
      VisitSane(c, enabled, deps[0], s);
      var (s1, ok) := Visit(c, enabled, deps[0], s);
      var s' := VisitRequired(c, enabled, id, deps, s).0;
      if ok {
        RequiredSane(c, enabled, id, deps[1..], s1);
      } else {
        RefusedSane(c, enabled, id, deps[0], s1);
      }
      ExtendsFurther(s, s1, s');
      assert KnownNotDisabled(s1, deps[0]) ==> KnownNotDisabled(s', deps[0]);
    }
  }

  lemma {:induction false} OptionalSane(c: Catalog, enabled: set<Id>, deps: seq<Id>, s: Search)
    requires Sane(c, enabled, s)
    ensures Sane(c, enabled, VisitOptional(c, enabled, deps, s)) && Extends(s, VisitOptional(c, enabled, deps, s))
    decreases |Unstacked(c, s)|, 1, |deps|
  {
    if deps != [] {
      var s1 := Visit(c, enabled, deps[0], s).0;
      VisitSane(c, enabled, deps[0], s);
      OptionalSane(c, enabled, deps[1..], s1);
      ExtendsFurther(s, s1, VisitOptional(c, enabled, deps, s));
    }
  }

  lemma {:induction false} CandidatesSane(c: Catalog, enabled: set<Id>, selected: set<Id>, ids: seq<Id>, s: Search)
    requires Sane(c, enabled, s) && s.visiting == []
    ensures var s' := VisitCandidates(c, enabled, selected, ids, s);
            Sane(c, enabled, s') && s'.visiting == [] && forall x :: x in ids || Known(s, x) ==> Known(s', x)
    decreases |ids|
  {
    if ids != [] {
      if selected == {} || ids[0] in selected {
        VisitSane(c, enabled, ids[0], s);
        CandidatesSane(c, enabled, selected, ids[1..], Visit(c, enabled, ids[0], s).0);
      } else {
        CandidatesSane(c, enabled, selected, ids[1..], Recorded(s, ids[0], NotSelected));
      }
    }
  }

  /** For every input: each id is expanded at most once, every declared id ends resolved or
      recorded, only usable ids resolve, and a resolved id's required ids are each resolved
      or recorded for a reason other than being disabled. */
  lemma WeakClosure(c: Catalog, enabled: set<Id>, selected: set<Id>)
    ensures var s := Searched(c, enabled, selected);
            && s.visiting == [] && Unrepeated(s.expanded)
            && (forall x :: x in c ==> Known(s, x))
            && (forall x :: x in s.resolved ==>
                  Usable(c, enabled, x) && forall d :: d in c[x].required ==> KnownNotDisabled(s, d))
  {
    CandidatesSane(c, enabled, selected, KeyOrder(c.Keys), START);
  }

  /** The tables once 1 was visited and its missing 9 recorded. */
  const REFUSED := Search(map[9 := MissingRequired(9), 1 := DependencyUnavailable(9)], {}, [], [1], [])

  lemma FirstIsRefused(c: Catalog)
    requires 1 in c && c[1] == Descriptor(1, [9], []) && 9 !in c
    ensures Visit(c, {}, 1, START) == (REFUSED, false)
  {
    var p := Pushed(START, 1);
    assert Visit(c, {}, 9, p) == (Recorded(p, 9, MissingRequired(9)), false);
    assert VisitRequired(c, {}, 1, [9], p)
           == (Recorded(Recorded(p, 9, MissingRequired(9)), 1, DependencyUnavailable(9)), false);
  }

  /** The memo branch takes a recorded id for a satisfied one. */
  lemma SecondResolves(c: Catalog, d: Id)
    requires 2 in c && c[2] == Descriptor(2, [d], []) && (d == 9 || d == 1)
    ensures Visit(c, {}, 2, REFUSED).0.resolved == {2}
  {
    var p := Pushed(REFUSED, 2);
    assert Visit(c, {}, d, p) == (p, true);
    assert VisitRequired(c, {}, 2, [d], p) == VisitRequired(c, {}, 2, [], p) == (p, true);
    assert VisitOptional(c, {}, [], p) == p;
  }

  /** Closure fails when the second capability requires what the first does, a missing id, and
      when it requires the first, which that refused: either way the memo lets it resolve with
      its required id unresolved. */
  lemma StrongClosureFails(d: Id)
    requires d == 9 || d == 1
    ensures var c := map[1 := Descriptor(1, [9], []), 2 := Descriptor(2, [d], [])];
            Searched(c, {}, {}).resolved == {2} && d in c[2].required && d !in Searched(c, {}, {}).resolved
  {
    var c := map[1 := Descriptor(1, [9], []), 2 := Descriptor(2, [d], [])];
    KeyOrderOfPair(c.Keys, 1, 2);
    FirstIsRefused(c);
    SecondResolves(c, d);
    var s2 := Visit(c, {}, 2, REFUSED).0;
    assert [1, 2][1..] == [2] && [2][1..] == [];
    assert VisitCandidates(c, {}, {}, [1, 2], START) == VisitCandidates(c, {}, {}, [2], REFUSED)
           == VisitCandidates(c, {}, {}, [], s2) == s2;
  }

  lemma KeyOrderOfPair(keys: set<Id>, a: Id, b: Id)
    requires keys == {a, b} && a < b
    ensures KeyOrder(keys) == [a, b]
  {
    assert keys - {a} == {b} && {b} - {b} == {};
    assert IsLeast(a, keys) && IsLeast(b, {b});
    assert KeyOrder({b}) == [b];
  }

  // ------------------------------------------------------ acyclic, all required

  /** Every required id of a usable id is usable. */
  ghost predicate RequiredUsable(c: Catalog, enabled: set<Id>) {
    forall x, d :: Usable(c, enabled, x) && d in c[x].required ==> Usable(c, enabled, d)
  }

  /** No cycle among the required and optional edges of usable ids: `rank` falls along each. */
  ghost predicate Ranked(c: Catalog, enabled: set<Id>, rank: map<Id, nat>) {
    && c.Keys <= rank.Keys
    && forall x, d ::
         Usable(c, enabled, x) && Usable(c, enabled, d) && (d in c[x].required || d in c[x].optional) ==>
           rank[d] < rank[x]
  }

  /** Resolved ids are closed under `required`, and only unusable ids are recorded. */
  ghost predicate Closed(c: Catalog, enabled: set<Id>, s: Search) {
    && (forall x :: x in s.resolved && x in c ==> forall d :: d in c[x].required ==> d in s.resolved)
    && (forall x :: x in s.unavailable ==> !Usable(c, enabled, x))
  }

  ghost predicate Above(c: Catalog, enabled: set<Id>, rank: map<Id, nat>, s: Search, id: Id)
    requires c.Keys <= rank.Keys
  {
    Usable(c, enabled, id) ==> forall v :: v in s.visiting ==> v in c && rank[v] > rank[id]
  }

  lemma ClosedWithResolved(c: Catalog, enabled: set<Id>, id: Id, s1: Search, s2: Search)
    requires Closed(c, enabled, s2) && s2.visiting != [] && id in c && s1.resolved <= s2.resolved
    requires forall d :: d in c[id].required ==> d in s1.resolved
    ensures Closed(c, enabled, Popped(s2.(resolved := s2.resolved + {id}, finished := s2.finished + [id])))
  {
  }

  /** A visit that expands nothing. */
  lemma RankedAnswer(c: Catalog, enabled: set<Id>, rank: map<Id, nat>, id: Id, s: Search)
    requires Ranked(c, enabled, rank) && Closed(c, enabled, s) && Above(c, enabled, rank, s, id)
    requires !Expands(c, enabled, id, s)
    ensures var (s', ok) := Visit(c, enabled, id, s);
            Closed(c, enabled, s') && (Usable(c, enabled, id) ==> ok && id in s'.resolved)
  {
  }

  lemma {:induction false} RankedVisit(c: Catalog, enabled: set<Id>, rank: map<Id, nat>, id: Id, s: Search)
    requires RequiredUsable(c, enabled) && Ranked(c, enabled, rank)
    requires Sane(c, enabled, s) && Closed(c, enabled, s) && Above(c, enabled, rank, s, id)
    ensures var (s', ok) := Visit(c, enabled, id, s);
            Closed(c, enabled, s') && (Usable(c, enabled, id) ==> ok && id in s'.resolved)
    decreases |Unstacked(c, s)|, 0, 0
  {
    if Expands(c, enabled, id, s) {
      StackShrinks(c, s, id);
      PushedSane(c, enabled, id, s);
      var p := Pushed(s, id);
      RequiredSane(c, enabled, id, c[id].required, p);
      RankedRequired(c, enabled, rank, id, c[id].required, p);
      var s1 := VisitRequired(c, enabled, id, c[id].required, p).0;
      OptionalSane(c, enabled, c[id].optional, s1);
      RankedOptional(c, enabled, rank, id, c[id].optional, s1);
      var s2 := VisitOptional(c, enabled, c[id].optional, s1);
      ClosedWithResolved(c, enabled, id, s1, s2);
    } else {
      RankedAnswer(c, enabled, rank, id, s);
    }
  }

  lemma {:induction false} RankedRequired(c: Catalog, enabled: set<Id>, rank: map<Id, nat>, id: Id, deps: seq<Id>,
                                          s: Search)
    requires RequiredUsable(c, enabled) && Ranked(c, enabled, rank) && Usable(c, enabled, id)
    requires Sane(c, enabled, s) && Closed(c, enabled, s) && id in s.visiting
    requires forall v :: v in s.visiting ==> v in c && rank[v] >= rank[id]
    requires forall d :: d in deps ==> d in c[id].required
    ensures var (s', ok) := VisitRequired(c, enabled, id, deps, s);
            ok && Closed(c, enabled, s') && forall d :: d in deps ==> d in s'.resolved
    decreases |Unstacked(c, s)|, 1, |deps|
  {
    if deps != [] {
      assert deps[0] in c[id].required;
      RankedVisit(c, enabled, rank, deps[0], s);
      VisitSane(c, enabled, deps[0], s);
      var s1 := Visit(c, enabled, deps[0], s).0;
      RequiredSane(c, enabled, id, deps[1..], s1);
      RankedRequired(c, enabled, rank, id, deps[1..], s1);
    }
  }

  lemma {:induction false} RankedOptional(c: Catalog, enabled: set<Id>, rank: map<Id, nat>, id: Id, deps: seq<Id>,
                                          s: Search)
    requires RequiredUsable(c, enabled) && Ranked(c, enabled, rank) && Usable(c, enabled, id)
    requires Sane(c, enabled, s) && Closed(c, enabled, s) && id in s.visiting
    requires forall v :: v in s.visiting ==> v in c && rank[v] >= rank[id]
    requires forall d :: d in deps ==> d in c[id].optional
    ensures Closed(c, enabled, VisitOptional(c, enabled, deps, s))
    decreases |Unstacked(c, s)|, 1, |deps|
  {
    if deps != [] {
      assert deps[0] in c[id].optional;
      RankedVisit(c, enabled, rank, deps[0], s);
      VisitSane(c, enabled, deps[0], s);
      RankedOptional(c, enabled, rank, id, deps[1..], Visit(c, enabled, deps[0], s).0);
    }
  }

  lemma {:induction false} RankedCandidates(c: Catalog, enabled: set<Id>, rank: map<Id, nat>, ids: seq<Id>, s: Search)
    requires RequiredUsable(c, enabled) && Ranked(c, enabled, rank)
    requires Sane(c, enabled, s) && Closed(c, enabled, s) && s.visiting == []
    ensures var s' := VisitCandidates(c, enabled, {}, ids, s);
            && Closed(c, enabled, s')
            && forall x :: x in s.resolved || (x in ids && Usable(c, enabled, x)) ==> x in s'.resolved
    decreases |ids|
  {
    if ids != [] {
      RankedVisit(c, enabled, rank, ids[0], s);
      VisitSane(c, enabled, ids[0], s);
      RankedCandidates(c, enabled, rank, ids[1..], Visit(c, enabled, ids[0], s).0);
    }
  }

  /** Everything usable resolves, and the result is closed under `required`. */
  ghost predicate Complete(c: Catalog, enabled: set<Id>, s: Search) {
    && (forall x :: x in s.resolved <==> Usable(c, enabled, x))
    && (forall x :: Usable(c, enabled, x) ==> forall d :: d in c[x].required ==> d in s.resolved)
  }

  /** With nothing deselected, all required ids usable and no cycle through required or
      optional edges, resolution is complete. */
  lemma AcyclicIsComplete(c: Catalog, enabled: set<Id>, rank: map<Id, nat>)
    requires RequiredUsable(c, enabled) && Ranked(c, enabled, rank)
    ensures Complete(c, enabled, Searched(c, enabled, {}))
  {
    CandidatesSane(c, enabled, {}, KeyOrder(c.Keys), START);
    RankedCandidates(c, enabled, rank, KeyOrder(c.Keys), START);
  }

  // ---------------------------------------------- the converse, required edges only

  ghost predicate NoOptional(c: Catalog) {
    forall x :: x in c ==> c[x].optional == []
  }

  ghost predicate NoneDeselected(s: Search) {
    forall x :: x in s.unavailable ==> s.unavailable[x] != NotSelected
  }

  /** Some id was expanded and given up: it can never resolve any more. */
  ghost predicate Tainted(s: Search) {
    exists y :: y in s.expanded && y !in s.visiting && y !in s.resolved
  }

  /** Ids finished after all their required ids. */
  predicate Ordered(c: Catalog, s: Search) {
    forall j :: 0 <= j < |s.finished| ==>
      s.finished[j] in c && forall d :: d in c[s.finished[j]].required ==> d in s.finished[..j]
  }

  ghost predicate OrderedOrTainted(c: Catalog, s: Search) {
    Tainted(s) || (Ordered(c, s) && forall v :: v in s.visiting ==> v !in s.unavailable)
  }

  lemma {:induction false} TaintStays(s: Search, s': Search)
    requires Tainted(s) && Extends(s, s')
    ensures Tainted(s')
  {
    var y :| y in s.expanded && y !in s.visiting && y !in s.resolved;
    assert y in s'.expanded;
  }

  lemma {:induction false} OrderVisit(c: Catalog, enabled: set<Id>, id: Id, s: Search)
    requires RequiredUsable(c, enabled) && NoOptional(c) && Usable(c, enabled, id)
    requires Sane(c, enabled, s) && NoneDeselected(s) && OrderedOrTainted(c, s)
    ensures var (s', ok) := Visit(c, enabled, id, s);
            && (ok ==> OrderedOrTainted(c, s') && (id in s'.resolved || Tainted(s')))
            && (!ok ==> Tainted(s') || id in s.visiting)
    decreases |Unstacked(c, s)|, 0, 1
  {
    if Expands(c, enabled, id, s) {
      OrderExpansion(c, enabled, id, s);
    } else if id !in s.resolved && id in s.unavailable {
      assert id in s.expanded;
      assert id !in s.visiting ==> Tainted(s);
    }
  }

  lemma {:induction false} OrderExpansion(c: Catalog, enabled: set<Id>, id: Id, s: Search)
    requires RequiredUsable(c, enabled) && NoOptional(c) && Expands(c, enabled, id, s)
    requires Sane(c, enabled, s) && NoneDeselected(s) && OrderedOrTainted(c, s)
    ensures var (s', ok) := Visit(c, enabled, id, s);
            if ok then OrderedOrTainted(c, s') && id in s'.resolved else Tainted(s')
    decreases |Unstacked(c, s)|, 0, 0
  {
    StackShrinks(c, s, id);
    PushedSane(c, enabled, id, s);
    var p := Pushed(s, id);
    if Tainted(s) {
      var y :| y in s.expanded && y !in s.visiting && y !in s.resolved;
      assert y in p.expanded && y !in p.visiting;
    }
    RequiredSane(c, enabled, id, c[id].required, p);
    OrderRequired(c, enabled, id, c[id].required, p);
    var (s1, ok) := VisitRequired(c, enabled, id, c[id].required, p);
    var s' := Visit(c, enabled, id, s).0;
    assert s1.visiting == s.visiting + [id] && s'.visiting == s.visiting;
    if ok {
      assert VisitOptional(c, enabled, c[id].optional, s1) == s1;
      assert s'.finished == s1.finished + [id] && s'.expanded == s1.expanded && s'.resolved == s1.resolved + {id};
      if Tainted(s1) {
        var y :| y in s1.expanded && y !in s1.visiting && y !in s1.resolved;
        assert y in s'.expanded && y !in s'.visiting && y !in s'.resolved;
      } else {
        OrderSettled(c, s1, s', id);
      }
    } else {
      assert id in p.expanded && id !in s1.resolved;
      assert id in s'.expanded && id !in s'.visiting && id !in s'.resolved;
    }
  }

  lemma {:induction false} OrderSettled(c: Catalog, s: Search, s': Search, id: Id)
    requires Ordered(c, s) && id in c && forall d :: d in c[id].required ==> d in s.finished
    requires s'.finished == s.finished + [id]
    ensures Ordered(c, s')
  {
    forall j | 0 <= j < |s'.finished|
      ensures s'.finished[j] in c && forall d :: d in c[s'.finished[j]].required ==> d in s'.finished[..j]
    {
      if j < |s.finished| {
        assert s'.finished[j] == s.finished[j] && s'.finished[..j] == s.finished[..j];
      } else {
        assert s'.finished[..j] == s.finished;
      }
    }
  }

  lemma {:induction false} OrderRequired(c: Catalog, enabled: set<Id>, id: Id, deps: seq<Id>, s: Search)
    requires RequiredUsable(c, enabled) && NoOptional(c) && id in s.visiting
    requires Sane(c, enabled, s) && NoneDeselected(s) && OrderedOrTainted(c, s)
    requires forall d :: d in deps ==> Usable(c, enabled, d)
    ensures var (s', ok) := VisitRequired(c, enabled, id, deps, s);
            ok ==> OrderedOrTainted(c, s') && (Tainted(s') || forall d :: d in deps ==> d in s'.resolved)
    decreases |Unstacked(c, s)|, 1, |deps|
  {
    if deps != [] {
      OrderVisit(c, enabled, deps[0], s);
      VisitSane(c, enabled, deps[0], s);
      var (s1, ok) := Visit(c, enabled, deps[0], s);
      if ok {
        OrderRequired(c, enabled, id, deps[1..], s1);
        RequiredSane(c, enabled, id, deps[1..], s1);
        if Tainted(s1) {
          TaintStays(s1, VisitRequired(c, enabled, id, deps[1..], s1).0);
        }
      }
    }
  }

  lemma {:induction false} OrderCandidates(c: Catalog, enabled: set<Id>, ids: seq<Id>, s: Search)
    requires RequiredUsable(c, enabled) && NoOptional(c) && forall x :: x in ids ==> x in c
    requires Sane(c, enabled, s) && NoneDeselected(s) && OrderedOrTainted(c, s) && s.visiting == []
    ensures OrderedOrTainted(c, VisitCandidates(c, enabled, {}, ids, s))
    decreases |ids|
  {
    if ids != [] {
      VisitSane(c, enabled, ids[0], s);
      var s1 := Visit(c, enabled, ids[0], s).0;
      if Usable(c, enabled, ids[0]) {
        OrderVisit(c, enabled, ids[0], s);
      } else if Tainted(s) {
        TaintStays(s, s1);
      }
      OrderCandidates(c, enabled, ids[1..], s1);
    }
  }

  lemma {:induction false} RankFromOrder(c: Catalog, enabled: set<Id>, s: Search) returns (rank: map<Id, nat>)
    requires NoOptional(c) && Ordered(c, s) && forall x :: Usable(c, enabled, x) ==> x in s.finished
    ensures Ranked(c, enabled, rank)
  {
    rank := map x | x in c :: if x in s.finished then FirstPosition(s.finished, x) else 0;
    forall x, d | Usable(c, enabled, x) && Usable(c, enabled, d) && d in c[x].required ensures rank[d] < rank[x] {
      var j := FirstPosition(s.finished, x);
      assert d in s.finished[..j];
      var i :| 0 <= i < j && s.finished[..j][i] == d;
      assert s.finished[i] == d;
    }
  }

  function FirstPosition(ids: seq<Id>, id: Id): (p: nat)
    requires id in ids
    ensures p < |ids| && ids[p] == id && forall q :: 0 <= q < p ==> ids[q] != id
  {
    if ids[0] == id then 0 else FirstPosition(ids[1..], id) + 1
  }

  lemma CompleteMeansUsable(c: Catalog, enabled: set<Id>)
    requires Complete(c, enabled, Searched(c, enabled, {}))
    ensures RequiredUsable(c, enabled)
  {
    CandidatesSane(c, enabled, {}, KeyOrder(c.Keys), START);
  }

  lemma CompleteMeansOrdered(c: Catalog, enabled: set<Id>)
    requires NoOptional(c) && RequiredUsable(c, enabled) && Complete(c, enabled, Searched(c, enabled, {}))
    ensures Ordered(c, Searched(c, enabled, {}))
    ensures forall x :: Usable(c, enabled, x) ==> x in Searched(c, enabled, {}).finished
  {
    CandidatesSane(c, enabled, {}, KeyOrder(c.Keys), START);
    OrderCandidates(c, enabled, KeyOrder(c.Keys), START);
    assert !Tainted(Searched(c, enabled, {}));
  }

  lemma CompleteIsAcyclic(c: Catalog, enabled: set<Id>)
    requires NoOptional(c) && Complete(c, enabled, Searched(c, enabled, {}))
    ensures RequiredUsable(c, enabled) && exists rank :: Ranked(c, enabled, rank)
  {
    CompleteMeansUsable(c, enabled);
    CompleteMeansOrdered(c, enabled);
    var rank := RankFromOrder(c, enabled, Searched(c, enabled, {}));
  }

  /** Without optional edges the condition is exact: resolution is complete if and only if
      the required ids of usable ids are usable and the required edges have no cycle. */
  lemma CompleteExactlyWhenAcyclic(c: Catalog, enabled: set<Id>)
    requires NoOptional(c)
    ensures Complete(c, enabled, Searched(c, enabled, {}))
       <==> RequiredUsable(c, enabled) && exists rank :: Ranked(c, enabled, rank)
  {
    if Complete(c, enabled, Searched(c, enabled, {})) {
      CompleteIsAcyclic(c, enabled);
    }
    if RequiredUsable(c, enabled) {
      if rank :| Ranked(c, enabled, rank) {
        AcyclicIsComplete(c, enabled, rank);
      }
    }
  }

  // With optional edges the condition is not necessary: here 1 and 3 require each other,
  // but the optional edge from 2 records 1 as cyclic first, and the memo then accepts it.

  const HIDDEN: Catalog := map[1 := Descriptor(1, [2, 3], []), 2 := Descriptor(2, [], [1]), 3 := Descriptor(3, [1], [])]
  const HIDDEN_CYCLE: map<Id, Reason> := map[1 := Cycle([1, 2, 1])]

  /** What a successful expansion leaves. */
  lemma {:induction false} Expansion(c: Catalog, id: Id, s: Search, s1: Search, s2: Search)
    requires Expands(c, {}, id, s)
    requires VisitRequired(c, {}, id, c[id].required, Pushed(s, id)) == (s1, true)
    requires VisitOptional(c, {}, c[id].optional, s1) == s2
    ensures Visit(c, {}, id, s)
            == (Search(s2.unavailable, s2.resolved + {id}, s.visiting, s2.expanded, s2.finished + [id]), true)
  {
    assert s2.visiting == s.visiting + [id];
    assert s2.visiting[..|s2.visiting| - 1] == s.visiting;
  }

  lemma HiddenSecond()
    ensures Visit(HIDDEN, {}, 2, Search(map[], {}, [1], [1], [])) == (Search(HIDDEN_CYCLE, {2}, [1], [1, 2], [2]), true)
  {
    var p1 := Search(map[], {}, [1], [1], []);
    var p2 := Search(map[], {}, [1, 2], [1, 2], []);
    var q2 := p2.(unavailable := HIDDEN_CYCLE);
    assert Pushed(p1, 2) == p2;
    assert Position([1, 2], 1) == 0 && [1, 2][0..] + [1] == [1, 2, 1];
    assert Visit(HIDDEN, {}, 1, p2) == (q2, false);
    assert [1][1..] == [];
    assert VisitOptional(HIDDEN, {}, [1], p2) == VisitOptional(HIDDEN, {}, [], q2) == q2;
    assert VisitRequired(HIDDEN, {}, 2, [], p2) == (p2, true);
    Expansion(HIDDEN, 2, p1, p2, q2);
    assert {} + {2} == {2} && [] + [2] == [2];
  }

  lemma HiddenThird()
    ensures Visit(HIDDEN, {}, 3, Search(HIDDEN_CYCLE, {2}, [1], [1, 2], [2]))
         == (Search(HIDDEN_CYCLE, {2, 3}, [1], [1, 2, 3], [2, 3]), true)
  {
    var s2 := Search(HIDDEN_CYCLE, {2}, [1], [1, 2], [2]);
    var p3 := Search(HIDDEN_CYCLE, {2}, [1, 3], [1, 2, 3], [2]);
    assert Pushed(s2, 3) == p3;
    assert Visit(HIDDEN, {}, 1, p3) == (p3, true);
    assert [1][1..] == [];
    assert VisitRequired(HIDDEN, {}, 3, [1], p3) == VisitRequired(HIDDEN, {}, 3, [], p3) == (p3, true);
    assert VisitOptional(HIDDEN, {}, [], p3) == p3;
    Expansion(HIDDEN, 3, s2, p3, p3);
    assert {2} + {3} == {2, 3} && [2] + [3] == [2, 3];
  }

  lemma HiddenFirst()
    ensures Visit(HIDDEN, {}, 1, START).0.resolved == {1, 2, 3}
  {
    HiddenSecond();
    HiddenThird();
    var s2, s3 := Search(HIDDEN_CYCLE, {2}, [1], [1, 2], [2]), Search(HIDDEN_CYCLE, {2, 3}, [1], [1, 2, 3], [2, 3]);
    OptionalEdgeOuter(HIDDEN, Search(map[], {}, [1], [1], []), s2, s3);
    assert {2, 3} + {1} == {1, 2, 3};
  }

  lemma {:induction false} FirstInKeyOrder(keys: set<Id>, k: Id)
    requires IsLeast(k, keys)
    ensures var ids := KeyOrder(keys); ids != [] && ids[0] == k && forall x :: x in ids <==> x in keys
  {
    var ids := KeyOrder(keys);
    assert k in ids;
    assert ids[0] in ids;
    var n :| 0 <= n < |ids| && ids[n] == k;
  }

  lemma {:induction false} SearchEndsAtFirst(c: Catalog, k: Id)
    requires IsLeast(k, c.Keys) && Visit(c, {}, k, START).0.resolved == c.Keys
    ensures Searched(c, {}, {}).resolved == c.Keys
  {
    FirstInKeyOrder(c.Keys, k);
    EverythingStays(c, KeyOrder(c.Keys), Visit(c, {}, k, START).0, START);
  }

  lemma {:induction false} AllResolvedIsComplete(c: Catalog, s: Search)
    requires s.resolved == c.Keys && forall x, d :: x in c && d in c[x].required ==> d in c
    ensures Complete(c, {}, s)
  {
  }

  lemma {:induction false} HiddenRequiredDeclared()
    ensures forall x, d :: x in HIDDEN && d in HIDDEN[x].required ==> d in HIDDEN
  {
  }

  lemma HiddenEnds(c: Catalog)
    requires c.Keys == {1, 2, 3} && Visit(c, {}, 1, START).0.resolved == c.Keys
    ensures Searched(c, {}, {}).resolved == c.Keys
  {
    assert IsLeast(1, c.Keys);
    SearchEndsAtFirst(c, 1);
  }

  lemma HiddenKeys()
    ensures HIDDEN.Keys == {1, 2, 3}
  {
  }

  lemma {:induction false} HiddenResolves()
    ensures Searched(HIDDEN, {}, {}).resolved == HIDDEN.Keys
  {
    HiddenKeys();
    HiddenFirst();
    HiddenEnds(HIDDEN);
  }

  /** Everything resolves although the required edges have a cycle. */
  lemma {:induction false} OptionalEdgeHidesCycle()
    ensures Complete(HIDDEN, {}, Searched(HIDDEN, {}, {})) && !exists rank :: Ranked(HIDDEN, {}, rank)
  {
    HiddenResolves();
    HiddenRequiredDeclared();
    AllResolvedIsComplete(HIDDEN, Searched(HIDDEN, {}, {}));
    NoRankForHidden();
  }

  lemma NoRankForHidden()
    ensures !exists rank :: Ranked(HIDDEN, {}, rank)
  {
    assert Usable(HIDDEN, {}, 1) && Usable(HIDDEN, {}, 3);
    assert 3 in HIDDEN[1].required && 1 in HIDDEN[3].required;
  }

  lemma {:induction false} OptionalEdgeOuter(c: Catalog, p1: Search, s2: Search, s3: Search)
    requires 1 in c && c[1] == Descriptor(1, [2, 3], []) && p1 == Pushed(START, 1)
    requires Visit(c, {}, 2, p1) == (s2, true) && Visit(c, {}, 3, s2) == (s3, true)
    ensures Visit(c, {}, 1, START).0.resolved == s3.resolved + {1}
  {
    assert [2, 3][1..] == [3] && [3][1..] == [];
    assert VisitRequired(c, {}, 1, [3], s2) == VisitRequired(c, {}, 1, [], s3) == (s3, true);
    assert VisitRequired(c, {}, 1, [2, 3], p1) == (s3, true);
    assert VisitOptional(c, {}, [], s3) == s3;
  }

  /** Once everything declared is resolved the remaining candidates change nothing. */
  lemma {:induction false} EverythingStays(c: Catalog, ids: seq<Id>, s: Search, from: Search)
    requires forall x :: x in ids ==> x in c
    requires s.resolved == c.Keys && ids != [] && s == Visit(c, {}, ids[0], from).0
    ensures VisitCandidates(c, {}, {}, ids, from) == s
    decreases |ids|
  {
    if |ids| > 1 {
      assert ids[1] in ids;
      EverythingStays(c, ids[1..], s, s);
    } else {
      assert ids[1..] == [];
    }
  }
}
