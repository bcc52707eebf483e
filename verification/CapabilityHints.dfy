/** When everything resolves, optional edges included: an exact condition on the plain
    depth-first walk of the catalog, which keeps no record of what is unavailable and refuses
    nothing. */
module CapabilityHints {
  import opened Common
  import opened CapabilitySearch
  import opened CapabilityProperties

  /** An edge to an id that is still on the stack. */
  datatype Back = Back(to: Id, required: bool)

  datatype Walk = Walk(stack: seq<Id>, finished: set<Id>, backs: seq<Back>)

  function Free(c: Catalog, w: Walk): set<Id> {
    set x | x in c && x !in w.stack
  }

  function Entered(w: Walk, id: Id): Walk {
    w.(stack := w.stack + [id])
  }

  lemma FreeShrinks(c: Catalog, w: Walk, id: Id)
    requires id in c && id !in w.stack
    ensures |Free(c, Entered(w, id))| < |Free(c, w)|
  {
    assert Free(c, w) == Free(c, Entered(w, id)) + {id};
  }

  /** The walk along one edge: first the required edges of a new id, then its optional ones. */
  function Explore(c: Catalog, enabled: set<Id>, id: Id, required: bool, w: Walk): (r: Walk)
    ensures r.stack == w.stack
    decreases |Free(c, w)|, 0, 0
  {
    if !Usable(c, enabled, id) || id in w.finished then w
    else if id in w.stack then w.(backs := w.backs + [Back(id, required)])
    else
      FreeShrinks(c, w, id);
      var w1 := ExploreAll(c, enabled, c[id].required, true, Entered(w, id));
      var w2 := ExploreAll(c, enabled, c[id].optional, false, w1);
      Walk(w.stack, w2.finished + {id}, w2.backs)
  }

  function ExploreAll(c: Catalog, enabled: set<Id>, ids: seq<Id>, required: bool, w: Walk): (r: Walk)
    ensures r.stack == w.stack
    decreases |Free(c, w)|, 1, |ids|
  {
    if ids == [] then w
    else ExploreAll(c, enabled, ids[1..], required, Explore(c, enabled, ids[0], required, w))
  }

  /** The walk from every declared id, in key order. */
  function WholeWalk(c: Catalog, enabled: set<Id>): Walk {
    ExploreAll(c, enabled, KeyOrder(c.Keys), false, Walk([], {}, []))
  }

  /** Each required edge back to an id comes after an optional one back to it. */
  predicate Hinted(backs: seq<Back>) {
    forall i :: 0 <= i < |backs| && backs[i].required ==> Back(backs[i].to, false) in backs[..i]
  }

  // ---------------------------------------------------------------- the walk only adds edges

  lemma HintedBefore(a: seq<Back>, b: seq<Back>)
    requires a <= b && Hinted(b)
    ensures Hinted(a)
  {
    forall i | 0 <= i < |a| && a[i].required ensures Back(a[i].to, false) in a[..i] {
      assert a[..i] == b[..i] && a[i] == b[i];
    }
  }

  lemma {:induction false} ExploreAdds(c: Catalog, enabled: set<Id>, id: Id, required: bool, w: Walk)
    ensures w.backs <= Explore(c, enabled, id, required, w).backs
    decreases |Free(c, w)|, 0, 0
  {
    if Usable(c, enabled, id) && id !in w.finished && id !in w.stack {
      FreeShrinks(c, w, id);
      ExploreAllAdds(c, enabled, c[id].required, true, Entered(w, id));
      ExploreAllAdds(c, enabled, c[id].optional, false,
                     ExploreAll(c, enabled, c[id].required, true, Entered(w, id)));
    }
  }

  lemma {:induction false} ExploreAllAdds(c: Catalog, enabled: set<Id>, ids: seq<Id>, required: bool, w: Walk)
    ensures w.backs <= ExploreAll(c, enabled, ids, required, w).backs
    decreases |Free(c, w)|, 1, |ids|
  {
    if ids != [] {
      ExploreAdds(c, enabled, ids[0], required, w);
      ExploreAllAdds(c, enabled, ids[1..], required, Explore(c, enabled, ids[0], required, w));
    }
  }

  // ---------------------------------------------------------------- the search follows the walk

  /** The search is where the walk is: nothing was refused, and of the usable ids exactly those
      with an optional edge back are recorded, as cyclic. */
  ghost predicate Matches(c: Catalog, enabled: set<Id>, s: Search, w: Walk) {
    && s.visiting == w.stack && s.resolved == w.finished && Hinted(w.backs)
    && (forall x :: Usable(c, enabled, x) ==> (x in s.unavailable <==> Back(x, false) in w.backs))
    && (forall x :: Usable(c, enabled, x) && x in s.unavailable ==> s.unavailable[x].Cycle?)
    && (forall b :: b in w.backs ==> b.to in w.stack || b.to in w.finished)
  }

  lemma HintedOnce(backs: seq<Back>, b: Back)
    requires Hinted(backs)
    ensures Hinted(backs + [b]) <==> !b.required || Back(b.to, false) in backs
  {
    var longer := backs + [b];
    assert longer[..|backs|] == backs;
    if !b.required || Back(b.to, false) in backs {
      forall i | 0 <= i < |longer| && longer[i].required ensures Back(longer[i].to, false) in longer[..i] {
        if i < |backs| {
          assert longer[..i] == backs[..i];
        }
      }
    }
  }

  /** An edge to an id that is not new. */
  lemma FollowsLeaf(c: Catalog, enabled: set<Id>, id: Id, required: bool, s: Search, w: Walk)
    requires Matches(c, enabled, s, w) && !Expands(c, enabled, id, s) && (required ==> Usable(c, enabled, id))
    requires Hinted(Explore(c, enabled, id, required, w).backs)
    ensures var (s', ok) := Visit(c, enabled, id, s);
            && Matches(c, enabled, s', Explore(c, enabled, id, required, w)) && (required ==> ok)
            && (Usable(c, enabled, id) && id !in s.visiting ==> id in s'.resolved)
  {
    if Usable(c, enabled, id) && id in w.stack && id !in w.finished {
      HintedOnce(w.backs, Back(id, required));
    }
  }

  /** The stack without its top, which is resolved. */
  lemma MatchesSettled(c: Catalog, enabled: set<Id>, id: Id, stack: seq<Id>, s: Search, w: Walk)
    requires Matches(c, enabled, s, w) && s.visiting == stack + [id]
    ensures Matches(c, enabled, Popped(s.(resolved := s.resolved + {id}, finished := s.finished + [id])),
                    Walk(stack, w.finished + {id}, w.backs))
  {
    assert s.visiting[..|s.visiting| - 1] == stack;
  }

  lemma {:induction false} FollowsExpansion(c: Catalog, enabled: set<Id>, id: Id, required: bool, s: Search, w: Walk)
    requires RequiredUsable(c, enabled) && Sane(c, enabled, s) && Matches(c, enabled, s, w)
    requires Expands(c, enabled, id, s) && Hinted(Explore(c, enabled, id, required, w).backs)
    ensures var (s', ok) := Visit(c, enabled, id, s);
            ok && id in s'.resolved && Matches(c, enabled, s', Explore(c, enabled, id, required, w))
    decreases |Unstacked(c, s)|, 0, 0
  {
    StackShrinks(c, s, id);
    FreeShrinks(c, w, id);
    PushedSane(c, enabled, id, s);
    var p, v := Pushed(s, id), Entered(w, id);
    var v1 := ExploreAll(c, enabled, c[id].required, true, v);
    var v2 := ExploreAll(c, enabled, c[id].optional, false, v1);
    ExploreAllAdds(c, enabled, c[id].optional, false, v1);
    HintedBefore(v1.backs, v2.backs);
    RequiredSane(c, enabled, id, c[id].required, p);
    FollowsRequired(c, enabled, id, c[id].required, p, v);
    var s1 := VisitRequired(c, enabled, id, c[id].required, p).0;
    FollowsOptional(c, enabled, c[id].optional, s1, v1);
    MatchesSettled(c, enabled, id, s.visiting, VisitOptional(c, enabled, c[id].optional, s1), v2);
  }

  lemma {:induction false} FollowsVisit(c: Catalog, enabled: set<Id>, id: Id, required: bool, s: Search, w: Walk)
    requires RequiredUsable(c, enabled) && Sane(c, enabled, s) && Matches(c, enabled, s, w)
    requires (required ==> Usable(c, enabled, id)) && Hinted(Explore(c, enabled, id, required, w).backs)
    ensures var (s', ok) := Visit(c, enabled, id, s);
            && Matches(c, enabled, s', Explore(c, enabled, id, required, w)) && (required ==> ok)
            && (Usable(c, enabled, id) && id !in s.visiting ==> id in s'.resolved)
    decreases |Unstacked(c, s)|, 0, 1
  {
    if Expands(c, enabled, id, s) {
      FollowsExpansion(c, enabled, id, required, s, w);
    } else {
      FollowsLeaf(c, enabled, id, required, s, w);
    }
  }

  lemma {:induction false} FollowsRequired(c: Catalog, enabled: set<Id>, id: Id, deps: seq<Id>, s: Search, w: Walk)
    requires RequiredUsable(c, enabled) && Sane(c, enabled, s) && Matches(c, enabled, s, w) && id in s.visiting
    requires forall d :: d in deps ==> Usable(c, enabled, d)
    requires Hinted(ExploreAll(c, enabled, deps, true, w).backs)
    ensures var (s', ok) := VisitRequired(c, enabled, id, deps, s);
            ok && Matches(c, enabled, s', ExploreAll(c, enabled, deps, true, w))
    decreases |Unstacked(c, s)|, 1, |deps|
  {
    if deps != [] {
      var w1 := Explore(c, enabled, deps[0], true, w);
      ExploreAllAdds(c, enabled, deps[1..], true, w1);
      HintedBefore(w1.backs, ExploreAll(c, enabled, deps, true, w).backs);
      FollowsVisit(c, enabled, deps[0], true, s, w);
      VisitSane(c, enabled, deps[0], s);
      FollowsRequired(c, enabled, id, deps[1..], Visit(c, enabled, deps[0], s).0, w1);
    }
  }

  lemma {:induction false} FollowsOptional(c: Catalog, enabled: set<Id>, deps: seq<Id>, s: Search, w: Walk)
    requires RequiredUsable(c, enabled) && Sane(c, enabled, s) && Matches(c, enabled, s, w)
    requires Hinted(ExploreAll(c, enabled, deps, false, w).backs)
    ensures var s' := VisitOptional(c, enabled, deps, s);
            && Matches(c, enabled, s', ExploreAll(c, enabled, deps, false, w)) && s.resolved <= s'.resolved
            && forall d :: d in deps && Usable(c, enabled, d) && d !in s.visiting ==> d in s'.resolved
    decreases |Unstacked(c, s)|, 1, |deps|
  {
    if deps != [] {
      var w1 := Explore(c, enabled, deps[0], false, w);
      ExploreAllAdds(c, enabled, deps[1..], false, w1);
      HintedBefore(w1.backs, ExploreAll(c, enabled, deps, false, w).backs);
      FollowsVisit(c, enabled, deps[0], false, s, w);
      VisitSane(c, enabled, deps[0], s);
      FollowsOptional(c, enabled, deps[1..], Visit(c, enabled, deps[0], s).0, w1);
    }
  }

  // ---------------------------------------------------------------- without a hint it stumbles

  /** A required edge back without a hint is refused. */
  lemma StumblesLeaf(c: Catalog, enabled: set<Id>, id: Id, required: bool, s: Search, w: Walk)
    requires Matches(c, enabled, s, w) && !Expands(c, enabled, id, s)
    requires !Hinted(Explore(c, enabled, id, required, w).backs)
    ensures !Visit(c, enabled, id, s).1 && required && id in s.visiting
  {
    assert Usable(c, enabled, id) && id in w.stack && id !in w.finished;
    HintedOnce(w.backs, Back(id, required));
  }

  lemma TaintOfRefusal(c: Catalog, enabled: set<Id>, id: Id, s: Search, s1: Search)
    requires Sane(c, enabled, s) && Expands(c, enabled, id, s)
    requires VisitRequired(c, enabled, id, c[id].required, Pushed(s, id)) == (s1, false)
    ensures Tainted(Visit(c, enabled, id, s).0)
  {
    PushedSane(c, enabled, id, s);
    RequiredSane(c, enabled, id, c[id].required, Pushed(s, id));
    var s' := Visit(c, enabled, id, s).0;
    assert s1.visiting == s.visiting + [id] && s'.visiting == s.visiting;
    assert id in Pushed(s, id).expanded;
    assert id in s'.expanded && id !in s'.visiting && id !in s'.resolved;
  }

  lemma TaintOfPart(c: Catalog, enabled: set<Id>, id: Id, s: Search, s1: Search, s2: Search)
    requires Expands(c, enabled, id, s) && Tainted(s2)
    requires VisitRequired(c, enabled, id, c[id].required, Pushed(s, id)) == (s1, true)
    requires s2 == VisitOptional(c, enabled, c[id].optional, s1)
    ensures Tainted(Visit(c, enabled, id, s).0)
  {
    var s' := Visit(c, enabled, id, s).0;
    assert s2.visiting == s.visiting + [id] && s'.visiting == s.visiting;
    var y :| y in s2.expanded && y !in s2.visiting && y !in s2.resolved;
    assert y in s'.expanded && y !in s'.visiting && y !in s'.resolved;
  }

  lemma {:induction false} StumblesExpansion(c: Catalog, enabled: set<Id>, id: Id, required: bool, s: Search, w: Walk)
    requires RequiredUsable(c, enabled) && Sane(c, enabled, s) && Matches(c, enabled, s, w)
    requires Expands(c, enabled, id, s) && !Hinted(Explore(c, enabled, id, required, w).backs)
    ensures Tainted(Visit(c, enabled, id, s).0)
    decreases |Unstacked(c, s)|, 0, 0
  {
    StackShrinks(c, s, id);
    FreeShrinks(c, w, id);
    PushedSane(c, enabled, id, s);
    var p, v := Pushed(s, id), Entered(w, id);
    var v1 := ExploreAll(c, enabled, c[id].required, true, v);
    var (s1, ok) := VisitRequired(c, enabled, id, c[id].required, p);
    RequiredSane(c, enabled, id, c[id].required, p);
    OptionalSane(c, enabled, c[id].optional, s1);
    var s2 := VisitOptional(c, enabled, c[id].optional, s1);
    if Hinted(v1.backs) {
      FollowsRequired(c, enabled, id, c[id].required, p, v);
      StumblesOptional(c, enabled, c[id].optional, s1, v1);
      TaintOfPart(c, enabled, id, s, s1, s2);
    } else {
      StumblesRequired(c, enabled, id, c[id].required, p, v);
      if ok {
        TaintStays(s1, s2);
        TaintOfPart(c, enabled, id, s, s1, s2);
      } else {
        TaintOfRefusal(c, enabled, id, s, s1);
      }
    }
  }

  lemma {:induction false} StumblesVisit(c: Catalog, enabled: set<Id>, id: Id, required: bool, s: Search, w: Walk)
    requires RequiredUsable(c, enabled) && Sane(c, enabled, s) && Matches(c, enabled, s, w)
    requires !Hinted(Explore(c, enabled, id, required, w).backs)
    ensures var (s', ok) := Visit(c, enabled, id, s); Tainted(s') || (!ok && required)
    decreases |Unstacked(c, s)|, 0, 1
  {
    if Expands(c, enabled, id, s) {
      StumblesExpansion(c, enabled, id, required, s, w);
    } else {
      StumblesLeaf(c, enabled, id, required, s, w);
    }
  }

  lemma {:induction false} StumblesRequired(c: Catalog, enabled: set<Id>, id: Id, deps: seq<Id>, s: Search, w: Walk)
    requires RequiredUsable(c, enabled) && Sane(c, enabled, s) && Matches(c, enabled, s, w) && id in s.visiting
    requires forall d :: d in deps ==> Usable(c, enabled, d)
    requires !Hinted(ExploreAll(c, enabled, deps, true, w).backs)
    ensures var (s', ok) := VisitRequired(c, enabled, id, deps, s); ok ==> Tainted(s')
    decreases |Unstacked(c, s)|, 1, |deps|
  {
    if deps != [] {
      var w1 := Explore(c, enabled, deps[0], true, w);
      var (s1, ok) := Visit(c, enabled, deps[0], s);
      VisitSane(c, enabled, deps[0], s);
      if Hinted(w1.backs) {
        FollowsVisit(c, enabled, deps[0], true, s, w);
        StumblesRequired(c, enabled, id, deps[1..], s1, w1);
      } else {
        StumblesVisit(c, enabled, deps[0], true, s, w);
        if ok {
          RequiredSane(c, enabled, id, deps[1..], s1);
          TaintStays(s1, VisitRequired(c, enabled, id, deps[1..], s1).0);
        }
      }
    }
  }

  lemma {:induction false} StumblesOptional(c: Catalog, enabled: set<Id>, deps: seq<Id>, s: Search, w: Walk)
    requires RequiredUsable(c, enabled) && Sane(c, enabled, s) && Matches(c, enabled, s, w)
    requires !Hinted(ExploreAll(c, enabled, deps, false, w).backs)
    ensures Tainted(VisitOptional(c, enabled, deps, s))
    decreases |Unstacked(c, s)|, 1, |deps|
  {
    if deps != [] {
      var w1 := Explore(c, enabled, deps[0], false, w);
      var s1 := Visit(c, enabled, deps[0], s).0;
      VisitSane(c, enabled, deps[0], s);
      if Hinted(w1.backs) {
        FollowsVisit(c, enabled, deps[0], false, s, w);
        StumblesOptional(c, enabled, deps[1..], s1, w1);
      } else {
        StumblesVisit(c, enabled, deps[0], false, s, w);
        OptionalSane(c, enabled, deps[1..], s1);
        TaintStays(s1, VisitOptional(c, enabled, deps[1..], s1));
      }
    }
  }

  // ---------------------------------------------------------------- the whole search

  lemma {:induction false} CandidatesAreOptional(c: Catalog, enabled: set<Id>, ids: seq<Id>, s: Search)
    ensures VisitCandidates(c, enabled, {}, ids, s) == VisitOptional(c, enabled, ids, s)
    decreases |ids|
  {
    if ids != [] {
      CandidatesAreOptional(c, enabled, ids[1..], Visit(c, enabled, ids[0], s).0);
    }
  }

  lemma StartMatches(c: Catalog, enabled: set<Id>)
    ensures Sane(c, enabled, START) && Matches(c, enabled, START, Walk([], {}, []))
  {
  }

  lemma HintedIsComplete(c: Catalog, enabled: set<Id>)
    requires RequiredUsable(c, enabled) && Hinted(WholeWalk(c, enabled).backs)
    ensures Complete(c, enabled, Searched(c, enabled, {}))
  {
    var ids := KeyOrder(c.Keys);
    StartMatches(c, enabled);
    CandidatesAreOptional(c, enabled, ids, START);
    CandidatesSane(c, enabled, {}, ids, START);
    FollowsOptional(c, enabled, ids, START, Walk([], {}, []));
  }

  lemma UnhintedIsIncomplete(c: Catalog, enabled: set<Id>)
    requires RequiredUsable(c, enabled) && !Hinted(WholeWalk(c, enabled).backs)
    ensures !Complete(c, enabled, Searched(c, enabled, {}))
  {
    var ids := KeyOrder(c.Keys);
    StartMatches(c, enabled);
    CandidatesAreOptional(c, enabled, ids, START);
    CandidatesSane(c, enabled, {}, ids, START);
    StumblesOptional(c, enabled, ids, START, Walk([], {}, []));
  }

  /** The exact condition, for every catalog: resolution is complete if and only if the required
      ids of usable ids are usable, and in the plain walk each required edge back to an id on
      the stack comes after an optional edge back to it, which the memo then takes for
      satisfied. */
  lemma CompleteExactlyWhenHinted(c: Catalog, enabled: set<Id>)
    ensures Complete(c, enabled, Searched(c, enabled, {}))
       <==> RequiredUsable(c, enabled) && Hinted(WholeWalk(c, enabled).backs)
  {
    if Complete(c, enabled, Searched(c, enabled, {})) {
      CompleteMeansUsable(c, enabled);
    }
    if RequiredUsable(c, enabled) {
      if Hinted(WholeWalk(c, enabled).backs) {
        HintedIsComplete(c, enabled);
      } else {
        UnhintedIsIncomplete(c, enabled);
      }
    }
  }
}
