/** When the result is closed under `required`, for catalogs without optional edges: the exact
    condition.  A recorded id refuses only who finds it first, so each id that cannot be
    satisfied needs a requirement of its own to be refused over. */
module CapabilityClosure {
  import opened Common
  import opened CapabilitySearch
  import opened CapabilityProperties
  import opened CapabilityHints

  // ---------------------------------------------------------------- what can be satisfied

  /** `sat` is what can be satisfied: ids that are usable and require only lower ones of `sat`,
      and every usable id that requires only ids of `sat`. */
  ghost predicate Grounded(c: Catalog, enabled: set<Id>, sat: set<Id>, rank: map<Id, nat>) {
    && sat <= rank.Keys
    && (forall x :: x in sat ==> Usable(c, enabled, x))
    && (forall x, d :: x in sat && d in c[x].required ==> d in sat && rank[d] < rank[x])
    && (forall x :: Usable(c, enabled, x) && (forall d :: d in c[x].required ==> d in sat) ==> x in sat)
  }

  /** All of Grounded but the last clause. */
  ghost predicate Founded(c: Catalog, enabled: set<Id>, sat: set<Id>, rank: map<Id, nat>) {
    && sat <= rank.Keys
    && (forall x :: x in sat ==> Usable(c, enabled, x))
    && (forall x, d :: x in sat && d in c[x].required ==> d in sat && rank[d] < rank[x])
    && (forall x :: x in sat ==> rank[x] < |sat|)
  }

  lemma FoundedWithOneMore(c: Catalog, enabled: set<Id>, sat: set<Id>, rank: map<Id, nat>, x: Id)
    requires Founded(c, enabled, sat, rank) && Usable(c, enabled, x) && x !in sat
    requires forall d :: d in c[x].required ==> d in sat
    ensures Founded(c, enabled, sat + {x}, rank[x := |sat|])
  {
    assert |sat + {x}| == |sat| + 1;
  }

  lemma {:induction false} Grow(c: Catalog, enabled: set<Id>, sat: set<Id>, rank: map<Id, nat>)
    returns (sat': set<Id>, rank': map<Id, nat>)
    requires Founded(c, enabled, sat, rank)
    ensures Grounded(c, enabled, sat', rank')
    decreases c.Keys - sat
  {
    if x :| Usable(c, enabled, x) && x !in sat && forall d :: d in c[x].required ==> d in sat {
      assert x in c.Keys - sat;
      FoundedWithOneMore(c, enabled, sat, rank, x);
      sat', rank' := Grow(c, enabled, sat + {x}, rank[x := |sat|]);
    } else {
      sat', rank' := sat, rank;
    }
  }

  /** What can be satisfied exists. */
  lemma SatisfiableExists(c: Catalog, enabled: set<Id>)
    ensures exists sat, rank :: Grounded(c, enabled, sat, rank)
  {
    var sat, rank := Grow(c, enabled, {}, map[]);
  }

  lemma {:induction false} SatisfiableInBoth(c: Catalog, enabled: set<Id>, sat: set<Id>, rank: map<Id, nat>,
                                             sat': set<Id>, rank': map<Id, nat>, x: Id)
    requires Grounded(c, enabled, sat, rank) && Grounded(c, enabled, sat', rank') && x in sat
    ensures x in sat'
    decreases rank[x]
  {
    forall d | d in c[x].required ensures d in sat' {
      SatisfiableInBoth(c, enabled, sat, rank, sat', rank', d);
    }
  }

  /** And only one set is it. */
  lemma SatisfiableIsUnique(c: Catalog, enabled: set<Id>, sat: set<Id>, rank: map<Id, nat>, sat': set<Id>,
                            rank': map<Id, nat>)
    requires Grounded(c, enabled, sat, rank) && Grounded(c, enabled, sat', rank')
    ensures sat == sat'
  {
    forall x | x in sat ensures x in sat' {
      SatisfiableInBoth(c, enabled, sat, rank, sat', rank', x);
    }
    forall x | x in sat' ensures x in sat {
      SatisfiableInBoth(c, enabled, sat', rank', sat, rank, x);
    }
  }

  // ---------------------------------------------------------------- chasing a reason

  predicate Barred(c: Catalog, enabled: set<Id>, id: Id) {
    id in c && !Enabled(enabled, id)
  }

  /** The first requirement that is neither satisfiable nor used. */
  function FirstUnused(deps: seq<Id>, done: set<Id>): (d: Option<Id>)
    ensures d.Some? ==> d.value in deps && d.value !in done
    ensures d.None? <==> forall x :: x in deps ==> x in done
  {
    if deps == [] then None
    else if deps[0] !in done then Some(deps[0])
    else FirstUnused(deps[1..], done)
  }

  function Ahead(c: Catalog, path: seq<Id>): set<Id> {
    set x | x in c && x !in path
  }

  lemma AheadShrinks(c: Catalog, path: seq<Id>, id: Id)
    requires id in c && id !in path
    ensures |Ahead(c, path + [id])| < |Ahead(c, path)|
  {
    assert Ahead(c, path) == Ahead(c, path + [id]) + {id};
  }

  /** What is used up by refusing `id`: it follows first unused requirements down to a disabled
      id, a missing one, or one on the way.  None if some id on the way has none. */
  function Chase(c: Catalog, enabled: set<Id>, sat: set<Id>, used: set<Id>, id: Id, path: seq<Id>): Option<set<Id>>
    requires id in c && id !in path
    decreases |Ahead(c, path)|
  {
    match FirstUnused(c[id].required, sat + used)
    case None => None
    case Some(d) =>
      if Barred(c, enabled, d) then Some({id})
      else if d !in c || d in path + [id] then Some({id, d})
      else
        AheadShrinks(c, path, id);
        match Chase(c, enabled, sat, used, d, path + [id])
        case None => None
        case Some(more) => Some({id} + more)
  }

  /** Every chase ends, for the ids in turn. */
  predicate AllChased(c: Catalog, enabled: set<Id>, sat: set<Id>, used: set<Id>, ids: seq<Id>)
    decreases |ids|
  {
    if ids == [] then true
    else if ids[0] in sat + used || !Usable(c, enabled, ids[0]) then AllChased(c, enabled, sat, used, ids[1..])
    else
      match Chase(c, enabled, sat, used, ids[0], [])
      case None => false
      case Some(more) => AllChased(c, enabled, sat, used + more, ids[1..])
  }

  // ---------------------------------------------------------------- the satisfiable resolve

  ghost predicate Apart(sat: set<Id>, s: Search) {
    forall x :: x in s.unavailable ==> x !in sat
  }

  /** A step that only resolves satisfiable ids. */
  ghost predicate Settles(sat: set<Id>, s: Search, s': Search) {
    s'.unavailable == s.unavailable && s.resolved <= s'.resolved <= s.resolved + sat && s'.visiting == s.visiting
  }

  lemma {:induction false} SatVisit(c: Catalog, enabled: set<Id>, sat: set<Id>, rank: map<Id, nat>, id: Id, s: Search)
    requires NoOptional(c) && Grounded(c, enabled, sat, rank) && Apart(sat, s) && id in sat
    requires forall v :: v in s.visiting && v in sat ==> rank[v] > rank[id]
    ensures var (s', ok) := Visit(c, enabled, id, s); ok && id in s'.resolved && Settles(sat, s, s')
    decreases |Unstacked(c, s)|, 0, 0
  {
    if id !in s.resolved {
      assert id !in s.visiting && Usable(c, enabled, id);
      StackShrinks(c, s, id);
      var p := Pushed(s, id);
      SatRequired(c, enabled, sat, rank, id, c[id].required, p);
      var s1 := VisitRequired(c, enabled, id, c[id].required, p).0;
      assert VisitOptional(c, enabled, c[id].optional, s1) == s1;
      assert s1.visiting[..|s1.visiting| - 1] == s.visiting;
    }
  }

  lemma {:induction false} SatRequired(c: Catalog, enabled: set<Id>, sat: set<Id>, rank: map<Id, nat>, id: Id,
                                       deps: seq<Id>, s: Search)
    requires NoOptional(c) && Grounded(c, enabled, sat, rank) && Apart(sat, s)
    requires forall d :: d in deps ==> d in sat && forall v :: v in s.visiting && v in sat ==> rank[v] > rank[d]
    ensures var (s', ok) := VisitRequired(c, enabled, id, deps, s); ok && Settles(sat, s, s')
    decreases |Unstacked(c, s)|, 1, |deps|
  {
    if deps != [] {
      SatVisit(c, enabled, sat, rank, deps[0], s);
      SatRequired(c, enabled, sat, rank, id, deps[1..], Visit(c, enabled, deps[0], s).0);
    }
  }

  // ---------------------------------------------------------------- the search follows the chase

  /** So far only satisfiable ids resolved, and the others that were met are recorded: the used
      ones for good, the disabled ones to refuse again. */
  ghost predicate Tracks(c: Catalog, enabled: set<Id>, sat: set<Id>, used: set<Id>, s: Search) {
    && Apart(sat, s) && s.resolved <= sat
    && (forall x :: x in used ==> !Barred(c, enabled, x) && x !in sat)
    && (forall x :: x !in sat && !Barred(c, enabled, x) ==> (x in s.unavailable <==> x in used))
    && (forall x :: x in s.unavailable ==>
          if Barred(c, enabled, x) then s.unavailable[x] == Disabled else MemoAccepts(s.unavailable[x]))
  }

  /** Between two requirements: nothing on the stack is satisfiable or used. */
  ghost predicate Scanning(c: Catalog, enabled: set<Id>, sat: set<Id>, used: set<Id>, s: Search) {
    && Sane(c, enabled, s) && Tracks(c, enabled, sat, used, s)
    && forall v :: v in s.visiting ==> v !in sat && v !in used
  }

  /** x resolved without d, which cannot resolve any more. */
  ghost predicate Broken(c: Catalog, s: Search, x: Id, d: Id) {
    && x in s.resolved && x in c && d in c[x].required && d !in s.resolved && d !in s.visiting
    && (d in c ==> d in s.expanded)
  }

  ghost predicate Breaks(c: Catalog, s: Search) {
    exists x, d :: Broken(c, s, x, d)
  }

  lemma BreakStays(c: Catalog, enabled: set<Id>, s: Search, s': Search)
    requires Breaks(c, s) && Extends(s, s') && Sane(c, enabled, s')
    ensures Breaks(c, s')
  {
    var x, d :| Broken(c, s, x, d);
    assert d in s'.resolved ==> Usable(c, enabled, d);
    assert Broken(c, s', x, d);
  }

  lemma SettledTracks(c: Catalog, enabled: set<Id>, sat: set<Id>, used: set<Id>, s: Search, s': Search)
    requires Tracks(c, enabled, sat, used, s) && Settles(sat, s, s')
    ensures Tracks(c, enabled, sat, used, s')
  {
  }

  /** Satisfiable and used requirements are passed over. */
  lemma PassedOver(c: Catalog, enabled: set<Id>, sat: set<Id>, rank: map<Id, nat>, used: set<Id>, d: Id, s: Search)
    requires NoOptional(c) && Grounded(c, enabled, sat, rank) && Scanning(c, enabled, sat, used, s)
    requires d in sat + used
    ensures var (s', ok) := Visit(c, enabled, d, s);
            ok && Scanning(c, enabled, sat, used, s') && Settles(sat, s, s')
  {
    VisitSane(c, enabled, d, s);
    if d in sat {
      SatVisit(c, enabled, sat, rank, d, s);
      SettledTracks(c, enabled, sat, used, s, Visit(c, enabled, d, s).0);
    }
  }

  /** When every requirement is passed over. */
  lemma {:induction false} AllPassedOver(c: Catalog, enabled: set<Id>, sat: set<Id>, rank: map<Id, nat>, used: set<Id>,
                                         id: Id, deps: seq<Id>, s: Search)
    requires NoOptional(c) && Grounded(c, enabled, sat, rank) && Scanning(c, enabled, sat, used, s)
    requires FirstUnused(deps, sat + used) == None
    ensures var (s', ok) := VisitRequired(c, enabled, id, deps, s);
            ok && Scanning(c, enabled, sat, used, s') && Settles(sat, s, s')
    decreases |deps|
  {
    if deps != [] {
      PassedOver(c, enabled, sat, rank, used, deps[0], s);
      AllPassedOver(c, enabled, sat, rank, used, id, deps[1..], Visit(c, enabled, deps[0], s).0);
    }
  }

  /** The scan up to the first unused requirement d leaves the state in which d is visited. */
  lemma {:induction false} ScanTo(c: Catalog, enabled: set<Id>, sat: set<Id>, rank: map<Id, nat>, used: set<Id>,
                                  id: Id, deps: seq<Id>, s: Search) returns (s1: Search, rest: seq<Id>)
    requires NoOptional(c) && Grounded(c, enabled, sat, rank) && Scanning(c, enabled, sat, used, s)
    requires FirstUnused(deps, sat + used).Some?
    ensures var d := FirstUnused(deps, sat + used).value;
            && Scanning(c, enabled, sat, used, s1) && Extends(s, s1)
            && VisitRequired(c, enabled, id, deps, s) == VisitRequired(c, enabled, id, [d] + rest, s1)
    decreases |deps|
  {
    if deps[0] !in sat + used {
      s1, rest := s, deps[1..];
      assert deps == [deps[0]] + rest;
    } else {
      PassedOver(c, enabled, sat, rank, used, deps[0], s);
      VisitSane(c, enabled, deps[0], s);
      var s0 := Visit(c, enabled, deps[0], s).0;
      s1, rest := ScanTo(c, enabled, sat, rank, used, id, deps[1..], s0);
      ExtendsFurther(s, s0, s1);
    }
  }

  /** An unused requirement that is disabled, missing or on the stack refuses. */
  lemma EndRefuses(c: Catalog, enabled: set<Id>, sat: set<Id>, used: set<Id>, d: Id, s: Search)
    requires Scanning(c, enabled, sat, used, s) && d !in sat + used
    requires Barred(c, enabled, d) || d !in c || d in s.visiting
    ensures var (s', ok) := Visit(c, enabled, d, s);
            !ok && Tracks(c, enabled, sat, if Barred(c, enabled, d) then used else used + {d}, s')
  {
  }

  lemma RefusedOver(c: Catalog, enabled: set<Id>, id: Id, d: Id, rest: seq<Id>, s1: Search, s2: Search)
    requires Visit(c, enabled, d, s1) == (s2, false)
    ensures VisitRequired(c, enabled, id, [d] + rest, s1) == (Recorded(s2, id, DependencyUnavailable(d)), false)
  {
    assert ([d] + rest)[0] == d;
  }

  /** A used id is dead. */
  lemma UsedIsDead(c: Catalog, enabled: set<Id>, sat: set<Id>, used: set<Id>, s: Search, d: Id)
    requires Scanning(c, enabled, sat, used, s) && d in used
    ensures d !in s.resolved && d !in s.visiting && (d in c ==> d in s.expanded)
  {
    assert d in s.unavailable;
    assert d in c ==> Usable(c, enabled, d);
  }

  lemma SettledState(c: Catalog, enabled: set<Id>, id: Id, s: Search, s1: Search)
    requires NoOptional(c) && Expands(c, enabled, id, s)
    requires VisitRequired(c, enabled, id, c[id].required, Pushed(s, id)) == (s1, true)
    ensures var s' := Visit(c, enabled, id, s).0;
            s'.visiting == s.visiting && s'.resolved == s1.resolved + {id} && s'.expanded == s1.expanded
  {
    assert VisitOptional(c, enabled, c[id].optional, s1) == s1;
    assert s1.visiting[..|s1.visiting| - 1] == s.visiting;
  }

  lemma ScanningPushed(c: Catalog, enabled: set<Id>, sat: set<Id>, used: set<Id>, id: Id, s: Search)
    requires Scanning(c, enabled, sat, used, s) && Expands(c, enabled, id, s) && id !in sat + used
    ensures Scanning(c, enabled, sat, used, Pushed(s, id))
  {
    PushedSane(c, enabled, id, s);
  }

  /** An id with no unused requirement resolves, and breaks closure. */
  lemma ResolvesWrongly(c: Catalog, enabled: set<Id>, sat: set<Id>, rank: map<Id, nat>, used: set<Id>, id: Id,
                        s: Search)
    requires NoOptional(c) && Grounded(c, enabled, sat, rank) && Scanning(c, enabled, sat, used, s)
    requires Expands(c, enabled, id, s) && id !in sat + used
    requires FirstUnused(c[id].required, sat + used) == None
    ensures Breaks(c, Visit(c, enabled, id, s).0)
  {
    var p := Pushed(s, id);
    ScanningPushed(c, enabled, sat, used, id, s);
    AllPassedOver(c, enabled, sat, rank, used, id, c[id].required, p);
    var s1 := VisitRequired(c, enabled, id, c[id].required, p).0;
    SettledState(c, enabled, id, s, s1);
    var d :| d in c[id].required && d !in sat;
    UsedIsDead(c, enabled, sat, used, s1, d);
    assert Broken(c, Visit(c, enabled, id, s).0, id, d);
  }

  /** A break below an id stays when the id is done. */
  lemma BreakThroughPop(c: Catalog, enabled: set<Id>, id: Id, s: Search, s1: Search, ok: bool)
    requires NoOptional(c) && Expands(c, enabled, id, s) && Breaks(c, s1)
    requires VisitRequired(c, enabled, id, c[id].required, Pushed(s, id)) == (s1, ok)
    ensures Breaks(c, Visit(c, enabled, id, s).0)
  {
    var x, d :| Broken(c, s1, x, d);
    assert s1.visiting == s.visiting + [id];
    if ok {
      SettledState(c, enabled, id, s, s1);
    }
    assert Broken(c, Visit(c, enabled, id, s).0, x, d);
  }

  /** What follows a requirement extends what it left. */
  lemma RestExtends(c: Catalog, enabled: set<Id>, id: Id, d: Id, rest: seq<Id>, s1: Search)
    requires Sane(c, enabled, s1) && id in s1.visiting
    ensures var (s2, s3) := (Visit(c, enabled, d, s1).0, VisitRequired(c, enabled, id, [d] + rest, s1).0);
            Extends(s2, s3) && Sane(c, enabled, s3)
  {
    var (s2, ok) := Visit(c, enabled, d, s1);
    VisitSane(c, enabled, d, s1);
    assert ([d] + rest)[0] == d && ([d] + rest)[1..] == rest;
    if ok {
      RequiredSane(c, enabled, id, rest, s2);
    } else {
      RefusedSane(c, enabled, id, d, s2);
    }
  }

  lemma RefusalTracks(c: Catalog, enabled: set<Id>, sat: set<Id>, used: set<Id>, id: Id, d: Id, s: Search, s2: Search)
    requires Expands(c, enabled, id, s) && id !in sat && Tracks(c, enabled, sat, used, s2)
    requires VisitRequired(c, enabled, id, c[id].required, Pushed(s, id))
             == (Recorded(s2, id, DependencyUnavailable(d)), false)
    ensures var (s', ok) := Visit(c, enabled, id, s); !ok && Tracks(c, enabled, sat, used + {id}, s')
  {
  }

  /** The first unused requirement ends the chase. */
  lemma EndOfChase(c: Catalog, enabled: set<Id>, sat: set<Id>, used: set<Id>, id: Id, d: Id, rest: seq<Id>,
                   s: Search, s1: Search)
    requires Expands(c, enabled, id, s) && id !in sat && Scanning(c, enabled, sat, used, s1) && d !in sat + used
    requires Barred(c, enabled, d) || d !in c || d in s1.visiting
    requires VisitRequired(c, enabled, id, c[id].required, Pushed(s, id))
             == VisitRequired(c, enabled, id, [d] + rest, s1)
    ensures var (s', ok) := Visit(c, enabled, id, s);
            !ok && Tracks(c, enabled, sat, used + (if Barred(c, enabled, d) then {id} else {id, d}), s')
  {
    EndRefuses(c, enabled, sat, used, d, s1);
    var s2 := Visit(c, enabled, d, s1).0;
    RefusedOver(c, enabled, id, d, rest, s1, s2);
    var used2 := if Barred(c, enabled, d) then used else used + {d};
    RefusalTracks(c, enabled, sat, used2, id, d, s, s2);
    assert used2 + {id} == used + (if Barred(c, enabled, d) then {id} else {id, d});
  }

  /** A break below breaks the whole. */
  lemma BreakBelow(c: Catalog, enabled: set<Id>, id: Id, d: Id, rest: seq<Id>, s: Search, s1: Search)
    requires NoOptional(c) && Expands(c, enabled, id, s) && Sane(c, enabled, s1) && id in s1.visiting
    requires VisitRequired(c, enabled, id, c[id].required, Pushed(s, id))
             == VisitRequired(c, enabled, id, [d] + rest, s1)
    requires Breaks(c, Visit(c, enabled, d, s1).0)
    ensures Breaks(c, Visit(c, enabled, id, s).0)
  {
    var (s3, ok) := VisitRequired(c, enabled, id, [d] + rest, s1);
    RestExtends(c, enabled, id, d, rest, s1);
    BreakStays(c, enabled, Visit(c, enabled, d, s1).0, s3);
    BreakThroughPop(c, enabled, id, s, s3, ok);
  }

  /** A refusal below refuses the whole. */
  lemma RefusalBelow(c: Catalog, enabled: set<Id>, sat: set<Id>, used: set<Id>, more: set<Id>, id: Id, d: Id,
                     rest: seq<Id>, s: Search, s1: Search)
    requires Expands(c, enabled, id, s) && id !in sat
    requires VisitRequired(c, enabled, id, c[id].required, Pushed(s, id))
             == VisitRequired(c, enabled, id, [d] + rest, s1)
    requires !Visit(c, enabled, d, s1).1 && Tracks(c, enabled, sat, used + more, Visit(c, enabled, d, s1).0)
    ensures var (s', ok) := Visit(c, enabled, id, s); !ok && Tracks(c, enabled, sat, used + ({id} + more), s')
  {
    var s2 := Visit(c, enabled, d, s1).0;
    RefusedOver(c, enabled, id, d, rest, s1, s2);
    RefusalTracks(c, enabled, sat, used + more, id, d, s, s2);
    assert used + more + {id} == used + ({id} + more);
  }

  /** The search refuses what the chase ends for, using up the same ids; where the chase fails,
      closure breaks for good. */
  lemma {:induction false} ChaseFollows(c: Catalog, enabled: set<Id>, sat: set<Id>, rank: map<Id, nat>, used: set<Id>,
                                        id: Id, s: Search)
    requires NoOptional(c) && Grounded(c, enabled, sat, rank) && Scanning(c, enabled, sat, used, s)
    requires Expands(c, enabled, id, s) && id !in sat + used
    ensures var (s', ok) := Visit(c, enabled, id, s);
            match Chase(c, enabled, sat, used, id, s.visiting)
            case None => Breaks(c, s')
            case Some(more) => !ok && Tracks(c, enabled, sat, used + more, s')
    decreases |Unstacked(c, s)|
  {
    var p, first := Pushed(s, id), FirstUnused(c[id].required, sat + used);
    ScanningPushed(c, enabled, sat, used, id, s);
    if first.None? {
      ResolvesWrongly(c, enabled, sat, rank, used, id, s);
    } else {
      var d := first.value;
      var s1, rest := ScanTo(c, enabled, sat, rank, used, id, c[id].required, p);
      if Barred(c, enabled, d) || d !in c || d in s1.visiting {
        EndOfChase(c, enabled, sat, used, id, d, rest, s, s1);
      } else {
        StackShrinks(c, s, id);
        assert Unstacked(c, s1) == Unstacked(c, p);
        UnusedExpands(c, enabled, sat, used, d, s1);
        ChaseFollows(c, enabled, sat, rank, used, d, s1);
        match Chase(c, enabled, sat, used, d, s1.visiting)
        case None => BreakBelow(c, enabled, id, d, rest, s, s1);
        case Some(more) => RefusalBelow(c, enabled, sat, used, more, id, d, rest, s, s1);
      }
    }
  }

  lemma UnusedExpands(c: Catalog, enabled: set<Id>, sat: set<Id>, used: set<Id>, d: Id, s: Search)
    requires Scanning(c, enabled, sat, used, s) && d !in sat + used && Usable(c, enabled, d) && d !in s.visiting
    ensures Expands(c, enabled, d, s)
  {
  }

  // ---------------------------------------------------------------- the whole search

  lemma DisabledRoot(c: Catalog, enabled: set<Id>, sat: set<Id>, used: set<Id>, id: Id, s: Search)
    requires Scanning(c, enabled, sat, used, s) && Barred(c, enabled, id) && id !in sat
    ensures Scanning(c, enabled, sat, used, Visit(c, enabled, id, s).0)
  {
    VisitSane(c, enabled, id, s);
    assert id in s.visiting ==> Usable(c, enabled, id);
  }

  lemma {:induction false} RootsFollow(c: Catalog, enabled: set<Id>, sat: set<Id>, rank: map<Id, nat>, used: set<Id>,
                                       ids: seq<Id>, s: Search)
    requires NoOptional(c) && Grounded(c, enabled, sat, rank) && Scanning(c, enabled, sat, used, s)
    requires s.visiting == [] && forall x :: x in ids ==> x in c
    ensures var s' := VisitOptional(c, enabled, ids, s);
            if AllChased(c, enabled, sat, used, ids) then s'.resolved <= sat && Apart(sat, s') else Breaks(c, s')
    decreases |ids|
  {
    if ids != [] {
      var id, s1 := ids[0], Visit(c, enabled, ids[0], s).0;
      VisitSane(c, enabled, id, s);
      if id in sat + used {
        PassedOver(c, enabled, sat, rank, used, id, s);
        RootsFollow(c, enabled, sat, rank, used, ids[1..], s1);
      } else if !Usable(c, enabled, id) {
        DisabledRoot(c, enabled, sat, used, id, s);
        RootsFollow(c, enabled, sat, rank, used, ids[1..], s1);
      } else {
        ChaseFollows(c, enabled, sat, rank, used, id, s);
        var found := Chase(c, enabled, sat, used, id, []);
        if found.None? {
          OptionalSane(c, enabled, ids[1..], s1);
          BreakStays(c, enabled, s1, VisitOptional(c, enabled, ids[1..], s1));
        } else {
          RootsFollow(c, enabled, sat, rank, used + found.value, ids[1..], s1);
        }
      }
    }
  }

  /** No resolved id requires an unresolved one. */
  ghost predicate RequiredResolved(c: Catalog, s: Search) {
    forall x, d :: x in s.resolved && x in c && d in c[x].required ==> d in s.resolved
  }

  lemma ApartIsClosed(c: Catalog, enabled: set<Id>, sat: set<Id>, rank: map<Id, nat>, s: Search)
    requires Grounded(c, enabled, sat, rank) && s.resolved <= sat && Apart(sat, s)
    requires forall x :: x in c ==> Known(s, x)
    ensures RequiredResolved(c, s) && s.resolved == sat
  {
  }

  /** The search from its start, with the chases in key order. */
  lemma SearchFollows(c: Catalog, enabled: set<Id>, sat: set<Id>, rank: map<Id, nat>, s: Search)
    requires NoOptional(c) && Grounded(c, enabled, sat, rank) && s == Searched(c, enabled, {})
    ensures forall x :: x in c ==> Known(s, x)
    ensures if AllChased(c, enabled, sat, {}, KeyOrder(c.Keys)) then s.resolved <= sat && Apart(sat, s)
            else Breaks(c, s)
  {
    StartIsScanning(c, enabled, sat);
    CandidatesAreOptional(c, enabled, KeyOrder(c.Keys), START);
    CandidatesSane(c, enabled, {}, KeyOrder(c.Keys), START);
    RootsFollow(c, enabled, sat, rank, {}, KeyOrder(c.Keys), START);
  }

  lemma BrokenIsOpen(c: Catalog, enabled: set<Id>, sat: set<Id>, rank: map<Id, nat>, s: Search)
    requires Grounded(c, enabled, sat, rank) && Breaks(c, s)
    ensures !RequiredResolved(c, s) && s.resolved != sat
  {
    var x, d :| Broken(c, s, x, d);
    assert x in sat ==> d in sat;
  }

  /** The exact condition for closure, without optional edges and with nothing deselected: no
      resolved id lacks a required one if and only if, in key order, every id that cannot be
      satisfied and was not used finds its way, along first unused requirements, to a disabled
      id, a missing one or a cycle; and if and only if exactly what can be satisfied resolves. */
  lemma ClosedExactlyWhenChased(c: Catalog, enabled: set<Id>, sat: set<Id>, rank: map<Id, nat>)
    requires NoOptional(c) && Grounded(c, enabled, sat, rank)
    ensures RequiredResolved(c, Searched(c, enabled, {})) <==> AllChased(c, enabled, sat, {}, KeyOrder(c.Keys))
    ensures RequiredResolved(c, Searched(c, enabled, {})) <==> Searched(c, enabled, {}).resolved == sat
  {
    var s := Searched(c, enabled, {});
    SearchFollows(c, enabled, sat, rank, s);
    if AllChased(c, enabled, sat, {}, KeyOrder(c.Keys)) {
      ApartIsClosed(c, enabled, sat, rank, s);
    } else {
      BrokenIsOpen(c, enabled, sat, rank, s);
    }
  }

  lemma StartIsScanning(c: Catalog, enabled: set<Id>, sat: set<Id>)
    ensures Scanning(c, enabled, sat, {}, START)
  {
  }
}
