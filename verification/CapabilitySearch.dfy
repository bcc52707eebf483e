/** The depth-first search of capability resolution (`resolve` and its nested `visit`).

    Identifiers are names; a name is a number so that the maps' key order is the order
    of numbers.  A catalog entry's provider is left out: the search never reads it. */
module CapabilitySearch {
  import opened Common

  type Id = nat

  datatype Descriptor = Descriptor(id: Id, required: seq<Id>, optional: seq<Id>)
  type Catalog = map<Id, Descriptor>

  datatype Reason =
    | Disabled
    | NotSelected
    | MissingRequired(missing: Id)
    | DependencyUnavailable(dependency: Id)
    | Cycle(path: seq<Id>)

  /** The tables of one search.  `expanded` and `finished` log the order in which ids are
      pushed on the visiting stack and resolved; the code keeps no such logs. */
  datatype Search = Search(
    unavailable: map<Id, Reason>, resolved: set<Id>, visiting: seq<Id>, expanded: seq<Id>, finished: seq<Id>)

  const START := Search(map[], {}, [], [], [])

  /** An empty enable set enables everything. */
  predicate Enabled(enabled: set<Id>, id: Id) {
    enabled == {} || id in enabled
  }

  predicate Usable(c: Catalog, enabled: set<Id>, id: Id) {
    id in c && Enabled(enabled, id)
  }

  function Unstacked(c: Catalog, s: Search): set<Id> {
    set x | x in c && x !in s.visiting
  }

  function Position(stack: seq<Id>, id: Id): (p: nat)
    requires id in stack
    ensures p < |stack| && stack[p] == id
  {
    if stack[0] == id then 0 else Position(stack[1..], id) + 1
  }

  function Pushed(s: Search, id: Id): Search {
    s.(visiting := s.visiting + [id], expanded := s.expanded + [id])
  }

  function Popped(s: Search): Search
    requires s.visiting != []
  {
    s.(visiting := s.visiting[..|s.visiting| - 1])
  }

  function Recorded(s: Search, id: Id, reason: Reason): Search {
    s.(unavailable := s.unavailable[id := reason])
  }

  /** The memo branch accepts an id recorded as missing, dependency-unavailable or cyclic. */
  predicate MemoAccepts(reason: Reason) {
    reason != Disabled && reason != NotSelected
  }

  function Visit(c: Catalog, enabled: set<Id>, id: Id, s: Search): (r: (Search, bool))
    ensures r.0.visiting == s.visiting
    decreases |Unstacked(c, s)|, 0, 0
  {
    if id in s.resolved then (s, true)
    else if id in s.unavailable then (s, MemoAccepts(s.unavailable[id]))
    else if id in s.visiting then
      (Recorded(s, id, Cycle(s.visiting[Position(s.visiting, id)..] + [id])), false)
    else if id !in c then (Recorded(s, id, MissingRequired(id)), false)
    else if !Enabled(enabled, id) then (Recorded(s, id, Disabled), false)
    else
      StackShrinks(c, s, id);
      var (s1, ok) := VisitRequired(c, enabled, id, c[id].required, Pushed(s, id));
      if !ok then (Popped(s1), false)
      else
        var s2 := VisitOptional(c, enabled, c[id].optional, s1);
        (Popped(s2.(resolved := s2.resolved + {id}, finished := s2.finished + [id])), true)
  }

  function VisitRequired(c: Catalog, enabled: set<Id>, id: Id, deps: seq<Id>, s: Search): (r: (Search, bool))
    ensures r.0.visiting == s.visiting
    decreases |Unstacked(c, s)|, 1, |deps|
  {
    if deps == [] then (s, true)
    else
      var (s1, ok) := Visit(c, enabled, deps[0], s);
      if !ok then (Recorded(s1, id, DependencyUnavailable(deps[0])), false)
      else VisitRequired(c, enabled, id, deps[1..], s1)
  }

  function VisitOptional(c: Catalog, enabled: set<Id>, deps: seq<Id>, s: Search): (r: Search)
    ensures r.visiting == s.visiting
    decreases |Unstacked(c, s)|, 1, |deps|
  {
    if deps == [] then s
    else VisitOptional(c, enabled, deps[1..], Visit(c, enabled, deps[0], s).0)
  }

  lemma StackShrinks(c: Catalog, s: Search, id: Id)
    requires id in c && id !in s.visiting
    ensures |Unstacked(c, Pushed(s, id))| < |Unstacked(c, s)|
  {
    assert Unstacked(c, s) == Unstacked(c, Pushed(s, id)) + {id};
  }

  /** The candidate loop: unselected ids are recorded, the rest visited, in key order. */
  function VisitCandidates(c: Catalog, enabled: set<Id>, selected: set<Id>, ids: seq<Id>, s: Search): Search
    decreases |ids|
  {
    if ids == [] then s
    else
      var s1 := if selected != {} && ids[0] !in selected then Recorded(s, ids[0], NotSelected)
                else Visit(c, enabled, ids[0], s).0;
      VisitCandidates(c, enabled, selected, ids[1..], s1)
  }

  function Searched(c: Catalog, enabled: set<Id>, selected: set<Id>): Search {
    VisitCandidates(c, enabled, selected, KeyOrder(c.Keys), START)
  }

  /** The search as the code runs it, over tables it updates while recursing. */
  class Resolver {
    const capabilities: Catalog
    const enabled: set<Id>
    var unavailable: map<Id, Reason>
    var resolved: set<Id>
    var visiting: seq<Id>
    ghost var expanded: seq<Id>
    ghost var finished: seq<Id>

    ghost function View(): Search
      reads this
    {
      Search(unavailable, resolved, visiting, expanded, finished)
    }

    constructor (capabilities: Catalog, enabled: set<Id>)
      ensures this.capabilities == capabilities && this.enabled == enabled && View() == START
    {
      this.capabilities, this.enabled := capabilities, enabled;
      unavailable, resolved, visiting := map[], {}, [];
      expanded, finished := [], [];
    }

    method VisitId(id: Id) returns (ok: bool)
      modifies this
      ensures (View(), ok) == Visit(capabilities, enabled, id, old(View()))
      decreases |Unstacked(capabilities, View())|
    {
      if id in resolved {
        return true;
      }
      if id in unavailable {
        return MemoAccepts(unavailable[id]);
      }
      if id in visiting {
        unavailable := unavailable[id := Cycle(visiting[Position(visiting, id)..] + [id])];
        return false;
      }
      if id !in capabilities {
        unavailable := unavailable[id := MissingRequired(id)];
        return false;
      }
      if enabled != {} && id !in enabled {
        unavailable := unavailable[id := Disabled];
        return false;
      }
      StackShrinks(capabilities, View(), id);
      ghost var before := View();
      visiting, expanded := visiting + [id], expanded + [id];
      ghost var pushed := View();
      var required, optional := capabilities[id].required, capabilities[id].optional;
      ok := true;
      var n := 0;
      while n < |required|
        invariant 0 <= n <= |required| && visiting == pushed.visiting
        invariant VisitRequired(capabilities, enabled, id, required, pushed)
               == VisitRequired(capabilities, enabled, id, required[n..], View())
      {
        var found := VisitId(required[n]);
        if !found {
          unavailable := unavailable[id := DependencyUnavailable(required[n])];
          ok := false;
          break;
        }
        assert required[n..][1..] == required[n + 1..];
        n := n + 1;
      }
      if ok {
        ghost var settled := View();
        n := 0;
        while n < |optional|
          invariant 0 <= n <= |optional| && visiting == pushed.visiting
          invariant VisitOptional(capabilities, enabled, optional, settled)
                 == VisitOptional(capabilities, enabled, optional[n..], View())
        {
          var _ := VisitId(optional[n]);
          assert optional[n..][1..] == optional[n + 1..];
          n := n + 1;
        }
        resolved, finished := resolved + {id}, finished + [id];
      }
      visiting := visiting[..|visiting| - 1];
    }

    method VisitAll(selected: set<Id>)
      requires View() == START
      modifies this
      ensures View() == Searched(capabilities, enabled, selected)
    {
      var candidates := KeyOrder(capabilities.Keys);
      for n := 0 to |candidates|
        invariant Searched(capabilities, enabled, selected)
               == VisitCandidates(capabilities, enabled, selected, candidates[n..], View())
      {
        var id := candidates[n];
        if selected != {} && id !in selected {
          unavailable := unavailable[id := NotSelected];
        } else {
          var _ := VisitId(id);
        }
        assert candidates[n..][1..] == candidates[n + 1..];
      }
    }
  }
}
