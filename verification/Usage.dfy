/** Usage accounting: what providers report per request, summed per turn, merged across
    tranches and observed by a session.

    Counts are u64.  A request affinity is an opaque digest, here a number. */
module Usage {
  import opened Common

  type Count = Option<U64>
  type Affinity = nat

  const MAX_AFFINITIES: nat := 64

  datatype ProviderUsage = ProviderUsage(
    input: Count, cachedInput: Count, cacheWriteInput: Count, output: Count, reasoning: Count, tool: Count,
    total: Count, cost: Count, promptBytes: Count, toolSchemaBytes: Count, affinity: Option<Affinity>)

  datatype TurnUsage = TurnUsage(
    input: Count, cachedInput: Count, cacheWriteInput: Count, output: Count, reasoning: Count, tool: Count,
    total: Count, cost: Count, promptBytes: Count, toolSchemaBytes: Count, requests: U64, affinities: seq<Affinity>)

  // ---------------------------------------------------------------- counts

  function CheckedAdd(a: U64, b: U64): Count {
    if a + b <= U64_MAX then Some(a + b) else None
  }

  /** `merge_count`. */
  function MergeCount(left: Count, right: Count): Count {
    if left.Some? && right.Some? then CheckedAdd(left.value, right.value) else None
  }

  lemma MergeCountAssociates(a: Count, b: Count, c: Count)
    ensures MergeCount(MergeCount(a, b), c) == MergeCount(a, MergeCount(b, c))
  {
  }

  datatype Field =
    | Input | CachedInput | CacheWriteInput | Output | Reasoning | Tool | TotalTokens | Cost
    | PromptBytes | ToolSchemaBytes

  function Select(u: ProviderUsage, field: Field): Count {
    match field
    case Input => u.input
    case CachedInput => u.cachedInput
    case CacheWriteInput => u.cacheWriteInput
    case Output => u.output
    case Reasoning => u.reasoning
    case Tool => u.tool
    case TotalTokens => u.total
    case Cost => u.cost
    case PromptBytes => u.promptBytes
    case ToolSchemaBytes => u.toolSchemaBytes
  }

  /** What a request reported under `field`. */
  function Reported(request: Option<ProviderUsage>, field: Field): Count {
    if request.Some? then Select(request.value, field) else None
  }

  predicate AllReported(requests: seq<Option<ProviderUsage>>, field: Field) {
    forall i :: 0 <= i < |requests| ==> Reported(requests[i], field).Some?
  }

  /** The exact sum of what was reported. */
  function Total(requests: seq<Option<ProviderUsage>>, field: Field): nat {
    if requests == [] then 0
    else
      var last := Reported(requests[|requests| - 1], field);
      Total(requests[..|requests| - 1], field) + if last.Some? then last.value else 0
  }

  /** The complete sum: every request reported, and the total fits. */
  function CompleteSum(requests: seq<Option<ProviderUsage>>, field: Field): Count {
    if AllReported(requests, field) && Total(requests, field) <= U64_MAX then Some(Total(requests, field)) else None
  }

  lemma {:induction false} TotalGrows(requests: seq<Option<ProviderUsage>>, field: Field, n: nat)
    requires n <= |requests|
    ensures Total(requests[..n], field) <= Total(requests, field)
    decreases |requests|
  {
    if n < |requests| {
      var front := requests[..|requests| - 1];
      TotalGrows(front, field, n);
      assert front[..n] == requests[..n];
    } else {
      assert requests[..n] == requests;
    }
  }

  /** `complete_sum`: stopping at the first unreported or overflowing request is the same as
      asking whether all are reported and the whole sum fits. */
  method SumComplete(requests: seq<Option<ProviderUsage>>, field: Field) returns (sum: Count)
    ensures sum == CompleteSum(requests, field)
  {
    var total: U64 := 0;
    for i := 0 to |requests|
      invariant AllReported(requests[..i], field) && total == Total(requests[..i], field)
    {
      TotalGrows(requests, field, i + 1);
      assert requests[..i + 1][..i] == requests[..i];
      var reported := Reported(requests[i], field);
      if reported.None? {
        return None;
      }
      if total + reported.value > U64_MAX {
        return None;
      }
      total := total + reported.value;
    }
    assert requests[..|requests|] == requests;
    sum := Some(total);
  }

  lemma {:induction false} TotalConcat(xs: seq<Option<ProviderUsage>>, ys: seq<Option<ProviderUsage>>, field: Field)
    ensures Total(xs + ys, field) == Total(xs, field) + Total(ys, field)
    decreases |ys|
  {
    if ys == [] {
      assert xs + ys == xs;
    } else {
      assert (xs + ys)[..|xs + ys| - 1] == xs + ys[..|ys| - 1];
      TotalConcat(xs, ys[..|ys| - 1], field);
    }
  }

  /** The sum over both parts is the merge of their sums. */
  lemma SumsMerge(xs: seq<Option<ProviderUsage>>, ys: seq<Option<ProviderUsage>>, field: Field)
    ensures CompleteSum(xs + ys, field) == MergeCount(CompleteSum(xs, field), CompleteSum(ys, field))
  {
    TotalConcat(xs, ys, field);
    var all := xs + ys;
    assert AllReported(all, field) <==> AllReported(xs, field) && AllReported(ys, field) by {
      assert forall i :: 0 <= i < |xs| ==> all[i] == xs[i];
      assert forall i :: 0 <= i < |ys| ==> all[|xs| + i] == ys[i];
    }
  }

  // ---------------------------------------------------------------- affinities

  predicate Distinct(s: seq<Affinity>) {
    forall i, j :: 0 <= i < j < |s| ==> s[i] != s[j]
  }

  function Elements(s: seq<Affinity>): set<Affinity> {
    set x | x in s
  }

  /** What `merge_affinities` leaves of `left` and `right`. */
  function MergeAffinities(left: seq<Affinity>, right: seq<Affinity>): seq<Affinity>
    decreases |right|
  {
    if right == [] || |left| >= MAX_AFFINITIES then left
    else MergeAffinities(if right[0] in left then left else left + [right[0]], right[1..])
  }

  /** `merge_affinities`. */
  method AppendAffinities(left: seq<Affinity>, right: seq<Affinity>) returns (merged: seq<Affinity>)
    ensures merged == MergeAffinities(left, right)
  {
    merged := left;
    var i := 0;
    while i < |right|
      invariant i <= |right| && MergeAffinities(merged, right[i..]) == MergeAffinities(left, right)
    {
      if |merged| >= MAX_AFFINITIES {
        break;
      }
      var affinity := right[i];
      assert right[i..][1..] == right[i + 1..];
      if affinity !in merged {
        merged := merged + [affinity];
      }
      i := i + 1;
    }
  }

  lemma {:induction false} MergeInSteps(l: seq<Affinity>, x: seq<Affinity>, y: seq<Affinity>)
    ensures MergeAffinities(l, x + y) == MergeAffinities(MergeAffinities(l, x), y)
    decreases |x|
  {
    if x == [] {
      assert x + y == y;
    } else if |l| < MAX_AFFINITIES {
      assert (x + y)[1..] == x[1..] + y;
      MergeInSteps(if x[0] in l then l else l + [x[0]], x[1..], y);
    }
  }

  /** The left list stays, nothing foreign enters, and unless the result is full everything
      of the right list is in it. */
  lemma {:induction false} MergeContents(l: seq<Affinity>, r: seq<Affinity>)
    ensures l <= MergeAffinities(l, r)
    ensures Distinct(l) ==> Distinct(MergeAffinities(l, r))
    ensures forall x :: x in MergeAffinities(l, r) ==> x in l || x in r
    ensures |MergeAffinities(l, r)| < MAX_AFFINITIES ==> forall x :: x in r ==> x in MergeAffinities(l, r)
    ensures |MergeAffinities(l, r)| <= MAX_AFFINITIES || MergeAffinities(l, r) == l
    decreases |r|
  {
    if r != [] && |l| < MAX_AFFINITIES {
      var grown := if r[0] in l then l else l + [r[0]];
      MergeContents(grown, r[1..]);
      PrefixMembers(grown, MergeAffinities(l, r));
      assert forall x :: x in r <==> x == r[0] || x in r[1..];
    }
  }

  lemma PrefixMembers(l: seq<Affinity>, m: seq<Affinity>)
    requires l <= m
    ensures forall x :: x in l ==> x in m
  {
    forall x | x in l ensures x in m {
      var i :| 0 <= i < |l| && l[i] == x;
      assert m[i] == x;
    }
  }

  lemma {:induction false} ElementsCount(s: seq<Affinity>)
    ensures |Elements(s)| <= |s|
    ensures |Elements(s)| == |s| <==> Distinct(s)
  {
    if s != [] {
      var front, last := s[..|s| - 1], s[|s| - 1];
      ElementsCount(front);
      assert Elements(s) == Elements(front) + {last};
      if last in front {
        var i :| 0 <= i < |front| && front[i] == last;
        assert s[i] == s[|s| - 1];
        assert Elements(s) == Elements(front);
      } else if Distinct(front) {
        assert last !in Elements(front);
      } else {
        var i, j :| 0 <= i < j < |front| && front[i] == front[j];
        assert s[i] == s[j];
      }
    }
  }

  lemma {:induction false} SubsetCount(a: set<Affinity>, b: set<Affinity>)
    requires a <= b
    ensures |a| <= |b|
    decreases a
  {
    if a != {} {
      var x :| x in a;
      SubsetCount(a - {x}, b - {x});
    }
  }

  /** Sixty-four different elements on the right fill any merge. */
  lemma MergeFills(l: seq<Affinity>, r: seq<Affinity>)
    requires |Elements(r)| >= MAX_AFFINITIES
    ensures |MergeAffinities(l, r)| >= MAX_AFFINITIES
  {
    var merged := MergeAffinities(l, r);
    MergeContents(l, r);
    ElementsCount(merged);
    if |merged| < MAX_AFFINITIES {
      SubsetCount(Elements(r), Elements(merged));
    }
  }

  /** Merging an element that is already there, or into a full list, changes nothing. */
  lemma MergeKnown(l: seq<Affinity>, x: Affinity, r: seq<Affinity>)
    requires x in l || |l| >= MAX_AFFINITIES
    ensures MergeAffinities(l, [x] + r) == MergeAffinities(l, r)
  {
    assert ([x] + r)[1..] == r;
  }

  /** The middle list loses nothing to truncation that the whole would keep. */
  predicate Regular(b: seq<Affinity>) {
    Distinct(b) || |Elements(b)| >= MAX_AFFINITIES
  }

  lemma {:induction false} MergeOfMerge(a: seq<Affinity>, b: seq<Affinity>, c: seq<Affinity>)
    requires Regular(b)
    ensures MergeAffinities(a, b + c) == MergeAffinities(a, MergeAffinities(b, c))
    decreases |c|
  {
    MergeInSteps(a, b, c);
    ElementsCount(b);
    if c == [] {
      assert b + c == b;
    } else if |b| >= MAX_AFFINITIES {
      MergeFills(a, b);
    } else {
      var x, rest := c[0], c[1..];
      assert c == [x] + rest;
      if x in b {
        MergeContents(a, b);
        MergeKnown(MergeAffinities(a, b), x, rest);
        MergeInSteps(a, b, rest);
        MergeOfMerge(a, b, rest);
      } else {
        assert b + c == (b + [x]) + rest;
        MergeOfMerge(a, b + [x], rest);
      }
    }
  }

  predicate Associates(a: seq<Affinity>, b: seq<Affinity>, c: seq<Affinity>) {
    MergeAffinities(MergeAffinities(a, b), c) == MergeAffinities(a, MergeAffinities(b, c))
  }

  lemma RegularMiddlesAssociate(a: seq<Affinity>, b: seq<Affinity>, c: seq<Affinity>)
    requires Regular(b)
    ensures Associates(a, b, c)
  {
    MergeInSteps(a, b, c);
    MergeOfMerge(a, b, c);
  }

  /** An upper bound of a list. */
  function Bound(s: seq<Affinity>): (m: nat)
    ensures forall i :: 0 <= i < |s| ==> s[i] < m
  {
    if s == [] then 0 else
      var rest := Bound(s[1..]);
      if s[0] < rest then rest else s[0] + 1
  }

  function FreshAt(s: seq<Affinity>, i: nat): Affinity {
    Bound(s) + i
  }

  function Fresh(s: seq<Affinity>): seq<Affinity> {
    seq(MAX_AFFINITIES, (i: nat) => FreshAt(s, i))
  }

  lemma IrregularLosesRoom(b: seq<Affinity>, c: seq<Affinity>)
    requires !Regular(b)
    ensures |MergeAffinities([], MergeAffinities(b, c))| < MAX_AFFINITIES
  {
    var t := MergeAffinities(b, c);
    MergeContents(b, c);
    var i, j :| 0 <= i < j < |b| && b[i] == b[j];
    assert t[i] == t[j];
    ElementsCount(t);
    var u := MergeAffinities([], t);
    MergeContents([], t);
    ElementsCount(u);
    assert Elements(u) <= Elements(t);
    SubsetCount(Elements(u), Elements(t));
  }

  /** The exact condition for associativity: a list associates in the middle of every merge
      if and only if it is free of duplicates or has sixty-four different elements. */
  lemma AssociatesExactlyWhenRegular(b: seq<Affinity>)
    ensures (forall a, c :: Associates(a, b, c)) <==> Regular(b)
  {
    if Regular(b) {
      forall a, c ensures Associates(a, b, c) {
        RegularMiddlesAssociate(a, b, c);
      }
    } else {
      var c := Fresh(b);
      assert Distinct(c);
      ElementsCount(c);
      MergeFills(MergeAffinities([], b), c);
      IrregularLosesRoom(b, c);
      assert !Associates([], b, c);
    }
  }

  /** The exact condition for the left identity. */
  lemma {:induction false} EmptyIsLeftIdentityExactly(r: seq<Affinity>)
    ensures MergeAffinities([], r) == r <==> Distinct(r) && |r| <= MAX_AFFINITIES
  {
    MergeContents([], r);
    if Distinct(r) && |r| <= MAX_AFFINITIES {
      assert [] + r == r;
      MergeOfNew([], r);
    }
  }

  lemma {:induction false} MergeOfNew(l: seq<Affinity>, r: seq<Affinity>)
    requires Distinct(l + r) && |l + r| <= MAX_AFFINITIES
    ensures MergeAffinities(l, r) == l + r
    decreases |r|
  {
    if r == [] {
      assert l + r == l;
    } else {
      assert (l + r)[|l|] == r[0];
      assert forall i :: 0 <= i < |l| ==> (l + r)[i] == l[i];
      assert (l + [r[0]]) + r[1..] == l + r;
      MergeOfNew(l + [r[0]], r[1..]);
    }
  }

  // ---------------------------------------------------------------- turns

  function Empty(): TurnUsage {
    TurnUsage(Some(0), Some(0), Some(0), Some(0), Some(0), Some(0), Some(0), Some(0), Some(0), Some(0), 0, [])
  }

  function SaturatingCount(a: U64, b: U64): U64 {
    SaturatingAdd(a, b)
  }

  /** `AgentTurnUsage::merge`. */
  function Merge(a: TurnUsage, b: TurnUsage): TurnUsage {
    TurnUsage(
      MergeCount(a.input, b.input), MergeCount(a.cachedInput, b.cachedInput),
      MergeCount(a.cacheWriteInput, b.cacheWriteInput), MergeCount(a.output, b.output),
      MergeCount(a.reasoning, b.reasoning), MergeCount(a.tool, b.tool), MergeCount(a.total, b.total),
      MergeCount(a.cost, b.cost), MergeCount(a.promptBytes, b.promptBytes),
      MergeCount(a.toolSchemaBytes, b.toolSchemaBytes), SaturatingCount(a.requests, b.requests),
      MergeAffinities(a.affinities, b.affinities))
  }

  lemma CountsAssociate(a: TurnUsage, b: TurnUsage, c: TurnUsage)
    ensures var (l, r) := (Merge(Merge(a, b), c), Merge(a, Merge(b, c)));
            l == r.(affinities := l.affinities)
  {
    MergeCountAssociates(a.input, b.input, c.input);
    MergeCountAssociates(a.cachedInput, b.cachedInput, c.cachedInput);
    MergeCountAssociates(a.cacheWriteInput, b.cacheWriteInput, c.cacheWriteInput);
    MergeCountAssociates(a.output, b.output, c.output);
    MergeCountAssociates(a.reasoning, b.reasoning, c.reasoning);
    MergeCountAssociates(a.tool, b.tool, c.tool);
    MergeCountAssociates(a.total, b.total, c.total);
    MergeCountAssociates(a.cost, b.cost, c.cost);
    MergeCountAssociates(a.promptBytes, b.promptBytes, c.promptBytes);
    MergeCountAssociates(a.toolSchemaBytes, b.toolSchemaBytes, c.toolSchemaBytes);
  }

  /** Merging tranches associates around any usage with a regular affinity list, overflow and
      saturation included. */
  lemma MergeAssociates(a: TurnUsage, b: TurnUsage, c: TurnUsage)
    requires Regular(b.affinities)
    ensures Merge(Merge(a, b), c) == Merge(a, Merge(b, c))
  {
    RegularMiddlesAssociate(a.affinities, b.affinities, c.affinities);
    CountsAssociate(a, b, c);
  }

  /** `empty()` is a right identity always, and a left identity exactly on usages whose
      affinities are distinct and at most sixty-four. */
  lemma EmptyIsIdentity(u: TurnUsage)
    ensures Merge(u, Empty()) == u
    ensures Merge(Empty(), u) == u <==> Distinct(u.affinities) && |u.affinities| <= MAX_AFFINITIES
  {
    EmptyIsLeftIdentityExactly(u.affinities);
  }

  /** The affinities of the requests that report one. */
  function AffinitiesOf(requests: seq<Option<ProviderUsage>>): seq<Affinity> {
    if requests == [] then []
    else
      var front := AffinitiesOf(requests[..|requests| - 1]);
      match requests[|requests| - 1]
      case None => front
      case Some(usage) => if usage.affinity.Some? then front + [usage.affinity.value] else front
  }

  function TakeAffinities(s: seq<Affinity>): seq<Affinity> {
    s[..Min(|s|, MAX_AFFINITIES)]
  }

  /** `EventDeltaSink::usage`: what the requests of one turn add up to. */
  function UsageOf(requests: seq<Option<ProviderUsage>>): TurnUsage
    requires |requests| <= U64_MAX
  {
    TurnUsage(
      CompleteSum(requests, Input), CompleteSum(requests, CachedInput),
      CompleteSum(requests, CacheWriteInput), CompleteSum(requests, Output),
      CompleteSum(requests, Reasoning), CompleteSum(requests, Tool),
      CompleteSum(requests, TotalTokens), CompleteSum(requests, Cost),
      CompleteSum(requests, PromptBytes), CompleteSum(requests, ToolSchemaBytes),
      |requests|, TakeAffinities(AffinitiesOf(requests)))
  }

  lemma {:induction false} AffinitiesConcat(xs: seq<Option<ProviderUsage>>, ys: seq<Option<ProviderUsage>>)
    ensures AffinitiesOf(xs + ys) == AffinitiesOf(xs) + AffinitiesOf(ys)
    decreases |ys|
  {
    if ys == [] {
      assert xs + ys == xs;
    } else {
      assert (xs + ys)[..|xs + ys| - 1] == xs + ys[..|ys| - 1];
      AffinitiesConcat(xs, ys[..|ys| - 1]);
    }
  }

  /** Cutting a turn into two tranches and merging what they report changes no counter. */
  lemma TranchesMerge(xs: seq<Option<ProviderUsage>>, ys: seq<Option<ProviderUsage>>)
    requires |xs| + |ys| <= U64_MAX
    ensures var (whole, merged) := (UsageOf(xs + ys), Merge(UsageOf(xs), UsageOf(ys)));
            merged == whole.(affinities := merged.affinities)
  {
    SumsMerge(xs, ys, Input);
    SumsMerge(xs, ys, CachedInput);
    SumsMerge(xs, ys, CacheWriteInput);
    SumsMerge(xs, ys, Output);
    SumsMerge(xs, ys, Reasoning);
    SumsMerge(xs, ys, Tool);
    SumsMerge(xs, ys, TotalTokens);
    SumsMerge(xs, ys, Cost);
    SumsMerge(xs, ys, PromptBytes);
    SumsMerge(xs, ys, ToolSchemaBytes);
  }

  /** The first `n` elements of `r` are new: not in `l`, and each there for the first time. */
  predicate AllNew(l: seq<Affinity>, r: seq<Affinity>, n: nat)
    requires n <= |r|
  {
    forall i :: 0 <= i < n ==> r[i] !in l && r[i] !in r[..i]
  }

  /** How many of the right affinities fit behind the left ones. */
  function Room(l: seq<Affinity>, r: seq<Affinity>): (n: nat)
    ensures n <= |r|
  {
    Min(|r|, if |l| < MAX_AFFINITIES then MAX_AFFINITIES - |l| else 0)
  }

  lemma AllNewCons(l: seq<Affinity>, r: seq<Affinity>, n: nat)
    requires 0 < n <= |r|
    ensures AllNew(l, r, n) <==> r[0] !in l && AllNew(l + [r[0]], r[1..], n - 1)
  {
    forall i | 0 < i < n
      ensures r[i] == r[1..][i - 1]
      ensures r[i] !in l && r[i] !in r[..i] <==> r[i] !in l + [r[0]] && r[i] !in r[1..][..i - 1]
    {
      assert r[..i] == [r[0]] + r[1..][..i - 1];
    }
    if r[0] !in l && AllNew(l + [r[0]], r[1..], n - 1) {
      forall i | 0 <= i < n ensures r[i] !in l && r[i] !in r[..i] {
        if i > 0 {
          assert r[1..][i - 1] == r[i];
        }
      }
    }
  }

  /** A merge has only first appearances behind the left list. */
  lemma {:induction false} MergeAddsNew(l: seq<Affinity>, r: seq<Affinity>, i: nat)
    requires |l| <= i < |MergeAffinities(l, r)|
    ensures MergeAffinities(l, r)[i] !in MergeAffinities(l, r)[..i]
    decreases |r|
  {
    if r != [] && |l| < MAX_AFFINITIES {
      var grown := if r[0] in l then l else l + [r[0]];
      MergeContents(grown, r[1..]);
      if i >= |grown| {
        MergeAddsNew(grown, r[1..], i);
      } else {
        assert MergeAffinities(l, r)[..i] == l && MergeAffinities(l, r)[i] == r[0];
      }
    }
  }

  lemma {:induction false} MergeOfAllNew(l: seq<Affinity>, r: seq<Affinity>)
    requires AllNew(l, r, Room(l, r))
    ensures MergeAffinities(l, r) == l + r[..Room(l, r)]
    decreases |r|
  {
    var n := Room(l, r);
    if n == 0 {
      assert l + r[..0] == l;
    } else {
      AllNewCons(l, r, n);
      MergeOfAllNew(l + [r[0]], r[1..]);
      assert l + r[..n] == (l + [r[0]]) + r[1..][..n - 1];
    }
  }

  lemma NewWhenMergeIsConcat(l: seq<Affinity>, r: seq<Affinity>, i: nat)
    requires i < Room(l, r) && MergeAffinities(l, r) == l + r[..Room(l, r)]
    ensures r[i] !in l && r[i] !in r[..i]
  {
    var merged := l + r[..Room(l, r)];
    MergeAddsNew(l, r, |l| + i);
    assert merged[|l| + i] == r[i] && merged[..|l| + i] == l + r[..i];
  }

  lemma MergeIsConcatExactlyWhenNew(l: seq<Affinity>, r: seq<Affinity>)
    ensures MergeAffinities(l, r) == l + r[..Room(l, r)] <==> AllNew(l, r, Room(l, r))
  {
    if AllNew(l, r, Room(l, r)) {
      MergeOfAllNew(l, r);
    }
    if MergeAffinities(l, r) == l + r[..Room(l, r)] {
      forall i | 0 <= i < Room(l, r) ensures r[i] !in l && r[i] !in r[..i] {
        NewWhenMergeIsConcat(l, r, i);
      }
    }
  }

  /** Cutting the right list loses nothing that fits. */
  lemma CutKeepsRoom(l: seq<Affinity>, r: seq<Affinity>)
    requires |l| <= MAX_AFFINITIES
    ensures var (n, cut) := (Room(l, r), TakeAffinities(r));
            Room(l, cut) == n && cut[..n] == r[..n] && TakeAffinities(l + r) == l + r[..n]
    ensures AllNew(l, TakeAffinities(r), Room(l, r)) <==> AllNew(l, r, Room(l, r))
  {
    var n, cut := Room(l, r), TakeAffinities(r);
    forall i | 0 <= i < n ensures cut[i] == r[i] && cut[..i] == r[..i] {
    }
  }

  /** Merging is cutting the concatenation exactly when what fits is new. */
  lemma MergeCutsExactlyWhenNew(l: seq<Affinity>, r: seq<Affinity>)
    requires |l| <= MAX_AFFINITIES
    ensures MergeAffinities(l, TakeAffinities(r)) == TakeAffinities(l + r) <==> AllNew(l, r, Room(l, r))
  {
    CutKeepsRoom(l, r);
    MergeIsConcatExactlyWhenNew(l, TakeAffinities(r));
  }

  /** Merging the usages of two tranches is the usage of the whole turn if and only if the
      affinities of the second that fit behind those of the first are all new. */
  lemma TranchesMergeExactlyWhenNew(xs: seq<Option<ProviderUsage>>, ys: seq<Option<ProviderUsage>>)
    requires |xs| + |ys| <= U64_MAX
    ensures var (l, r) := (TakeAffinities(AffinitiesOf(xs)), AffinitiesOf(ys));
            UsageOf(xs + ys) == Merge(UsageOf(xs), UsageOf(ys)) <==> AllNew(l, r, Room(l, r))
  {
    var l, r := TakeAffinities(AffinitiesOf(xs)), AffinitiesOf(ys);
    TranchesMerge(xs, ys);
    AffinitiesConcat(xs, ys);
    MergeCutsExactlyWhenNew(l, r);
    CutTwice(AffinitiesOf(xs), r);
  }

  lemma CutTwice(a: seq<Affinity>, b: seq<Affinity>)
    ensures TakeAffinities(a + b) == TakeAffinities(TakeAffinities(a) + b)
  {
  }

  /** In particular it is when the turn repeats no affinity, however many there are. */
  lemma DistinctTranchesMergeExactly(xs: seq<Option<ProviderUsage>>, ys: seq<Option<ProviderUsage>>)
    requires |xs| + |ys| <= U64_MAX && Distinct(AffinitiesOf(xs) + AffinitiesOf(ys))
    ensures UsageOf(xs + ys) == Merge(UsageOf(xs), UsageOf(ys))
  {
    var a, b := AffinitiesOf(xs), AffinitiesOf(ys);
    forall i | 0 <= i < |b| ensures b[i] !in TakeAffinities(a) && b[i] !in b[..i] {
      assert (a + b)[|a| + i] == b[i];
      forall j | 0 <= j < |a| ensures a[j] != b[i] {
        assert (a + b)[j] == a[j];
      }
      forall j | 0 <= j < i ensures b[j] != b[i] {
        assert (a + b)[|a| + j] == b[j];
      }
    }
    TranchesMergeExactlyWhenNew(xs, ys);
  }

  /** A turn whose two requests share an affinity already has a usage that `empty()` does not
      preserve: the per-turn list is cut at sixty-four but never freed of duplicates. */
  lemma RepeatedAffinityIsNotPreserved(u: ProviderUsage, affinity: Affinity)
    requires u.affinity == Some(affinity)
    ensures var usage := UsageOf([Some(u), Some(u)]);
            usage.affinities == [affinity, affinity] && Merge(Empty(), usage).affinities == [affinity]
  {
    var requests := [Some(u), Some(u)];
    assert requests[..1] == [Some(u)] && requests[..1][..0] == [];
    assert AffinitiesOf(requests[..1]) == [affinity];
    assert AffinitiesOf(requests) == [affinity, affinity];
    var pair := [affinity, affinity];
    assert pair[1..] == [affinity] && [affinity][1..] == [];
    assert MergeAffinities([], pair) == MergeAffinities([affinity], [affinity]) == [affinity];
  }

  // ---------------------------------------------------------------- sessions

  datatype Counter = Counter(value: U64, complete: bool)

  /** `UsageCounter::observe`. */
  function Observed(c: Counter, observed: Count): Counter {
    match observed
    case Some(value) => Counter(SaturatingCount(c.value, value), c.complete)
    case None => Counter(c.value, false)
  }

  function ObservedAll(counts: seq<Count>): Counter {
    if counts == [] then Counter(0, true) else Observed(ObservedAll(counts[..|counts| - 1]), counts[|counts| - 1])
  }

  function MergedAll(counts: seq<Count>): Count {
    if counts == [] then Some(0) else MergeCount(MergedAll(counts[..|counts| - 1]), counts[|counts| - 1])
  }

  function Sum(counts: seq<Count>): nat {
    if counts == [] then 0
    else
      var last := counts[|counts| - 1];
      Sum(counts[..|counts| - 1]) + if last.Some? then last.value else 0
  }

  /** A session counter is the saturated sum of what was reported, and complete when all of it
      was; merging the same turns yields exactly that sum when the counter is complete and
      has not saturated past it, and nothing otherwise. */
  lemma {:induction false} SessionsCountWhatTurnsMerge(counts: seq<Count>)
    ensures ObservedAll(counts).value == Min(Sum(counts), U64_MAX)
    ensures ObservedAll(counts).complete <==> None !in counts
    ensures MergedAll(counts)
            == if ObservedAll(counts).complete && Sum(counts) <= U64_MAX then Some(Sum(counts)) else None
  {
    if counts != [] {
      var front, last := counts[..|counts| - 1], counts[|counts| - 1];
      SessionsCountWhatTurnsMerge(front);
      assert counts == front + [last];
    }
  }

  datatype SessionView = SessionView(
    turns: U64, requests: U64, input: Counter, cachedInput: Counter, cacheWriteInput: Counter, output: Counter,
    reasoning: Counter, tool: Counter, total: Counter, cost: Counter)

  class SessionUsage {
    var turns: U64
    var requests: U64
    var input: Counter
    var cachedInput: Counter
    var cacheWriteInput: Counter
    var output: Counter
    var reasoning: Counter
    var tool: Counter
    var total: Counter
    var cost: Counter

    function View(): SessionView
      reads this
    {
      SessionView(turns, requests, input, cachedInput, cacheWriteInput, output, reasoning, tool, total, cost)
    }

    constructor ()
      ensures View() == SessionAfter([])
    {
      turns, requests := 0, 0;
      input, cachedInput := Counter(0, true), Counter(0, true);
      cacheWriteInput, output := Counter(0, true), Counter(0, true);
      reasoning, tool, total, cost := Counter(0, true), Counter(0, true), Counter(0, true), Counter(0, true);
    }

    /** `SessionUsage::observe`. */
    method Observe(usage: TurnUsage)
      modifies this
      ensures View() == ObserveTurn(old(View()), usage)
    {
      turns := SaturatingCount(turns, 1);
      requests := SaturatingCount(requests, usage.requests);
      input := Observed(input, usage.input);
      cachedInput := Observed(cachedInput, usage.cachedInput);
      cacheWriteInput := Observed(cacheWriteInput, usage.cacheWriteInput);
      output := Observed(output, usage.output);
      reasoning := Observed(reasoning, usage.reasoning);
      tool := Observed(tool, usage.tool);
      total := Observed(total, usage.total);
      cost := Observed(cost, usage.cost);
    }
  }

  function ObserveTurn(s: SessionView, u: TurnUsage): SessionView {
    SessionView(
      SaturatingCount(s.turns, 1), SaturatingCount(s.requests, u.requests), Observed(s.input, u.input),
      Observed(s.cachedInput, u.cachedInput), Observed(s.cacheWriteInput, u.cacheWriteInput),
      Observed(s.output, u.output), Observed(s.reasoning, u.reasoning), Observed(s.tool, u.tool),
      Observed(s.total, u.total), Observed(s.cost, u.cost))
  }

  /** A session that has observed `us`. */
  function SessionAfter(us: seq<TurnUsage>): SessionView {
    if us == [] then
      var zero := Counter(0, true);
      SessionView(0, 0, zero, zero, zero, zero, zero, zero, zero, zero)
    else ObserveTurn(SessionAfter(us[..|us| - 1]), us[|us| - 1])
  }

  /** All of the turns, merged. */
  function MergeTurns(us: seq<TurnUsage>): TurnUsage {
    if us == [] then Empty() else Merge(MergeTurns(us[..|us| - 1]), us[|us| - 1])
  }

  /** A counter and the merged count of the same turns. */
  predicate Agrees(c: Counter, merged: Count) {
    match merged
    case Some(value) => c == Counter(value, true)
    case None => !c.complete || c.value == U64_MAX
  }

  lemma AgreesStep(c: Counter, merged: Count, next: Count)
    requires Agrees(c, merged)
    ensures Agrees(Observed(c, next), MergeCount(merged, next))
  {
  }

  /** A session's counters and the merge of its turns tell the same: where the merge has a
      count the session has it too, complete; where it has none the session is partial or at
      the top of the range. */
  lemma {:induction false} SessionsAgreeWithMerges(us: seq<TurnUsage>)
    ensures var (s, m) := (SessionAfter(us), MergeTurns(us));
            && s.requests == m.requests && s.turns == Min(|us|, U64_MAX)
            && Agrees(s.input, m.input) && Agrees(s.cachedInput, m.cachedInput)
            && Agrees(s.cacheWriteInput, m.cacheWriteInput) && Agrees(s.output, m.output)
            && Agrees(s.reasoning, m.reasoning) && Agrees(s.tool, m.tool) && Agrees(s.total, m.total)
            && Agrees(s.cost, m.cost)
  {
    if us != [] {
      var front, u := us[..|us| - 1], us[|us| - 1];
      var s, m := SessionAfter(front), MergeTurns(front);
      SessionsAgreeWithMerges(front);
      AgreesStep(s.input, m.input, u.input);
      AgreesStep(s.cachedInput, m.cachedInput, u.cachedInput);
      AgreesStep(s.cacheWriteInput, m.cacheWriteInput, u.cacheWriteInput);
      AgreesStep(s.output, m.output, u.output);
      AgreesStep(s.reasoning, m.reasoning, u.reasoning);
      AgreesStep(s.tool, m.tool, u.tool);
      AgreesStep(s.total, m.total, u.total);
      AgreesStep(s.cost, m.cost, u.cost);
    }
  }
}
