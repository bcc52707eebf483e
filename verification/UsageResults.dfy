/** Which number of a usage is which: every counter, by its own name. */
module UsageResults {
  import opened Common
  import opened Usage

  /** What some reading of the reports adds up to: nothing unless every request has it and the
      sum fits. */
  function Exact(requests: seq<Option<ProviderUsage>>, reading: ProviderUsage -> Count): Option<nat> {
    if requests == [] then Some(0)
    else
      var n := |requests| - 1;
      var (before, last) := (Exact(requests[..n], reading), requests[n]);
      if before.None? || last.None? || reading(last.value).None? then None
      else
        var sum := before.value + reading(last.value).value;
        if sum <= U64_MAX then Some(sum) else None
  }

  ghost predicate Reads(field: Field, reading: ProviderUsage -> Count) {
    forall u :: Select(u, field) == reading(u)
  }

  lemma AllReportedSnoc(front: seq<Option<ProviderUsage>>, last: Option<ProviderUsage>, field: Field)
    ensures AllReported(front + [last], field) <==> AllReported(front, field) && Reported(last, field).Some?
  {
    var all := front + [last];
    assert all[|front|] == last && forall i :: 0 <= i < |front| ==> all[i] == front[i];
    if AllReported(all, field) {
      forall i | 0 <= i < |front| ensures Reported(front[i], field).Some? {
        assert Reported(all[i], field).Some?;
      }
    }
  }

  lemma {:induction false} ExactIsComplete(requests: seq<Option<ProviderUsage>>, field: Field,
                                           reading: ProviderUsage -> Count)
    requires Reads(field, reading)
    ensures Exact(requests, reading) == CompleteSum(requests, field)
    decreases |requests|
  {
    if requests != [] {
      var n := |requests| - 1;
      ExactIsComplete(requests[..n], field, reading);
      assert requests == requests[..n] + [requests[n]];
      AllReportedSnoc(requests[..n], requests[n], field);
    }
  }

  /** The affinities that are reported, in order. */
  function Affinities(requests: seq<Option<ProviderUsage>>): seq<Affinity> {
    if requests == [] then []
    else
      (if requests[0].Some? && requests[0].value.affinity.Some? then [requests[0].value.affinity.value] else [])
      + Affinities(requests[1..])
  }

  lemma {:induction false} AffinitiesAre(requests: seq<Option<ProviderUsage>>)
    ensures Affinities(requests) == AffinitiesOf(requests)
    decreases |requests|
  {
    if requests != [] {
      AffinitiesAre(requests[1..]);
      AffinitiesConcat([requests[0]], requests[1..]);
      assert requests == [requests[0]] + requests[1..];
      assert [requests[0]][..0] == [];
      assert AffinitiesOf([requests[0]]) == Affinities([requests[0]]);
      assert [requests[0]][1..] == [];
    }
  }

  lemma InputsExactly(requests: seq<Option<ProviderUsage>>)
    requires |requests| <= U64_MAX
    ensures UsageOf(requests).input == Exact(requests, (r: ProviderUsage) => r.input)
    ensures UsageOf(requests).cachedInput == Exact(requests, (r: ProviderUsage) => r.cachedInput)
  {
    ExactIsComplete(requests, Input, (r: ProviderUsage) => r.input);
    ExactIsComplete(requests, CachedInput, (r: ProviderUsage) => r.cachedInput);
  }

  lemma WritesExactly(requests: seq<Option<ProviderUsage>>)
    requires |requests| <= U64_MAX
    ensures UsageOf(requests).cacheWriteInput == Exact(requests, (r: ProviderUsage) => r.cacheWriteInput)
    ensures UsageOf(requests).output == Exact(requests, (r: ProviderUsage) => r.output)
  {
    ExactIsComplete(requests, CacheWriteInput, (r: ProviderUsage) => r.cacheWriteInput);
    ExactIsComplete(requests, Output, (r: ProviderUsage) => r.output);
  }

  lemma WorkExactly(requests: seq<Option<ProviderUsage>>)
    requires |requests| <= U64_MAX
    ensures UsageOf(requests).reasoning == Exact(requests, (r: ProviderUsage) => r.reasoning)
    ensures UsageOf(requests).tool == Exact(requests, (r: ProviderUsage) => r.tool)
  {
    ExactIsComplete(requests, Reasoning, (r: ProviderUsage) => r.reasoning);
    ExactIsComplete(requests, Tool, (r: ProviderUsage) => r.tool);
  }

  lemma TotalsExactly(requests: seq<Option<ProviderUsage>>)
    requires |requests| <= U64_MAX
    ensures UsageOf(requests).total == Exact(requests, (r: ProviderUsage) => r.total)
    ensures UsageOf(requests).cost == Exact(requests, (r: ProviderUsage) => r.cost)
  {
    ExactIsComplete(requests, TotalTokens, (r: ProviderUsage) => r.total);
    ExactIsComplete(requests, Cost, (r: ProviderUsage) => r.cost);
  }

  lemma SizesExactly(requests: seq<Option<ProviderUsage>>)
    requires |requests| <= U64_MAX
    ensures UsageOf(requests).promptBytes == Exact(requests, (r: ProviderUsage) => r.promptBytes)
    ensures UsageOf(requests).toolSchemaBytes == Exact(requests, (r: ProviderUsage) => r.toolSchemaBytes)
  {
    ExactIsComplete(requests, PromptBytes, (r: ProviderUsage) => r.promptBytes);
    ExactIsComplete(requests, ToolSchemaBytes, (r: ProviderUsage) => r.toolSchemaBytes);
  }

  /** A turn's usage, counter by counter; and the first sixty-four affinities. */
  lemma TurnUsageExactly(requests: seq<Option<ProviderUsage>>)
    requires |requests| <= U64_MAX
    ensures var u := UsageOf(requests);
            && u.input == Exact(requests, (r: ProviderUsage) => r.input)
            && u.cachedInput == Exact(requests, (r: ProviderUsage) => r.cachedInput)
            && u.cacheWriteInput == Exact(requests, (r: ProviderUsage) => r.cacheWriteInput)
            && u.output == Exact(requests, (r: ProviderUsage) => r.output)
            && u.reasoning == Exact(requests, (r: ProviderUsage) => r.reasoning)
            && u.tool == Exact(requests, (r: ProviderUsage) => r.tool)
            && u.total == Exact(requests, (r: ProviderUsage) => r.total)
            && u.cost == Exact(requests, (r: ProviderUsage) => r.cost)
            && u.promptBytes == Exact(requests, (r: ProviderUsage) => r.promptBytes)
            && u.toolSchemaBytes == Exact(requests, (r: ProviderUsage) => r.toolSchemaBytes)
            && u.requests == |requests|
            && |u.affinities| == Min(|Affinities(requests)|, 64) && u.affinities <= Affinities(requests)
  {
    InputsExactly(requests);
    WritesExactly(requests);
    WorkExactly(requests);
    TotalsExactly(requests);
    SizesExactly(requests);
    AffinitiesAre(requests);
  }

  /** m has both counts added up, or nothing if one is missing or they do not fit. */
  predicate AddsUp(a: Count, b: Count, m: Count) {
    if a.Some? && b.Some? && a.value + b.value <= 0xFFFF_FFFF_FFFF_FFFF then
      m.Some? && m.value == a.value + b.value
    else m.None?
  }

  /** Merging, counter by counter; requests stop at the top of the range. */
  lemma MergeExactly(a: TurnUsage, b: TurnUsage)
    ensures var m := Merge(a, b);
            && AddsUp(a.input, b.input, m.input) && AddsUp(a.cachedInput, b.cachedInput, m.cachedInput)
            && AddsUp(a.cacheWriteInput, b.cacheWriteInput, m.cacheWriteInput) && AddsUp(a.output, b.output, m.output)
            && AddsUp(a.reasoning, b.reasoning, m.reasoning) && AddsUp(a.tool, b.tool, m.tool)
            && AddsUp(a.total, b.total, m.total) && AddsUp(a.cost, b.cost, m.cost)
            && AddsUp(a.promptBytes, b.promptBytes, m.promptBytes)
            && AddsUp(a.toolSchemaBytes, b.toolSchemaBytes, m.toolSchemaBytes)
            && (if a.requests + b.requests <= 0xFFFF_FFFF_FFFF_FFFF then m.requests == a.requests + b.requests
                else m.requests == 0xFFFF_FFFF_FFFF_FFFF)
  {
  }

  /** c' is c after one more turn's count: saturated, and no longer complete if it had none. */
  predicate Counts(c: Counter, count: Count, c': Counter) {
    && c'.value == (if count.None? then c.value
                    else if c.value + count.value <= 0xFFFF_FFFF_FFFF_FFFF then c.value + count.value
                    else 0xFFFF_FFFF_FFFF_FFFF)
    && (c'.complete <==> c.complete && count.Some?)
  }

  /** Observing a turn, counter by counter. */
  lemma ObservationExactly(s: SessionView, u: TurnUsage)
    ensures var s' := ObserveTurn(s, u);
            && Counts(s.input, u.input, s'.input) && Counts(s.cachedInput, u.cachedInput, s'.cachedInput)
            && Counts(s.cacheWriteInput, u.cacheWriteInput, s'.cacheWriteInput) && Counts(s.output, u.output, s'.output)
            && Counts(s.reasoning, u.reasoning, s'.reasoning) && Counts(s.tool, u.tool, s'.tool)
            && Counts(s.total, u.total, s'.total) && Counts(s.cost, u.cost, s'.cost)
            && s'.turns == Min(s.turns + 1, 0xFFFF_FFFF_FFFF_FFFF)
            && s'.requests == Min(s.requests + u.requests, 0xFFFF_FFFF_FFFF_FFFF)
  {
  }
}
