/** `pair_runs` and the verdict on two sets of runs. */
module PairRuns {
  import opened Workload
  import opened ScenarioKeys

  datatype RunPair = RunPair(baseline: ScenarioResult, comparison: ScenarioResult, workloadMatches: bool)

  datatype Issue =
    | DifferentContracts(spec: ScenarioSpec)
    | MissingFromBaseline(spec: ScenarioSpec)
    | MissingFromComparison(spec: ScenarioSpec)
    | RepeatedOnOneSide(spec: ScenarioSpec)

  predicate WorkloadMatches(a: ScenarioResult, b: ScenarioResult) {
    && a.schemaVersion == b.schemaVersion && a.profile == b.profile && a.scenario == b.scenario
    && a.serverPolicy == b.serverPolicy && a.plan == b.plan && a.offeredPackets == b.offeredPackets
    && a.offeredPayloadBytes == b.offeredPayloadBytes
  }

  /** Equal in everything but what delivery and time were measured to be. */
  predicate SameButMeasured(a: ScenarioResult, b: ScenarioResult) {
    b == a.(deliveredPackets := b.deliveredPackets, deliveredPayloadBytes := b.deliveredPayloadBytes,
            correctness := b.correctness, elapsedMs := b.elapsedMs, maxSendLagMs := b.maxSendLagMs)
  }

  /** The contract compared is the whole result except its measurements. */
  lemma ContractIsAllButMeasured(a: ScenarioResult, b: ScenarioResult)
    ensures WorkloadMatches(a, b) <==> SameButMeasured(a, b)
  {}

  function Specs(runs: seq<ScenarioResult>): (specs: seq<ScenarioSpec>)
    ensures |specs| == |runs| && forall i | 0 <= i < |runs| :: specs[i] == runs[i].scenario
  {
    seq(|runs|, i requires 0 <= i < |runs| => runs[i].scenario)
  }

  /** Runs of one specification, in order. */
  function RunsOf(runs: seq<ScenarioResult>, spec: ScenarioSpec): seq<ScenarioResult> {
    if runs == [] then []
    else
      var rest, last := RunsOf(runs[..|runs| - 1], spec), runs[|runs| - 1];
      if last.scenario == spec then rest + [last] else rest
  }

  method FilterRuns(runs: seq<ScenarioResult>, spec: ScenarioSpec) returns (found: seq<ScenarioResult>)
    ensures found == RunsOf(runs, spec)
  {
    found := [];
    for i := 0 to |runs|
      invariant found == RunsOf(runs[..i], spec)
    {
      assert runs[..i + 1][..i] == runs[..i];
      if runs[i].scenario == spec {
        found := found + [runs[i]];
      }
    }
    assert runs[..|runs|] == runs;
  }

  datatype Pairing = Pairing(pairs: seq<RunPair>, issues: seq<Issue>)

  /** What one specification contributes. */
  function Entry(baseline: seq<ScenarioResult>, comparison: seq<ScenarioResult>, spec: ScenarioSpec): Pairing {
    var b, c := RunsOf(baseline, spec), RunsOf(comparison, spec);
    if |b| == 1 && |c| == 1 then
      var matches := WorkloadMatches(b[0], c[0]);
      Pairing([RunPair(b[0], c[0], matches)], if matches then [] else [DifferentContracts(spec)])
    else if b == [] then Pairing([], [MissingFromBaseline(spec)])
    else if c == [] then Pairing([], [MissingFromComparison(spec)])
    else Pairing([], [RepeatedOnOneSide(spec)])
  }

  function Entries(baseline: seq<ScenarioResult>, comparison: seq<ScenarioResult>, specs: seq<ScenarioSpec>): Pairing {
    if specs == [] then Pairing([], [])
    else
      var rest := Entries(baseline, comparison, specs[..|specs| - 1]);
      var last := Entry(baseline, comparison, specs[|specs| - 1]);
      Pairing(rest.pairs + last.pairs, rest.issues + last.issues)
  }

  lemma NoEntries(baseline: seq<ScenarioResult>, comparison: seq<ScenarioResult>)
    ensures Entries(baseline, comparison, []) == Pairing([], [])
  {}

  lemma EntriesStep(
    baseline: seq<ScenarioResult>, comparison: seq<ScenarioResult>, specs: seq<ScenarioSpec>, i: nat)
    requires i < |specs|
    ensures var rest, own := Entries(baseline, comparison, specs[..i]), Entry(baseline, comparison, specs[i]);
      Entries(baseline, comparison, specs[..i + 1]) == Pairing(rest.pairs + own.pairs, rest.issues + own.issues)
  {
    hide Entry;
    assert specs[..i + 1][..i] == specs[..i];
  }

  /** The loop of `pair_runs` over the deduplicated specifications; `sorted` is what the unstable sort returned. */
  method PairAll(baseline: seq<ScenarioResult>, comparison: seq<ScenarioResult>, sorted: seq<ScenarioSpec>)
    returns (pairing: Pairing)
    requires SortOf(Specs(baseline) + Specs(comparison), sorted)
    ensures pairing == Entries(baseline, comparison, Dedup(sorted))
  {
    hide SortOf, WorkloadMatches, RunsOf, Dedup, Entries;
    NoEntries(baseline, comparison);
    var specs := Dedup(sorted);
    var pairs: seq<RunPair>, issues: seq<Issue> := [], [];
    for i := 0 to |specs|
      invariant Pairing(pairs, issues) == Entries(baseline, comparison, specs[..i])
    {
      EntriesStep(baseline, comparison, specs, i);
      var spec := specs[i];
      var b := FilterRuns(baseline, spec);
      var c := FilterRuns(comparison, spec);
      if |b| == 1 && |c| == 1 {
        var matches := WorkloadMatches(b[0], c[0]);
        if !matches {
          issues := issues + [DifferentContracts(spec)];
        }
        pairs := pairs + [RunPair(b[0], c[0], matches)];
      } else if b == [] {
        issues := issues + [MissingFromBaseline(spec)];
      } else if c == [] {
        issues := issues + [MissingFromComparison(spec)];
      } else {
        issues := issues + [RepeatedOnOneSide(spec)];
      }
    }
    assert specs[..|specs|] == specs;
    pairing := Pairing(pairs, issues);
  }

  // ---- each specification once ----

  function PairsOf(pairs: seq<RunPair>, spec: ScenarioSpec): seq<RunPair> {
    if pairs == [] then []
    else
      var rest, last := PairsOf(pairs[..|pairs| - 1], spec), pairs[|pairs| - 1];
      if last.baseline.scenario == spec then rest + [last] else rest
  }

  function IssuesOf(issues: seq<Issue>, spec: ScenarioSpec): seq<Issue> {
    if issues == [] then []
    else
      var rest, last := IssuesOf(issues[..|issues| - 1], spec), issues[|issues| - 1];
      if last.spec == spec then rest + [last] else rest
  }

  lemma PairsAppend(pairs: seq<RunPair>, more: seq<RunPair>, spec: ScenarioSpec)
    requires |more| <= 1
    ensures PairsOf(pairs + more, spec) == PairsOf(pairs, spec) + PairsOf(more, spec)
  {
    if more == [] {
      assert pairs + more == pairs;
    } else {
      assert (pairs + more)[..|pairs|] == pairs && more[..0] == [];
    }
  }

  lemma IssuesAppend(issues: seq<Issue>, more: seq<Issue>, spec: ScenarioSpec)
    requires |more| <= 1
    ensures IssuesOf(issues + more, spec) == IssuesOf(issues, spec) + IssuesOf(more, spec)
  {
    if more == [] {
      assert issues + more == issues;
    } else {
      assert (issues + more)[..|issues|] == issues && more[..0] == [];
    }
  }

  /** The only run of a specification is the one at this index. */
  predicate OnlyAt(runs: seq<ScenarioResult>, spec: ScenarioSpec, i: nat) {
    i < |runs| && runs[i].scenario == spec && forall k | 0 <= k < |runs| && k != i :: runs[k].scenario != spec
  }

  predicate Absent(runs: seq<ScenarioResult>, spec: ScenarioSpec) {
    forall i | 0 <= i < |runs| :: runs[i].scenario != spec
  }

  lemma OnlyAtSnoc(init: seq<ScenarioResult>, last: ScenarioResult, spec: ScenarioSpec, i: nat)
    ensures OnlyAt(init + [last], spec, i) <==>
      if i == |init| then last.scenario == spec && Absent(init, spec)
      else OnlyAt(init, spec, i) && last.scenario != spec
    ensures Absent(init + [last], spec) <==> Absent(init, spec) && last.scenario != spec
  {
    var runs := init + [last];
    assert runs[|init|] == last && forall k | 0 <= k < |init| :: runs[k] == init[k];
  }

  lemma {:induction false} RunsOfOnly(runs: seq<ScenarioResult>, spec: ScenarioSpec, i: nat)
    ensures Absent(runs, spec) ==> RunsOf(runs, spec) == []
    ensures OnlyAt(runs, spec, i) ==> RunsOf(runs, spec) == [runs[i]]
  {
    hide OnlyAt, Absent;
    if runs != [] {
      var init, last := runs[..|runs| - 1], runs[|runs| - 1];
      assert runs == init + [last];
      OnlyAtSnoc(init, last, spec, i);
      RunsOfOnly(init, spec, i);
      if OnlyAt(init, spec, i) {
        OnlyIndex(init, spec, i);
      }
    } else if OnlyAt(runs, spec, i) {
      OnlyIndex(runs, spec, i);
    }
  }

  lemma {:induction false} OnlyRunAt(runs: seq<ScenarioResult>, spec: ScenarioSpec) returns (i: nat)
    ensures RunsOf(runs, spec) == [] ==> Absent(runs, spec)
    ensures |RunsOf(runs, spec)| == 1 ==> OnlyAt(runs, spec, i)
  {
    i := 0;
    if runs != [] {
      var init, last := runs[..|runs| - 1], runs[|runs| - 1];
      assert runs == init + [last];
      var before := OnlyRunAt(init, spec);
      i := if last.scenario == spec then |init| else before;
      OnlyAtSnoc(init, last, spec, i);
      if |RunsOf(runs, spec)| == 1 && last.scenario != spec {
        OnlyIndex(init, spec, before);
      }
    }
  }

  lemma OnlyIndex(runs: seq<ScenarioResult>, spec: ScenarioSpec, i: nat)
    requires OnlyAt(runs, spec, i)
    ensures i < |runs|
  {}

  lemma OnlyRun(runs: seq<ScenarioResult>, spec: ScenarioSpec)
    ensures |RunsOf(runs, spec)| == 1 <==> exists i: nat :: OnlyAt(runs, spec, i)
    ensures forall i: nat | OnlyAt(runs, spec, i) :: i < |runs| && RunsOf(runs, spec) == [runs[i]]
    ensures RunsOf(runs, spec) == [] <==> Absent(runs, spec)
  {
    hide OnlyAt, Absent, RunsOf;
    var at := OnlyRunAt(runs, spec);
    RunsOfOnly(runs, spec, at);
    forall i: nat | OnlyAt(runs, spec, i) ensures i < |runs| && RunsOf(runs, spec) == [runs[i]] {
      OnlyIndex(runs, spec, i);
      RunsOfOnly(runs, spec, i);
    }
  }

  lemma {:induction false} RunsOfSpec(runs: seq<ScenarioResult>, spec: ScenarioSpec)
    ensures forall r | r in RunsOf(runs, spec) :: r in runs && r.scenario == spec
    ensures forall r | r in runs && r.scenario == spec :: r in RunsOf(runs, spec)
    ensures RunsOf(runs, spec) == [] <==> forall r | r in runs :: r.scenario != spec
  {
    if runs != [] {
      var init, last := runs[..|runs| - 1], runs[|runs| - 1];
      RunsOfSpec(init, spec);
      assert runs == init + [last];
    }
  }

  lemma OnePair(p: RunPair, spec: ScenarioSpec)
    ensures PairsOf([p], spec) == if p.baseline.scenario == spec then [p] else []
  {
    assert [p][..0] == [];
  }

  lemma OneIssue(issue: Issue, spec: ScenarioSpec)
    ensures IssuesOf([], spec) == [] && IssuesOf([issue], spec) == if issue.spec == spec then [issue] else []
  {
    assert [issue][..0] == [];
  }

  lemma FirstOfSpec(runs: seq<ScenarioResult>, spec: ScenarioSpec)
    ensures RunsOf(runs, spec) != [] ==> RunsOf(runs, spec)[0].scenario == spec
  {
    RunsOfSpec(runs, spec);
    hide RunsOf;
    assert RunsOf(runs, spec) != [] ==> RunsOf(runs, spec)[0] in RunsOf(runs, spec);
  }

  lemma EntryIsOwn(
    baseline: seq<ScenarioResult>, comparison: seq<ScenarioResult>, own: ScenarioSpec, spec: ScenarioSpec)
    ensures var e := Entry(baseline, comparison, own);
      && |e.pairs| <= 1 && |e.issues| <= 1
      && PairsOf(e.pairs, spec) == (if own == spec then e.pairs else [])
      && IssuesOf(e.issues, spec) == (if own == spec then e.issues else [])
  {
    hide WorkloadMatches, RunsOf, PairsOf, IssuesOf;
    FirstOfSpec(baseline, own);
    var e := Entry(baseline, comparison, own);
    var issue := if e.issues == [] then MissingFromBaseline(own) else e.issues[0];
    OneIssue(issue, spec);
    if e.pairs == [] {
      assert PairsOf([], spec) == [] by { NoneDue(spec); }
    } else {
      OnePair(e.pairs[0], spec);
      assert e.pairs == [e.pairs[0]];
    }
    assert e.issues == [] || e.issues == [issue];
  }

  lemma NoneDue(spec: ScenarioSpec)
    ensures PairsOf([], spec) == [] && IssuesOf([], spec) == []
  {}

  lemma LastIsNew(specs: seq<ScenarioSpec>)
    requires NoneTwice(specs) && specs != []
    ensures NoneTwice(specs[..|specs| - 1]) && specs[|specs| - 1] !in specs[..|specs| - 1]
  {}

  lemma {:induction false} EntriesOf(
    baseline: seq<ScenarioResult>, comparison: seq<ScenarioResult>, specs: seq<ScenarioSpec>, spec: ScenarioSpec)
    requires NoneTwice(specs)
    ensures var pairing, own := Entries(baseline, comparison, specs), Entry(baseline, comparison, spec);
      && PairsOf(pairing.pairs, spec) == (if spec in specs then own.pairs else [])
      && IssuesOf(pairing.issues, spec) == (if spec in specs then own.issues else [])
  {
    hide Entry, PairsOf, IssuesOf, NoneTwice;
    if specs == [] {
      NoneDue(spec);
    } else {
      var init, last := specs[..|specs| - 1], specs[|specs| - 1];
      assert specs == init + [last];
      LastIsNew(specs);
      EntriesOf(baseline, comparison, init, spec);
      EntryIsOwn(baseline, comparison, last, spec);
      var rest, own := Entries(baseline, comparison, init), Entry(baseline, comparison, last);
      PairsAppend(rest.pairs, own.pairs, spec);
      IssuesAppend(rest.issues, own.issues, spec);
    }
  }

  predicate Occurs(runs: seq<ScenarioResult>, spec: ScenarioSpec) {
    exists r | r in runs :: r.scenario == spec
  }

  lemma SortedOccur(baseline: seq<ScenarioResult>, comparison: seq<ScenarioResult>, sorted: seq<ScenarioSpec>,
                    spec: ScenarioSpec)
    requires SortOf(Specs(baseline) + Specs(comparison), sorted)
    ensures spec in Dedup(sorted) <==> Occurs(baseline, spec) || Occurs(comparison, spec)
  {
    hide SortedByKey, Dedup;
    DedupKeeps(sorted);
    var all := Specs(baseline) + Specs(comparison);
    assert spec in sorted <==> spec in multiset(sorted);
    assert spec in all <==> spec in multiset(all);
    SpecsOccur(baseline, spec);
    SpecsOccur(comparison, spec);
  }

  lemma SpecsOccur(runs: seq<ScenarioResult>, spec: ScenarioSpec)
    ensures spec in Specs(runs) <==> Occurs(runs, spec)
  {
    if spec in Specs(runs) {
      var i :| 0 <= i < |runs| && Specs(runs)[i] == spec;
      assert runs[i] in runs;
    }
    if Occurs(runs, spec) {
      var r :| r in runs && r.scenario == spec;
      var i :| 0 <= i < |runs| && runs[i] == r;
      assert Specs(runs)[i] == spec;
    }
  }

  ghost predicate IsOnce(runs: seq<ScenarioResult>, spec: ScenarioSpec) {
    exists i: nat :: OnlyAt(runs, spec, i)
  }

  /** What a specification is due: a pair with an issue exactly when the contracts differ, or one issue of its kind. */
  ghost predicate IsDue(
    baseline: seq<ScenarioResult>, comparison: seq<ScenarioResult>, spec: ScenarioSpec, pairs: seq<RunPair>,
    issues: seq<Issue>)
  {
    && (!Occurs(baseline, spec) && !Occurs(comparison, spec) ==> pairs == [] && issues == [])
    && (!Occurs(baseline, spec) && Occurs(comparison, spec) ==> pairs == [] && issues == [MissingFromBaseline(spec)])
    && (Occurs(baseline, spec) && !Occurs(comparison, spec) ==> pairs == [] && issues == [MissingFromComparison(spec)])
    && (forall i: nat, j: nat | OnlyAt(baseline, spec, i) && OnlyAt(comparison, spec, j) ::
          var same := SameButMeasured(baseline[i], comparison[j]);
          && pairs == [RunPair(baseline[i], comparison[j], same)]
          && issues == if same then [] else [DifferentContracts(spec)])
    && (Occurs(baseline, spec) && Occurs(comparison, spec) && !(IsOnce(baseline, spec) && IsOnce(comparison, spec)) ==>
          pairs == [] && issues == [RepeatedOnOneSide(spec)])
  }

  lemma EntryIsDue(baseline: seq<ScenarioResult>, comparison: seq<ScenarioResult>, spec: ScenarioSpec)
    requires Occurs(baseline, spec) || Occurs(comparison, spec)
    ensures var e := Entry(baseline, comparison, spec); IsDue(baseline, comparison, spec, e.pairs, e.issues)
  {
    hide WorkloadMatches, SameButMeasured, RunsOf, OnlyAt;
    OnlyRun(baseline, spec);
    OnlyRun(comparison, spec);
    RunsOfSpec(baseline, spec);
    RunsOfSpec(comparison, spec);
    forall i: nat, j: nat | OnlyAt(baseline, spec, i) && OnlyAt(comparison, spec, j)
      ensures i < |baseline| && j < |comparison|
      ensures WorkloadMatches(baseline[i], comparison[j]) <==> SameButMeasured(baseline[i], comparison[j])
    {
      ContractIsAllButMeasured(baseline[i], comparison[j]);
    }
  }

  /**
   * Pairing is complete: where repeated specifications have a key of their own, every specification gets exactly what
   * it is due, and one that occurs on neither side gets nothing.
   */
  lemma EachSpecOnce(baseline: seq<ScenarioResult>, comparison: seq<ScenarioResult>, sorted: seq<ScenarioSpec>,
                     spec: ScenarioSpec)
    requires SortOf(Specs(baseline) + Specs(comparison), sorted)
    requires RepeatsHaveOwnKey(Specs(baseline) + Specs(comparison))
    ensures var pairing := Entries(baseline, comparison, Dedup(sorted));
      IsDue(baseline, comparison, spec, PairsOf(pairing.pairs, spec), IssuesOf(pairing.issues, spec))
  {
    hide SortOf, Dedup, Entries, Entry, NoneTwice, WorkloadMatches, RepeatsHaveOwnKey, Specs, OnlyAt, SameButMeasured;
    DedupExactlyWhenKeysTell(Specs(baseline) + Specs(comparison));
    EntriesOf(baseline, comparison, Dedup(sorted), spec);
    SortedOccur(baseline, comparison, sorted, spec);
    if Occurs(baseline, spec) || Occurs(comparison, spec) {
      EntryIsDue(baseline, comparison, spec);
    } else {
      forall i: nat | OnlyAt(baseline, spec, i) ensures false {
        OnlyOccurs(baseline, spec, i);
      }
    }
  }

  lemma OnlyOccurs(runs: seq<ScenarioResult>, spec: ScenarioSpec, i: nat)
    requires OnlyAt(runs, spec, i)
    ensures Occurs(runs, spec)
  {
    assert runs[i] in runs;
  }

  // ---- the verdict ----

  predicate WorkloadsMatch(pairing: Pairing) {
    pairing.pairs != [] && pairing.issues == [] && forall p | p in pairing.pairs :: p.workloadMatches
  }

  /** Both sides have runs, and each specification has one run on each side, equal but for their measurements. */
  ghost predicate OneToOne(baseline: seq<ScenarioResult>, comparison: seq<ScenarioResult>) {
    && baseline != [] && comparison != []
    && forall spec | Occurs(baseline, spec) || Occurs(comparison, spec) :: Partners(baseline, comparison, spec)
  }

  ghost predicate Partners(baseline: seq<ScenarioResult>, comparison: seq<ScenarioResult>, spec: ScenarioSpec) {
    exists i: nat, j: nat ::
      OnlyAt(baseline, spec, i) && OnlyAt(comparison, spec, j) && SameButMeasured(baseline[i], comparison[j])
  }

  predicate MatchedAt(baseline: seq<ScenarioResult>, comparison: seq<ScenarioResult>, spec: ScenarioSpec) {
    var b, c := RunsOf(baseline, spec), RunsOf(comparison, spec);
    |b| == 1 && |c| == 1 && WorkloadMatches(b[0], c[0])
  }

  lemma MatchedArePartners(baseline: seq<ScenarioResult>, comparison: seq<ScenarioResult>, spec: ScenarioSpec)
    ensures MatchedAt(baseline, comparison, spec) <==> Partners(baseline, comparison, spec)
  {
    hide WorkloadMatches, SameButMeasured, RunsOf;
    OnlyRun(baseline, spec);
    OnlyRun(comparison, spec);
    forall i: nat, j: nat | OnlyAt(baseline, spec, i) && OnlyAt(comparison, spec, j)
      ensures WorkloadMatches(baseline[i], comparison[j]) <==> SameButMeasured(baseline[i], comparison[j])
    {
      ContractIsAllButMeasured(baseline[i], comparison[j]);
    }
  }

  lemma {:induction false} EntriesMatch(
    baseline: seq<ScenarioResult>, comparison: seq<ScenarioResult>, specs: seq<ScenarioSpec>)
    ensures var pairing := Entries(baseline, comparison, specs);
      && (pairing.issues == [] <==> forall spec | spec in specs :: MatchedAt(baseline, comparison, spec))
      && (pairing.issues == [] ==> |pairing.pairs| == |specs| && forall p | p in pairing.pairs :: p.workloadMatches)
  {
    hide WorkloadMatches, RunsOf;
    if specs != [] {
      var init, last := specs[..|specs| - 1], specs[|specs| - 1];
      EntriesMatch(baseline, comparison, init);
      assert specs == init + [last];
      assert last in specs;
    }
  }

  /**
   * The verdict holds exactly when both sides are non-empty and match one to one. It needs no assumption on the keys: a
   * specification listed twice only repeats its own pair.
   */
  lemma VerdictIsOneToOne(baseline: seq<ScenarioResult>, comparison: seq<ScenarioResult>, sorted: seq<ScenarioSpec>)
    requires SortOf(Specs(baseline) + Specs(comparison), sorted)
    ensures WorkloadsMatch(Entries(baseline, comparison, Dedup(sorted))) <==> OneToOne(baseline, comparison)
  {
    hide SortOf, Dedup, Entries, MatchedAt, Partners, Specs, Occurs;
    var specs := Dedup(sorted);
    EntriesMatch(baseline, comparison, specs);
    forall spec
      ensures spec in specs <==> Occurs(baseline, spec) || Occurs(comparison, spec)
      ensures MatchedAt(baseline, comparison, spec) <==> Partners(baseline, comparison, spec)
    {
      SortedOccur(baseline, comparison, sorted, spec);
      MatchedArePartners(baseline, comparison, spec);
    }
    if baseline != [] || comparison != [] {
      var some := if baseline != [] then baseline[0].scenario else comparison[0].scenario;
      SomeOccurs(baseline);
      SomeOccurs(comparison);
      assert some in specs;
      MatchedNeedsBoth(baseline, comparison, some);
    }
    SomeListed(baseline, comparison, specs);
  }

  lemma SomeOccurs(runs: seq<ScenarioResult>)
    ensures runs != [] ==> Occurs(runs, runs[0].scenario)
  {
    assert runs != [] ==> runs[0] in runs;
  }

  lemma MatchedNeedsBoth(baseline: seq<ScenarioResult>, comparison: seq<ScenarioResult>, spec: ScenarioSpec)
    ensures MatchedAt(baseline, comparison, spec) ==> baseline != [] && comparison != []
  {
    hide WorkloadMatches;
  }

  lemma SomeListed(baseline: seq<ScenarioResult>, comparison: seq<ScenarioResult>, specs: seq<ScenarioSpec>)
    requires forall spec | spec in specs :: Occurs(baseline, spec) || Occurs(comparison, spec)
    ensures specs != [] ==> baseline != [] || comparison != []
  {
    if specs != [] {
      assert specs[0] in specs;
    }
  }

  /** The exact-delivery verdict over two sides without load failures. */
  predicate Exact(pairing: Pairing, baselineFailures: nat, comparisonFailures: nat) {
    && WorkloadsMatch(pairing) && baselineFailures == 0 && comparisonFailures == 0
    && forall p | p in pairing.pairs ::
       p.baseline.Validates(p.baseline.scenario) && p.comparison.Validates(p.comparison.scenario)
  }

  lemma {:induction false} PairsHoldRuns(
    baseline: seq<ScenarioResult>, comparison: seq<ScenarioResult>, specs: seq<ScenarioSpec>)
    requires forall spec | spec in specs :: MatchedAt(baseline, comparison, spec)
    ensures var pairs := Entries(baseline, comparison, specs).pairs;
      && (forall p | p in pairs :: p.baseline in baseline && p.comparison in comparison)
      && (forall r | r in baseline && r.scenario in specs :: exists p | p in pairs :: p.baseline == r)
      && (forall r | r in comparison && r.scenario in specs :: exists p | p in pairs :: p.comparison == r)
  {
    hide WorkloadMatches, RunsOf;
    if specs != [] {
      var init, last := specs[..|specs| - 1], specs[|specs| - 1];
      assert specs == init + [last];
      assert last in specs;
      PairsHoldRuns(baseline, comparison, init);
      var b, c := RunsOf(baseline, last), RunsOf(comparison, last);
      RunsOfSpec(baseline, last);
      RunsOfSpec(comparison, last);
      var pairs, own := Entries(baseline, comparison, specs).pairs, Entry(baseline, comparison, last).pairs[0];
      assert own in pairs && b[0] in b && c[0] in c;
      forall r | r in baseline && r.scenario in specs ensures exists p | p in pairs :: p.baseline == r {
        if r.scenario == last {
          assert r in b;
        }
      }
      forall r | r in comparison && r.scenario in specs ensures exists p | p in pairs :: p.comparison == r {
        if r.scenario == last {
          assert r in c;
        }
      }
    }
  }

  /** Exact means: no load failure, a one-to-one match, and every run on either side, paired or not, validates. */
  lemma ExactMeansAllValidate(baseline: seq<ScenarioResult>, comparison: seq<ScenarioResult>, sorted: seq<ScenarioSpec>,
                              baselineFailures: nat, comparisonFailures: nat)
    requires SortOf(Specs(baseline) + Specs(comparison), sorted)
    ensures Exact(Entries(baseline, comparison, Dedup(sorted)), baselineFailures, comparisonFailures) <==>
      && OneToOne(baseline, comparison) && baselineFailures == 0 && comparisonFailures == 0
      && (forall r | r in baseline :: r.Validates(r.scenario)) && forall r | r in comparison :: r.Validates(r.scenario)
  {
    hide SortOf, Dedup, Entries, MatchedAt, Partners, Specs, ScenarioResult.Validates;
    VerdictIsOneToOne(baseline, comparison, sorted);
    if OneToOne(baseline, comparison) {
      var specs := Dedup(sorted);
      forall spec
        ensures spec in specs <==> Occurs(baseline, spec) || Occurs(comparison, spec)
        ensures MatchedAt(baseline, comparison, spec) <==> Partners(baseline, comparison, spec)
      {
        SortedOccur(baseline, comparison, sorted, spec);
        MatchedArePartners(baseline, comparison, spec);
      }
      PairsHoldRuns(baseline, comparison, specs);
      forall r | r in baseline ensures r.scenario in specs {
        assert Occurs(baseline, r.scenario);
      }
      forall r | r in comparison ensures r.scenario in specs {
        assert Occurs(comparison, r.scenario);
      }
    }
  }
}
