/**
 The compact baseline writer and the regression gate, with the laws that make
 gating against a stored baseline safe: compaction refines the full report, and
 a passing gate is a preorder on reports.
 */
module RegressionGate {
  import opened Sequences
  import opened Sorting
  import opened JsonFields
  import opened RegressionReport
  import opened RegressionReader
  import opened RegressionMeaning

  // ---------------------------------------------------------------- compaction

  datatype CompactError = Unreadable(problem: Problem) | NoOAuthPolicy | ShippingRegression
  datatype Compaction = Written(report: Report) | Rejected(errors: seq<CompactError>)

  function With(ids: StatusMap, st: Status): set<Identity> {
    set i | i in ids && st in ids[i]
  }

  ghost predicate ShippingFails(ids: StatusMap) {
    exists i :: Has(ids, i, Fail) && i.mode == Shipping
  }

  function ShippingFailing(ids: StatusMap): set<Identity> {
    set i | i in ids && Fail in ids[i] && i.mode == Shipping
  }

  function RecordOf(i: Identity): Raw<IdentityRecord> {
    Is(IdentityRecord(Is(i.mode), Is(Known(i.transport)), Is(i.source), Is(i.scenario), Is(i.checkId)))
  }

  function Records(ids: seq<Identity>): seq<Raw<IdentityRecord>> {
    seq(|ids|, k requires 0 <= k < |ids| => RecordOf(ids[k]))
  }

  function CompactErrors(suite: Suite, r: Report): seq<CompactError> {
    var reading := Read(suite, r);
    seq(|reading.problems|, k requires 0 <= k < |reading.problems| => Unreadable(reading.problems[k]))
    + (if r.automaticAuth.Is? then [] else [NoOAuthPolicy])
    + (if ShippingFailing(reading.identities) != {} then [ShippingRegression] else [])
  }

  function BaselineReport(suite: Suite, policy: Raw<bool>, scenarios: map<Mode, Raw<seq<string>>>,
                          passing: set<Identity>, failing: set<Identity>): Report
  {
    Report(Is(REPORT_SCHEMA_VERSION), Is(Is(true)), Is(true), policy,
           Is(OfficialMetadata(Is(suite.repository), Is(suite.gitRef), Is(true), Is(scenarios))),
           Is(COMPACT_KIND), Is(REQUIRED_MODES), Is([Known(Stdio), Known(OfficialHttp)]),
           Is(CompactChecks(Is(Records(SortedIdentities(passing))), Is(Records(SortedIdentities(failing))))),
           Missing)
  }

  function Catalogs(r: Report): map<Mode, Raw<seq<string>>>
    requires forall m: Mode :: m in Selected(r)
  {
    map m: Mode | m in {Shipping, Legacy, Modern} :: Selected(r)[m]
  }

  /** `_compact_regression_baseline`. */
  function Compact(suite: Suite, r: Report): Compaction {
    var ids := Read(suite, r).identities;
    var errors := CompactErrors(suite, r);
    if errors != [] then Rejected(errors) else
      assert forall m: Mode :: m in Selected(r) by {
        ReadIsClean(suite, r);
        forall m: Mode ensures m in Selected(r) { CleanHasCatalogs(suite, r, m); }
      }
      Written(BaselineReport(suite, r.automaticAuth, Catalogs(r), With(ids, Pass), With(ids, Fail)))
  }

  lemma CleanHasCatalogs(suite: Suite, r: Report, m: Mode)
    requires Clean(suite, r)
    ensures CleanHeader(suite, r) && CleanCatalog(suite, r, m)
  {
    if r.baselineKind.Missing? {
      assert CleanMode(suite, r, r.cases.value, m);
    }
  }

  /** A baseline is written exactly for clean reports with a recorded policy and no shipping failure. */
  lemma CompactAccepts(suite: Suite, r: Report)
    ensures Compact(suite, r).Written? <==>
            Clean(suite, r) && r.automaticAuth.Is? && !ShippingFails(Read(suite, r).identities)
  {
    ReadIsClean(suite, r);
    var ids := Read(suite, r).identities;
    ShippingFailingMeaning(ids);
  }

  function DropSkips(ids: StatusMap): StatusMap {
    map i | i in ids && ids[i] != {Skip} :: ids[i] - {Skip}
  }

  /** Every required case, and every catalog scenario over HTTP, has a check that was not skipped. */
  ghost predicate NothingOnlySkipped(suite: Suite, ids: StatusMap) {
    && (forall m: Mode, t: Transport :: CaseRan(ids, m, t))
    && (forall m: Mode, s: string :: s in suite.Catalog(m) ==> ScenarioRan(ids, m, s))
  }

  ghost predicate CaseRan(ids: StatusMap, m: Mode, t: Transport) {
    exists i :: i in ids && i.mode == m && i.transport == t && ids[i] != {Skip}
  }

  ghost predicate ScenarioRan(ids: StatusMap, m: Mode, s: string) {
    exists i :: i in ids && i.mode == m && i.transport == OfficialHttp && i.source != Supplemental
                && i.scenario == s && ids[i] != {Skip}
  }

  /** Only catalog scenarios were observed. */
  lemma ObservedInCatalog(suite: Suite, r: Report, m: Mode)
    requires Clean(suite, r)
    ensures CompactObserved(Read(suite, r).identities, m) <= TextSet(suite.Catalog(m))
  {
    if r.baselineKind.Missing? {
      var ids := Read(suite, r).identities;
      assert CleanMode(suite, r, r.cases.value, m);
      ReadCaseIsClean(suite, r.cases.value, m, OfficialHttp);
      CaseTableMeaning(r.cases.value, (m, Known(OfficialHttp)));
      var c := CaseTable(r.cases.value)[(m, Known(OfficialHttp))];
      ScenarioProblemsMeaning(suite, m, ObservedScenarios(m, c.checks.value));
      forall i | i in ids && i.mode == m && i.transport == OfficialHttp && i.source != Supplemental
        ensures i.scenario in ObservedScenarios(m, c.checks.value)
      {
        ReadingHasNoEmptySets(suite, r);
        var st :| st in ids[i];
        FullReadingMeaning(suite, r, i, st);
      }
    } else {
      ListingsAreComplete(suite, r);
      assert CompleteListing(suite, r.checks.value, m);
    }
  }

  /** Listing and reading back a sorted set of identities is clean and loses nothing. */
  lemma RecordsReadBack(s: set<Identity>, ids: seq<Identity>)
    requires ids == SortedIdentities(s)
    requires forall i :: i in s ==> i.checkId != ""
    ensures BucketIds(Records(ids)) == s && CleanBucket(Records(ids))
  {
    var records := Records(ids);
    forall k | 0 <= k < |records|
      ensures ReadIdentityRecord(records[k]) == Is(ids[k])
    {
      assert ids[k] in s;
    }
    forall i | i in s
      ensures i in BucketIds(records)
    {
      var k :| 0 <= k < |ids| && ids[k] == i;
      assert records[k] in records;
    }
  }

  lemma IdentitiesHaveIds(suite: Suite, r: Report, i: Identity)
    requires i in Read(suite, r).identities && Clean(suite, r)
    ensures i.checkId != ""
  {
    var ids := Read(suite, r).identities;
    ReadingHasNoEmptySets(suite, r);
    var st :| st in ids[i];
    if r.baselineKind.Missing? {
      FullReadingMeaning(suite, r, i, st);
    }
  }

  /** Reading a written baseline gives back every pass and failure, and drops the skips. */
  lemma CompactKeepsStatuses(suite: Suite, r: Report)
    requires Compact(suite, r).Written?
    ensures Read(suite, Compact(suite, r).report).identities == DropSkips(Read(suite, r).identities)
    ensures CleanBucket(Compact(suite, r).report.checks.value.passing.value)
    ensures CleanBucket(Compact(suite, r).report.checks.value.failing.value)
  {
    var ids := Read(suite, r).identities;
    var c := Compact(suite, r).report;
    CompactAccepts(suite, r);
    ReadingHasNoEmptySets(suite, r);
    forall i | i in ids ensures i.checkId != "" { IdentitiesHaveIds(suite, r, i); }
    RecordsReadBack(With(ids, Pass), SortedIdentities(With(ids, Pass)));
    RecordsReadBack(With(ids, Fail), SortedIdentities(With(ids, Fail)));
    var back, kept := Read(suite, c).identities, DropSkips(ids);
    assert back == BucketMap(With(ids, Pass), With(ids, Fail));
    BucketMapDropsSkips(ids);
  }

  lemma BucketMapDropsSkips(ids: StatusMap)
    requires NonEmptySets(ids)
    ensures BucketMap(With(ids, Pass), With(ids, Fail)) == DropSkips(ids)
  {
    var back, kept := BucketMap(With(ids, Pass), With(ids, Fail)), DropSkips(ids);
    forall i
      ensures i in back <==> i in kept
      ensures i in kept ==> back[i] == kept[i]
    {
      if i in ids {
        assert forall st :: st in ids[i] ==> st == Pass || st == Fail || st == Skip;
        if Pass !in ids[i] && Fail !in ids[i] {
          var st :| st in ids[i];
          assert ids[i] == {Skip};
        }
      }
    }
  }

  lemma CompleteWithoutSkips(suite: Suite, ids: StatusMap)
    requires forall m: Mode :: CompactObserved(ids, m) <= TextSet(suite.Catalog(m))
    ensures (forall m: Mode :: CompleteFor(suite, DropSkips(ids), m)) <==> NothingOnlySkipped(suite, ids)
  {
    var kept := DropSkips(ids);
    forall m: Mode, t: Transport
      ensures Covered(kept, m, t) <==> CaseRan(ids, m, t)
    {
      if CaseRan(ids, m, t) {
        var i :| i in ids && i.mode == m && i.transport == t && ids[i] != {Skip};
        assert i in kept;
      }
    }
    forall m: Mode
      ensures CompactObserved(kept, m) == TextSet(suite.Catalog(m))
         <==> forall s :: s in suite.Catalog(m) ==> ScenarioRan(ids, m, s)
    {
      CompleteScenarios(suite, ids, m);
    }
    if forall m: Mode :: CompleteFor(suite, kept, m) {
      forall m: Mode, t: Transport
        ensures CaseRan(ids, m, t)
      {
        assert CompleteFor(suite, kept, m);
        assert t == Stdio || t == OfficialHttp;
      }
      forall m: Mode, x: string | x in suite.Catalog(m)
        ensures ScenarioRan(ids, m, x)
      {
        assert CompleteFor(suite, kept, m);
      }
    }
    if NothingOnlySkipped(suite, ids) {
      forall m: Mode
        ensures CompleteFor(suite, kept, m)
      {
        assert CaseRan(ids, m, Stdio) && CaseRan(ids, m, OfficialHttp);
      }
    }
  }

  lemma CompleteScenarios(suite: Suite, ids: StatusMap, m: Mode)
    requires CompactObserved(ids, m) <= TextSet(suite.Catalog(m))
    ensures CompactObserved(DropSkips(ids), m) == TextSet(suite.Catalog(m))
       <==> forall s :: s in suite.Catalog(m) ==> ScenarioRan(ids, m, s)
  {
    var kept := DropSkips(ids);
    forall s
      ensures s in CompactObserved(kept, m) <==> ScenarioRan(ids, m, s)
    {
      if ScenarioRan(ids, m, s) {
        var i :| i in ids && i.mode == m && i.transport == OfficialHttp && i.source != Supplemental
                 && i.scenario == s && ids[i] != {Skip};
        assert i in kept;
      }
    }
    assert CompactObserved(kept, m) <= CompactObserved(ids, m);
    forall s
      ensures s in TextSet(suite.Catalog(m)) <==> s in suite.Catalog(m)
    {
    }
  }

  /** A written baseline reads back without problems exactly when nothing required was only skipped. */
  lemma CompactReadsBack(suite: Suite, r: Report)
    requires Compact(suite, r).Written?
    ensures Read(suite, Compact(suite, r).report).problems == []
       <==> NothingOnlySkipped(suite, Read(suite, r).identities)
  {
    CompactKeepsStatuses(suite, r);
    StoredCatalogs(suite, r);
    CompleteWithoutSkips(suite, Read(suite, r).identities);
    StoredShape(suite, r);
    CompactIsClean(suite, Compact(suite, r).report);
  }

  lemma BaselineShape(suite: Suite, policy: Raw<bool>, scenarios: map<Mode, Raw<seq<string>>>,
                      passing: set<Identity>, failing: set<Identity>)
    ensures var c := BaselineReport(suite, policy, scenarios, passing, failing);
            && CleanHeader(suite, c) && c.baselineKind == Is(COMPACT_KIND) && c.requiredModes == Is(REQUIRED_MODES)
            && c.transports.Is? && BothTransports(c.transports.value)
            && c.checks.Is? && c.checks.value.passing.Is? && c.checks.value.failing.Is?
  {
  }

  /** Only completeness can be wrong with a stored baseline. */
  lemma StoredShape(suite: Suite, r: Report)
    requires Compact(suite, r).Written?
    ensures var c := Compact(suite, r).report;
            CleanCompact(suite, c) <==> forall m: Mode :: CompleteFor(suite, Read(suite, c).identities, m)
  {
    var c, ids := Compact(suite, r).report, Read(suite, r).identities;
    WrittenIs(suite, r);
    BaselineShape(suite, r.automaticAuth, Catalogs(r), With(ids, Pass), With(ids, Fail));
    CompactKeepsStatuses(suite, r);
    StoredCatalogs(suite, r);
    CompleteShape(suite, c);
  }

  lemma CompleteShape(suite: Suite, c: Report)
    requires CleanHeader(suite, c) && c.baselineKind == Is(COMPACT_KIND) && c.requiredModes == Is(REQUIRED_MODES)
    requires c.transports.Is? && BothTransports(c.transports.value)
    requires c.checks.Is? && c.checks.value.passing.Is? && c.checks.value.failing.Is?
    requires CleanBucket(c.checks.value.passing.value) && CleanBucket(c.checks.value.failing.value)
    requires forall m: Mode :: CleanCatalog(suite, c, m)
    ensures CleanCompact(suite, c) <==> forall m: Mode :: CompleteFor(suite, Read(suite, c).identities, m)
  {
    ListingsAreComplete(suite, c);
  }

  lemma StoredCatalogs(suite: Suite, r: Report)
    requires Compact(suite, r).Written?
    ensures forall m: Mode ::
              && CompactObserved(Read(suite, r).identities, m) <= TextSet(suite.Catalog(m))
              && CleanCatalog(suite, Compact(suite, r).report, m)
  {
    CompactAccepts(suite, r);
    forall m: Mode
      ensures CompactObserved(Read(suite, r).identities, m) <= TextSet(suite.Catalog(m))
      ensures CleanCatalog(suite, Compact(suite, r).report, m)
    {
      ObservedInCatalog(suite, r, m);
      CleanHasCatalogs(suite, r, m);
      assert m == Shipping || m == Legacy || m == Modern;
    }
  }

  lemma SecondIsWritten(suite: Suite, r: Report)
    requires Compact(suite, r).Written?
    ensures Compact(suite, Compact(suite, r).report).Written? <==> NothingOnlySkipped(suite, Read(suite, r).identities)
  {
    var c := Compact(suite, r).report;
    CompactReadsBack(suite, r);
    CompactKeepsStatuses(suite, r);
    CompactAccepts(suite, r);
    CompactAccepts(suite, c);
    ReadIsClean(suite, c);
    SkipsDoNotMatter(Read(suite, r).identities);
  }

  lemma SecondIsFirst(suite: Suite, r: Report)
    requires Compact(suite, r).Written? && Compact(suite, Compact(suite, r).report).Written?
    ensures Compact(suite, Compact(suite, r).report) == Compact(suite, r)
  {
    var c := Compact(suite, r).report;
    CompactKeepsStatuses(suite, r);
    SkipsDoNotMatter(Read(suite, r).identities);
    WrittenIs(suite, r);
    WrittenIs(suite, c);
    WrittenSelects(suite, r);
  }

  lemma WrittenIs(suite: Suite, r: Report)
    requires Compact(suite, r).Written?
    ensures forall m: Mode :: m in Selected(r)
    ensures var ids := Read(suite, r).identities;
            Compact(suite, r).report
              == BaselineReport(suite, r.automaticAuth, Catalogs(r), With(ids, Pass), With(ids, Fail))
  {
    CompactAccepts(suite, r);
    forall m: Mode ensures m in Selected(r) { CleanHasCatalogs(suite, r, m); }
  }

  lemma WrittenSelects(suite: Suite, r: Report)
    requires Compact(suite, r).Written?
    ensures forall m: Mode :: m in Selected(r) && m in Selected(Compact(suite, r).report)
    ensures Catalogs(Compact(suite, r).report) == Catalogs(r)
  {
    WrittenIs(suite, r);
    assert Selected(Compact(suite, r).report) == Catalogs(r);
    forall m: Mode ensures m in Catalogs(r) { assert m == Shipping || m == Legacy || m == Modern; }
  }

  /** Compacting a written baseline again changes nothing, under the same condition. */
  lemma CompactIdempotent(suite: Suite, r: Report)
    requires Compact(suite, r).Written?
    ensures Compact(suite, Compact(suite, r).report) == Compact(suite, r)
       <==> NothingOnlySkipped(suite, Read(suite, r).identities)
  {
    SecondIsWritten(suite, r);
    if Compact(suite, Compact(suite, r).report).Written? {
      SecondIsFirst(suite, r);
    }
  }

  lemma SkipsDoNotMatter(ids: StatusMap)
    ensures With(DropSkips(ids), Pass) == With(ids, Pass) && With(DropSkips(ids), Fail) == With(ids, Fail)
    ensures ShippingFails(DropSkips(ids)) == ShippingFails(ids)
  {
    forall i
      ensures Has(DropSkips(ids), i, Pass) == Has(ids, i, Pass)
      ensures Has(DropSkips(ids), i, Fail) == Has(ids, i, Fail)
    {
    }
  }

  // ---------------------------------------------------------------- the gate

  datatype Label = Baseline | Candidate
  datatype GateError =
    | In(side: Label, problem: Problem)
    | OAuthPolicyMissing | OAuthPoliciesDiffer
    | ShippingFailed(checkId: string)
    | BaselineShippingFailing(checkId: string)

  datatype GateResult = GateResult(success: bool, errors: seq<GateError>, newFailures: seq<Identity>,
                                   missing: seq<Identity>, known: seq<Identity>, fixed: seq<Identity>)

  function Labelled(side: Label, problems: seq<Problem>): seq<GateError> {
    seq(|problems|, k requires 0 <= k < |problems| => In(side, problems[k]))
  }

  function PolicyErrors(baseline: Report, candidate: Report): seq<GateError> {
    if !baseline.automaticAuth.Is? || !candidate.automaticAuth.Is? then [OAuthPolicyMissing]
    else if baseline.automaticAuth != candidate.automaticAuth then [OAuthPoliciesDiffer]
    else []
  }

  function ShippingError(side: Label, i: Identity): GateError {
    if side == Candidate then ShippingFailed(i.checkId) else BaselineShippingFailing(i.checkId)
  }

  function ShippingErrors(ids: seq<Identity>, side: Label): seq<GateError> {
    seq(|ids|, k requires 0 <= k < |ids| => ShippingError(side, ids[k]))
  }

  /** A baseline pass without a candidate pass, or a baseline failure that was neither seen nor fixed. */
  predicate IsMissing(b: StatusMap, c: StatusMap, i: Identity) {
    || (Has(b, i, Pass) && !Has(c, i, Pass))
    || (Has(b, i, Fail) && !Has(c, i, Fail) && !Has(c, i, Pass))
  }

  predicate IsFixed(b: StatusMap, c: StatusMap, i: Identity) {
    Has(b, i, Fail) && !Has(c, i, Fail) && Has(c, i, Pass)
  }

  function NewFailures(b: StatusMap, c: StatusMap): set<Identity> {
    set i | i in c && Fail in c[i] && !Has(b, i, Fail)
  }

  function KnownFailures(b: StatusMap, c: StatusMap): set<Identity> {
    set i | i in c && Fail in c[i] && Has(b, i, Fail)
  }

  function MissingChecks(b: StatusMap, c: StatusMap): set<Identity> {
    set i | i in b && IsMissing(b, c, i)
  }

  function FixedChecks(b: StatusMap, c: StatusMap): set<Identity> {
    set i | i in b && IsFixed(b, c, i)
  }

  /** The gate on two readings and their OAuth policies. */
  function GateOf(b: Reading, c: Reading, policy: seq<GateError>): GateResult {
    var errors := Labelled(Baseline, b.problems) + Labelled(Candidate, c.problems) + policy
                  + ShippingErrors(SortedIdentities(ShippingFailing(c.identities)), Candidate)
                  + ShippingErrors(SortedIdentities(ShippingFailing(b.identities)), Baseline);
    var newFailures := NewFailures(b.identities, c.identities);
    var missing := MissingChecks(b.identities, c.identities);
    GateResult(errors == [] && newFailures == {} && missing == {}, errors,
               SortedIdentities(newFailures), SortedIdentities(missing),
               SortedIdentities(KnownFailures(b.identities, c.identities)),
               SortedIdentities(FixedChecks(b.identities, c.identities)))
  }

  /** `_evaluate_regression_gate`, as sorted listings of the four kinds of identity. */
  function Gate(suite: Suite, candidate: Report, baseline: Report): GateResult {
    GateOf(Read(suite, baseline), Read(suite, candidate), PolicyErrors(baseline, candidate))
  }

  /** The first loop of the gate: candidate failures, in identity order. */
  method WalkCandidate(b: StatusMap, c: StatusMap)
    returns (errors: seq<GateError>, newFailures: seq<Identity>, known: seq<Identity>)
    ensures errors == ShippingErrors(SortedIdentities(ShippingFailing(c)), Candidate)
    ensures newFailures == SortedIdentities(NewFailures(b, c))
    ensures known == SortedIdentities(KnownFailures(b, c))
  {
    var order := SortedIdentities(c.Keys);
    errors, newFailures, known := [], [], [];
    ghost var sh, nf, kf := ShippingFailing(c), NewFailures(b, c), KnownFailures(b, c);
    for k := 0 to |order|
      invariant errors == ShippingErrors(SortedIdentities(Visited(order, k, sh)), Candidate)
      invariant newFailures == SortedIdentities(Visited(order, k, nf))
      invariant known == SortedIdentities(Visited(order, k, kf))
    {
      var i := order[k];
      assert i in c.Keys;
      CandidateStep(b, c, order, k);
      if Fail in c[i] {
        if i.mode == Shipping {
          errors := errors + [ShippingFailed(i.checkId)];
        }
        if Has(b, i, Fail) {
          known := known + [i];
        } else {
          newFailures := newFailures + [i];
        }
      }
    }
    WholeWalk(order, sh);
    WholeWalk(order, nf);
    WholeWalk(order, kf);
  }

  lemma CandidateStep(b: StatusMap, c: StatusMap, order: seq<Identity>, k: nat)
    requires Ascending(order, IdentityLe) && k < |order| && order[k] in c
    ensures var i, so := order[k], ShippingErrors(SortedIdentities(Visited(order, k, ShippingFailing(c))), Candidate);
            ShippingErrors(SortedIdentities(Visited(order, k + 1, ShippingFailing(c))), Candidate)
            == if i.mode == Shipping && Fail in c[i] then so + [ShippingFailed(i.checkId)] else so
    ensures var i, so := order[k], SortedIdentities(Visited(order, k, NewFailures(b, c)));
            SortedIdentities(Visited(order, k + 1, NewFailures(b, c)))
            == if Fail in c[i] && !Has(b, i, Fail) then so + [i] else so
    ensures var i, so := order[k], SortedIdentities(Visited(order, k, KnownFailures(b, c)));
            SortedIdentities(Visited(order, k + 1, KnownFailures(b, c)))
            == if Fail in c[i] && Has(b, i, Fail) then so + [i] else so
  {
    ShippingStep(c, order, k, Candidate);
    ListedStep(order, k, NewFailures(b, c));
    ListedStep(order, k, KnownFailures(b, c));
  }

  /** What the second loop has listed after the first `k` identities. */
  ghost function BaselineSoFar(b: StatusMap, c: StatusMap, order: seq<Identity>, k: nat): Listing
    requires k <= |order|
  {
    Listing(ShippingErrors(SortedIdentities(Visited(order, k, ShippingFailing(b))), Baseline),
            SortedIdentities(Visited(order, k, MissingChecks(b, c))),
            SortedIdentities(Visited(order, k, FixedChecks(b, c))))
  }

  datatype Listing = Listing(errors: seq<GateError>, missing: seq<Identity>, fixed: seq<Identity>)

  /** The second loop of the gate: what the baseline promised, in identity order. */
  method WalkBaseline(b: StatusMap, c: StatusMap)
    returns (errors: seq<GateError>, missing: seq<Identity>, fixed: seq<Identity>)
    ensures errors == ShippingErrors(SortedIdentities(ShippingFailing(b)), Baseline)
    ensures missing == SortedIdentities(MissingChecks(b, c))
    ensures fixed == SortedIdentities(FixedChecks(b, c))
  {
    var order := SortedIdentities(b.Keys);
    errors, missing, fixed := [], [], [];
    NothingWalked(b, c, order);
    for k := 0 to |order|
      invariant Listing(errors, missing, fixed) == BaselineSoFar(b, c, order, k)
    {
      var i := order[k];
      assert i in b.Keys;
      BaselineStep(b, c, order, k, Listing(errors, missing, fixed));
      if i.mode == Shipping && Fail in b[i] {
        errors := errors + [BaselineShippingFailing(i.checkId)];
      }
      if Pass in b[i] && !Has(c, i, Pass) {
        missing := missing + [i];
      } else if Fail in b[i] && !Has(c, i, Fail) && !Has(c, i, Pass) {
        missing := missing + [i];
      } else if Fail in b[i] && !Has(c, i, Fail) {
        fixed := fixed + [i];
      }
    }
    WholeWalk(order, ShippingFailing(b));
    WholeWalk(order, MissingChecks(b, c));
    WholeWalk(order, FixedChecks(b, c));
  }

  lemma NothingWalked(b: StatusMap, c: StatusMap, order: seq<Identity>)
    ensures BaselineSoFar(b, c, order, 0) == Listing([], [], [])
  {
    NothingListed(Visited(order, 0, ShippingFailing(b)));
    NothingListed(Visited(order, 0, MissingChecks(b, c)));
    NothingListed(Visited(order, 0, FixedChecks(b, c)));
  }

  lemma BaselineStep(b: StatusMap, c: StatusMap, order: seq<Identity>, k: nat, so: Listing)
    requires Ascending(order, IdentityLe) && k < |order| && order[k] in b && so == BaselineSoFar(b, c, order, k)
    ensures var i := order[k];
            BaselineSoFar(b, c, order, k + 1) ==
            Listing(if i.mode == Shipping && Fail in b[i]
                    then so.errors + [BaselineShippingFailing(i.checkId)] else so.errors,
                    if IsMissing(b, c, i) then so.missing + [i] else so.missing,
                    if IsFixed(b, c, i) then so.fixed + [i] else so.fixed)
  {
    ShippingStep(b, order, k, Baseline);
    ListedStep(order, k, MissingChecks(b, c));
    ListedStep(order, k, FixedChecks(b, c));
  }

  lemma ShippingStep(ids: StatusMap, order: seq<Identity>, k: nat, side: Label)
    requires Ascending(order, IdentityLe) && k < |order| && order[k] in ids
    ensures var i := order[k];
            var so := ShippingErrors(SortedIdentities(Visited(order, k, ShippingFailing(ids))), side);
            ShippingErrors(SortedIdentities(Visited(order, k + 1, ShippingFailing(ids))), side)
            == if i.mode == Shipping && Fail in ids[i] then so + [ShippingError(side, i)] else so
  {
    ListedStep(order, k, ShippingFailing(ids));
    OneMoreError(SortedIdentities(Visited(order, k, ShippingFailing(ids))), order[k], side);
  }

  lemma OneMoreError(ids: seq<Identity>, i: Identity, side: Label)
    ensures ShippingErrors(ids + [i], side) == ShippingErrors(ids, side) + [ShippingError(side, i)]
  {
  }

  lemma ListedStep(order: seq<Identity>, k: nat, wanted: set<Identity>)
    requires Ascending(order, IdentityLe) && k < |order|
    ensures var so := SortedIdentities(Visited(order, k, wanted));
            SortedIdentities(Visited(order, k + 1, wanted)) == if order[k] in wanted then so + [order[k]] else so
  {
    PrefixStep(order, k, wanted);
    NothingAfter(SortedIdentities(Visited(order, k, wanted)));
  }

  lemma PrefixStep(order: seq<Identity>, k: nat, wanted: set<Identity>)
    requires Ascending(order, IdentityLe) && k < |order|
    ensures SortedIdentities(Visited(order, k + 1, wanted))
         == SortedIdentities(Visited(order, k, wanted)) + (if order[k] in wanted then [order[k]] else [])
  {
    IdentityOrderIsTotal();
    WalkStep(order, k, wanted, IdentityLe);
  }

  method EvaluateRegressionGate(suite: Suite, candidate: Report, baseline: Report) returns (result: GateResult)
    ensures result == Gate(suite, candidate, baseline)
  {
    var baselineErrors, b := RequiredRegressionChecks(suite, baseline);
    var candidateErrors, c := RequiredRegressionChecks(suite, candidate);
    var shipping, newFailures, known := WalkCandidate(b, c);
    var baselineShipping, missing, fixed := WalkBaseline(b, c);
    var errors := Labelled(Baseline, baselineErrors) + Labelled(Candidate, candidateErrors)
                  + PolicyErrors(baseline, candidate) + shipping + baselineShipping;
    var success := errors == [] && newFailures == [] && missing == [];
    result := GateResult(success, errors, newFailures, missing, known, fixed);
    NothingListed(NewFailures(b, c));
    NothingListed(MissingChecks(b, c));
  }

  lemma NothingListed(s: set<Identity>)
    ensures SortedIdentities(s) == [] <==> s == {}
  {
    IdentityOrderIsTotal();
    EmptyListing(s, IdentityLe);
  }

  // ---------------------------------------------------------------- laws of the gate

  /** Nothing newly fails, every pass still passes, and every failure is still seen or fixed. */
  ghost predicate Preserves(b: StatusMap, c: StatusMap) {
    && (forall i :: Has(c, i, Fail) ==> Has(b, i, Fail))
    && (forall i :: Has(b, i, Pass) ==> Has(c, i, Pass))
    && (forall i :: Has(b, i, Fail) ==> Has(c, i, Fail) || Has(c, i, Pass))
  }

  /** A report that may stand on either side of a passing gate. */
  ghost predicate Gateable(suite: Suite, r: Report) {
    Clean(suite, r) && r.automaticAuth.Is? && !ShippingFails(Read(suite, r).identities)
  }

  lemma GateOfPasses(b: Reading, c: Reading, policy: seq<GateError>)
    ensures GateOf(b, c, policy).success <==>
            && b.problems == [] && c.problems == [] && policy == []
            && !ShippingFails(b.identities) && !ShippingFails(c.identities)
            && Preserves(b.identities, c.identities)
  {
    NothingListed(ShippingFailing(b.identities));
    NothingListed(ShippingFailing(c.identities));
    ShippingFailingMeaning(b.identities);
    ShippingFailingMeaning(c.identities);
    PreservesMeansNoLists(b.identities, c.identities);
  }

  lemma ShippingFailingMeaning(ids: StatusMap)
    ensures ShippingFails(ids) <==> ShippingFailing(ids) != {}
  {
    if ShippingFails(ids) {
      var i :| Has(ids, i, Fail) && i.mode == Shipping;
      assert i in ShippingFailing(ids);
    }
  }

  /** The gate passes exactly when both reports are fit, share a policy, and nothing regressed. */
  lemma GatePasses(suite: Suite, candidate: Report, baseline: Report)
    ensures Gate(suite, candidate, baseline).success <==>
            && Gateable(suite, baseline) && Gateable(suite, candidate)
            && baseline.automaticAuth == candidate.automaticAuth
            && Preserves(Read(suite, baseline).identities, Read(suite, candidate).identities)
  {
    ReadIsClean(suite, baseline);
    ReadIsClean(suite, candidate);
    GateOfPasses(Read(suite, baseline), Read(suite, candidate), PolicyErrors(baseline, candidate));
  }

  lemma PreservesMeansNoLists(b: StatusMap, c: StatusMap)
    ensures Preserves(b, c) <==> NewFailures(b, c) == {} && MissingChecks(b, c) == {}
  {
    if NewFailures(b, c) == {} && MissingChecks(b, c) == {} {
      forall i
        ensures Has(c, i, Fail) ==> Has(b, i, Fail)
        ensures Has(b, i, Pass) ==> Has(c, i, Pass)
        ensures Has(b, i, Fail) ==> Has(c, i, Fail) || Has(c, i, Pass)
      {
        assert i !in NewFailures(b, c) && i !in MissingChecks(b, c);
      }
    }
  }

  /** A report passes against itself exactly when it is fit to be gated. */
  lemma GateReflexive(suite: Suite, r: Report)
    ensures Gate(suite, r, r).success <==> Gateable(suite, r)
  {
    GatePasses(suite, r, r);
  }

  lemma GateTransitive(suite: Suite, a: Report, b: Report, c: Report)
    requires Gate(suite, b, a).success && Gate(suite, c, b).success
    ensures Gate(suite, c, a).success
  {
    GatePasses(suite, b, a);
    GatePasses(suite, c, b);
    GatePasses(suite, c, a);
  }

  /** What a passing gate promises about single checks. */
  lemma PassingKeeps(suite: Suite, candidate: Report, baseline: Report)
    requires Gate(suite, candidate, baseline).success
    ensures With(Read(suite, candidate).identities, Fail) <= With(Read(suite, baseline).identities, Fail)
    ensures With(Read(suite, baseline).identities, Pass) <= With(Read(suite, candidate).identities, Pass)
  {
    GatePasses(suite, candidate, baseline);
    KeepsPasses(Read(suite, baseline).identities, Read(suite, candidate).identities);
  }

  lemma KeepsPasses(b: StatusMap, c: StatusMap)
    requires Preserves(b, c)
    ensures With(c, Fail) <= With(b, Fail) && With(b, Pass) <= With(c, Pass)
  {
    forall i | i in With(c, Fail) ensures i in With(b, Fail) { assert Has(c, i, Fail); }
    forall i | i in With(b, Pass) ensures i in With(c, Pass) { assert Has(b, i, Pass); }
  }

  ghost predicate GatedRuns(suite: Suite, runs: seq<Report>) {
    forall k :: 0 < k < |runs| ==> Gate(suite, runs[k], runs[k - 1]).success
  }

  /**
   Over any chain of gated runs the last run passes against the first, so failures never grow
   and whatever passed at the start still has a pass at the end.
   */
  lemma {:induction false} GateChain(suite: Suite, runs: seq<Report>)
    requires |runs| > 0 && Gateable(suite, runs[0]) && GatedRuns(suite, runs)
    ensures Gate(suite, runs[|runs| - 1], runs[0]).success
    ensures With(Read(suite, runs[|runs| - 1]).identities, Fail) <= With(Read(suite, runs[0]).identities, Fail)
    ensures With(Read(suite, runs[0]).identities, Pass) <= With(Read(suite, runs[|runs| - 1]).identities, Pass)
  {
    ChainPasses(suite, runs);
    PassingKeeps(suite, runs[|runs| - 1], runs[0]);
  }

  lemma {:induction false} ChainPasses(suite: Suite, runs: seq<Report>)
    requires |runs| > 0 && Gateable(suite, runs[0]) && GatedRuns(suite, runs)
    ensures Gate(suite, runs[|runs| - 1], runs[0]).success
  {
    var n := |runs| - 1;
    if n == 0 {
      GateReflexive(suite, runs[0]);
    } else {
      var before := runs[..n];
      assert GatedRuns(suite, before) by {
        forall k | 0 < k < |before| ensures Gate(suite, before[k], before[k - 1]).success {
          assert before[k] == runs[k] && before[k - 1] == runs[k - 1];
        }
      }
      ChainPasses(suite, before);
      GateTransitive(suite, runs[0], runs[n - 1], runs[n]);
    }
  }

  /** The four listings account for every failure and every promise of the baseline. */
  lemma GateAccounts(suite: Suite, candidate: Report, baseline: Report, i: Identity)
    ensures var g := Gate(suite, candidate, baseline);
            var b, c := Read(suite, baseline).identities, Read(suite, candidate).identities;
            && (Has(c, i, Fail) <==> i in g.newFailures || i in g.known)
            && !(i in g.newFailures && i in g.known)
            && (i in g.known ==> Has(b, i, Fail)) && (i in g.newFailures ==> !Has(b, i, Fail))
            && (Has(b, i, Fail) ==> i in g.known || i in g.fixed || i in g.missing)
            && !(i in g.fixed && (i in g.missing || i in g.known || i in g.newFailures))
            && (i in g.fixed ==> Has(b, i, Fail) && Has(c, i, Pass))
            && (Has(b, i, Pass) ==> (Has(c, i, Pass) <==> i !in g.missing))
            && (i in g.missing && i in g.known ==> Has(b, i, Pass) && Has(b, i, Fail) && !Has(c, i, Pass))
  {
  }

  /**
   Gating any candidate against a written baseline gives the same result as gating against the report
   it came from, exactly when nothing required was only skipped.
   */
  lemma CompactionRefines(suite: Suite, baseline: Report, candidate: Report)
    requires Compact(suite, baseline).Written?
    ensures Gate(suite, candidate, Compact(suite, baseline).report) == Gate(suite, candidate, baseline)
       <==> NothingOnlySkipped(suite, Read(suite, baseline).identities)
  {
    var stored := Compact(suite, baseline).report;
    CompactReadsBack(suite, baseline);
    if NothingOnlySkipped(suite, Read(suite, baseline).identities) {
      StoredReading(suite, baseline);
      SameReports(suite, baseline, stored, candidate);
    } else {
      WrittenIsReadable(suite, baseline);
      OtherReports(suite, baseline, stored, candidate);
    }
  }

  lemma WrittenIsReadable(suite: Suite, r: Report)
    requires Compact(suite, r).Written?
    ensures Read(suite, r).problems == []
  {
    CompactAccepts(suite, r);
    ReadIsClean(suite, r);
  }

  lemma OtherReports(suite: Suite, b: Report, s: Report, c: Report)
    requires Read(suite, b).problems == [] && Read(suite, s).problems != []
    ensures Gate(suite, c, s) != Gate(suite, c, b)
  {
    PolicyNamesNoSide(b, c);
    OtherReadings(Read(suite, b), Read(suite, s), Read(suite, c), PolicyErrors(b, c), PolicyErrors(s, c));
  }

  lemma PolicyNamesNoSide(b: Report, c: Report)
    ensures forall e :: e in PolicyErrors(b, c) ==> !e.In?
  {
  }

  lemma OtherReadings(b: Reading, s: Reading, c: Reading, bp: seq<GateError>, sp: seq<GateError>)
    requires b.problems == [] && s.problems != [] && forall e :: e in bp ==> !e.In?
    ensures GateOf(s, c, sp) != GateOf(b, c, bp)
  {
    BaselineFirst(s, c, sp);
    CandidateFirst(b, c, bp);
  }

  lemma BaselineFirst(b: Reading, c: Reading, policy: seq<GateError>)
    requires b.problems != []
    ensures GateOf(b, c, policy).errors != [] && GateOf(b, c, policy).errors[0] == In(Baseline, b.problems[0])
  {
  }

  /** The gate names the baseline as unreadable only when the baseline has problems. */
  lemma CandidateFirst(b: Reading, c: Reading, policy: seq<GateError>)
    requires b.problems == [] && forall e :: e in policy ==> !e.In?
    ensures forall k :: 0 <= k < |GateOf(b, c, policy).errors| && GateOf(b, c, policy).errors[k].In? ==>
              GateOf(b, c, policy).errors[k].side == Candidate
  {
  }

  lemma StoredReading(suite: Suite, r: Report)
    requires Compact(suite, r).Written? && NothingOnlySkipped(suite, Read(suite, r).identities)
    ensures var stored := Compact(suite, r).report;
            && stored.automaticAuth == r.automaticAuth
            && Read(suite, stored).problems == Read(suite, r).problems == []
            && Read(suite, stored).identities == DropSkips(Read(suite, r).identities)
  {
    CompactReadsBack(suite, r);
    CompactKeepsStatuses(suite, r);
    CompactAccepts(suite, r);
    ReadIsClean(suite, r);
    WrittenIs(suite, r);
  }

  lemma SameReports(suite: Suite, b: Report, s: Report, c: Report)
    requires s.automaticAuth == b.automaticAuth && Read(suite, s).problems == Read(suite, b).problems
    requires Read(suite, s).identities == DropSkips(Read(suite, b).identities)
    ensures Gate(suite, c, s) == Gate(suite, c, b)
  {
    SameGate(Read(suite, b), Read(suite, s), Read(suite, c), PolicyErrors(b, c));
  }

  lemma SameGate(b: Reading, s: Reading, c: Reading, policy: seq<GateError>)
    requires s.problems == b.problems && s.identities == DropSkips(b.identities)
    ensures GateOf(s, c, policy) == GateOf(b, c, policy)
  {
    var bm, sm, cm := b.identities, s.identities, c.identities;
    forall i
      ensures Has(sm, i, Pass) <==> Has(bm, i, Pass)
      ensures Has(sm, i, Fail) <==> Has(bm, i, Fail)
    {
    }
    assert NewFailures(sm, cm) == NewFailures(bm, cm) && KnownFailures(sm, cm) == KnownFailures(bm, cm);
    assert MissingChecks(sm, cm) == MissingChecks(bm, cm) && FixedChecks(sm, cm) == FixedChecks(bm, cm);
    assert ShippingFailing(sm) == ShippingFailing(bm);
  }
}
