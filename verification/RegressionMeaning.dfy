/**
 What a reading says about its report, stated without the reader's folds:
 exactly which reports read without problems, and exactly which identity and
 status pairs a reading holds.
 */
module RegressionMeaning {
  import opened JsonFields
  import opened RegressionReport

  // ---------------------------------------------------------------- clean reports

  ghost predicate CleanHeader(suite: Suite, r: Report) {
    && r.schemaVersion == Is(REPORT_SCHEMA_VERSION)
    && r.versionCheck == Is(Is(true))
    && r.modernFeature == Is(true)
    && r.official.Is?
    && r.official.value.repository == Is(suite.repository)
    && r.official.value.gitRef == Is(suite.gitRef)
    && r.official.value.authenticationIncluded == Is(true)
    && r.official.value.scenarios.Is?
  }

  ghost predicate CleanCatalog(suite: Suite, r: Report, m: Mode) {
    m in Selected(r) && Selected(r)[m] == Is(suite.Catalog(m))
  }

  /** A case that satisfies everything asked of one required mode and transport. */
  ghost predicate CleanCase(suite: Suite, m: Mode, t: Transport, c: Raw<CaseRecord>) {
    && CaseKeyOf(c) == Is((m, Known(t)))
    && c.value.checks.Is? && c.value.checks.value != []
    && (forall x :: x in c.value.checks.value ==> ReadCheck(m, t, x).Is?)
    && (t == OfficialHttp ==> ObservedScenarios(m, c.value.checks.value) == TextSet(suite.Catalog(m)))
  }

  ghost predicate HasCleanCase(suite: Suite, m: Mode, t: Transport, cases: seq<Raw<CaseRecord>>) {
    exists c :: c in cases && CleanCase(suite, m, t, c)
  }

  ghost predicate DistinctCases(cases: seq<Raw<CaseRecord>>) {
    && (forall c :: c in cases ==> c.Is? && (c.value.mode.Is? ==> c.value.transport.Is?))
    && (forall j, k :: 0 <= j < k < |cases| && CaseKeyOf(cases[j]).Is? ==> CaseKeyOf(cases[j]) != CaseKeyOf(cases[k]))
  }

  ghost predicate CleanMode(suite: Suite, r: Report, cases: seq<Raw<CaseRecord>>, m: Mode) {
    && CleanCatalog(suite, r, m)
    && HasCleanCase(suite, m, Stdio, cases) && HasCleanCase(suite, m, OfficialHttp, cases)
  }

  ghost predicate CleanFull(suite: Suite, r: Report) {
    && CleanHeader(suite, r) && r.cases.Is? && DistinctCases(r.cases.value)
    && forall m: Mode :: CleanMode(suite, r, r.cases.value, m)
  }

  ghost predicate CleanBucket(records: seq<Raw<IdentityRecord>>) {
    && (forall x :: x in records ==> ReadIdentityRecord(x).Is?)
    && (forall j, k :: 0 <= j < k < |records| ==> ReadIdentityRecord(records[j]) != ReadIdentityRecord(records[k]))
  }

  ghost predicate Covered(ids: StatusMap, m: Mode, t: Transport) {
    exists i :: i in ids && i.mode == m && i.transport == t
  }

  /** Both transports have an identity and exactly the catalog's scenarios were observed. */
  ghost predicate CompleteFor(suite: Suite, ids: StatusMap, m: Mode) {
    && Covered(ids, m, Stdio) && Covered(ids, m, OfficialHttp)
    && CompactObserved(ids, m) == TextSet(suite.Catalog(m))
  }

  /** Some record of a bucket names the identity. */
  ghost predicate Names(records: seq<Raw<IdentityRecord>>, i: Identity) {
    exists x :: x in records && ReadIdentityRecord(x) == Is(i)
  }

  ghost predicate Listed(c: CompactChecks, i: Identity) {
    c.passing.Is? && c.failing.Is? && (Names(c.passing.value, i) || Names(c.failing.value, i))
  }

  ghost predicate ListsCase(c: CompactChecks, m: Mode, t: Transport) {
    exists i :: Listed(c, i) && i.mode == m && i.transport == t
  }

  ghost predicate ListsScenario(c: CompactChecks, m: Mode, s: string) {
    exists i :: Listed(c, i) && i.mode == m && i.transport == OfficialHttp && i.source != Supplemental
      && i.scenario == s
  }

  /** The listed identities cover both transports and exactly the catalog's scenarios. */
  ghost predicate CompleteListing(suite: Suite, c: CompactChecks, m: Mode) {
    && ListsCase(c, m, Stdio) && ListsCase(c, m, OfficialHttp)
    && forall s :: ListsScenario(c, m, s) <==> s in suite.Catalog(m)
  }

  ghost predicate CleanCompact(suite: Suite, r: Report) {
    && CleanHeader(suite, r)
    && r.baselineKind == Is(COMPACT_KIND)
    && r.requiredModes == Is(REQUIRED_MODES)
    && r.transports.Is? && BothTransports(r.transports.value)
    && r.checks.Is? && r.checks.value.passing.Is? && r.checks.value.failing.Is?
    && CleanBucket(r.checks.value.passing.value) && CleanBucket(r.checks.value.failing.value)
    && (forall m: Mode :: CleanCatalog(suite, r, m))
    && (forall m: Mode :: CompleteListing(suite, r.checks.value, m))
  }

  ghost predicate Clean(suite: Suite, r: Report) {
    if r.baselineKind.Missing? then CleanFull(suite, r) else CleanCompact(suite, r)
  }

  // ---------------------------------------------------------------- statuses

  /** Some check of the case read for `i` has identity `i` and status `st`. */
  ghost predicate Recorded(table: map<CaseKey, CaseRecord>, i: Identity, st: Status) {
    && (i.mode, Known(i.transport)) in table
    && var c := table[(i.mode, Known(i.transport))];
    && c.checks.Is?
    && exists x :: x in c.checks.value && ReadCheck(i.mode, i.transport, x) == Is((i, st))
  }

  ghost predicate NonEmptySets(ids: StatusMap) {
    forall i :: i in ids ==> ids[i] != {}
  }

  lemma {:induction false} AddChecksMeaning(start: StatusMap, m: Mode, t: Transport, checks: seq<Raw<CheckRecord>>,
                                            i: Identity, st: Status)
    ensures Has(AddChecks(start, m, t, checks), i, st)
       <==> Has(start, i, st) || exists x :: x in checks && ReadCheck(m, t, x) == Is((i, st))
    ensures NonEmptySets(start) ==> NonEmptySets(AddChecks(start, m, t, checks))
  {
    if checks != [] {
      var n := |checks| - 1;
      AddChecksMeaning(start, m, t, checks[..n], i, st);
      assert checks == checks[..n] + [checks[n]];
      assert forall x :: x in checks <==> x in checks[..n] || x == checks[n];
    }
  }

  lemma {:induction false} ReadModesMeaning(suite: Suite, r: Report, table: map<CaseKey, CaseRecord>,
                                            modes: seq<Mode>, i: Identity, st: Status)
    ensures Has(ReadModes(suite, r, table, modes).identities, i, st) <==> i.mode in modes && Recorded(table, i, st)
    ensures NonEmptySets(ReadModes(suite, r, table, modes).identities)
  {
    if modes != [] {
      var n := |modes| - 1;
      var m := modes[n];
      ReadModesMeaning(suite, r, table, modes[..n], i, st);
      assert i.mode in modes <==> i.mode in modes[..n] || i.mode == m by {
        assert modes == modes[..n] + [m];
      }
      var before := ReadModes(suite, r, table, modes[..n]).identities;
      ReadCaseMeaning(suite, table, m, Stdio, before, i, st);
      ReadCaseMeaning(suite, table, m, OfficialHttp, ReadCase(suite, table, m, Stdio, before).identities, i, st);
    }
  }

  lemma ReadCaseMeaning(suite: Suite, table: map<CaseKey, CaseRecord>, m: Mode, t: Transport, start: StatusMap,
                        i: Identity, st: Status)
    ensures Has(ReadCase(suite, table, m, t, start).identities, i, st)
       <==> Has(start, i, st) || (i.mode == m && i.transport == t && Recorded(table, i, st))
    ensures NonEmptySets(start) ==> NonEmptySets(ReadCase(suite, table, m, t, start).identities)
  {
    var key := (m, Known(t));
    if key in table && table[key].checks.Is? {
      AddChecksMeaning(start, m, t, table[key].checks.value, i, st);
    }
  }

  /** A full reading holds a status exactly when a readable check of that case recorded it. */
  lemma FullReadingMeaning(suite: Suite, r: Report, i: Identity, st: Status)
    requires r.baselineKind.Missing?
    ensures Has(Read(suite, r).identities, i, st) <==> Recorded(CaseTable(CaseList(r)), i, st)
    ensures NonEmptySets(Read(suite, r).identities)
  {
    ReadModesMeaning(suite, r, CaseTable(CaseList(r)), REQUIRED_MODES, i, st);
    assert i.mode == REQUIRED_MODES[ModeRank(i.mode)];
  }

  /** Every status of a reading comes from somewhere: no identity has an empty set. */
  lemma ReadingHasNoEmptySets(suite: Suite, r: Report)
    ensures NonEmptySets(Read(suite, r).identities)
  {
    if r.baselineKind.Missing? {
      FullReadingMeaning(suite, r, Identity(Shipping, Stdio, Official, "", ""), Pass);
    }
  }

  /** A compact reading knows passes and failures only. */
  lemma CompactReadingMeaning(suite: Suite, r: Report, i: Identity)
    requires r.baselineKind == Is(COMPACT_KIND) && r.checks.Is?
    ensures Has(Read(suite, r).identities, i, Pass) <==> i in BucketReading(r.checks.value.passing, Pass).1
    ensures Has(Read(suite, r).identities, i, Fail) <==> i in BucketReading(r.checks.value.failing, Fail).1
    ensures !Has(Read(suite, r).identities, i, Skip)
  {
  }

  // ---------------------------------------------------------------- problems

  /** The table keeps the first case for each key. */
  lemma {:induction false} CaseTableMeaning(cases: seq<Raw<CaseRecord>>, key: CaseKey)
    ensures key in CaseTable(cases) <==> exists c :: c in cases && CaseKeyOf(c) == Is(key)
    ensures key in CaseTable(cases) ==> exists k :: FirstAt(cases, key, k) && cases[k].value == CaseTable(cases)[key]
  {
    if cases != [] {
      var n := |cases| - 1;
      var before := cases[..n];
      CaseTableMeaning(before, key);
      assert cases == before + [cases[n]];
      assert forall c :: c in cases <==> c in before || c == cases[n];
      if key in CaseTable(before) {
        var k :| FirstAt(before, key, k) && before[k].value == CaseTable(before)[key];
        assert FirstAt(cases, key, k);
      } else if CaseKeyOf(cases[n]) == Is(key) {
        assert forall j :: 0 <= j < n ==> cases[j] in before;
        assert FirstAt(cases, key, n);
      }
    }
  }

  ghost predicate FirstAt(cases: seq<Raw<CaseRecord>>, key: CaseKey, k: int) {
    && 0 <= k < |cases| && CaseKeyOf(cases[k]) == Is(key)
    && forall j :: 0 <= j < k ==> CaseKeyOf(cases[j]) != Is(key)
  }

  lemma {:induction false} CaseProblemsMeaning(cases: seq<Raw<CaseRecord>>)
    ensures CaseTableProblems(cases) == [] <==> DistinctCases(cases)
  {
    if cases != [] {
      var n := |cases| - 1;
      var before, last := cases[..n], cases[n];
      CaseProblemsMeaning(before);
      DistinctCasesStep(before, last);
      NewCaseMeaning(before, last);
      BothEmpty(CaseTableProblems(before), NewCaseProblems(CaseTable(before), last));
      assert cases == before + [last];
    }
  }

  lemma NewCaseMeaning(before: seq<Raw<CaseRecord>>, c: Raw<CaseRecord>)
    ensures NewCaseProblems(CaseTable(before), c) == [] <==>
            DistinctCases([c]) && (CaseKeyOf(c).Is? ==> forall x :: x in before ==> CaseKeyOf(x) != CaseKeyOf(c))
  {
    assert c in [c];
    if CaseKeyOf(c).Is? {
      CaseTableMeaning(before, CaseKeyOf(c).value);
    }
  }

  lemma DistinctCasesStep(before: seq<Raw<CaseRecord>>, last: Raw<CaseRecord>)
    ensures DistinctCases(before + [last]) <==>
            && DistinctCases(before) && DistinctCases([last])
            && (CaseKeyOf(last).Is? ==> forall c :: c in before ==> CaseKeyOf(c) != CaseKeyOf(last))
  {
    var cases, n := before + [last], |before|;
    assert cases[n] == last && forall j :: 0 <= j < n ==> cases[j] == before[j];
    assert forall c :: c in cases <==> c in before || c == last;
  }

  lemma {:induction false} MalformedChecksMeaning(m: Mode, t: Transport, checks: seq<Raw<CheckRecord>>)
    ensures MalformedChecks(m, t, checks) == [] <==> forall x :: x in checks ==> ReadCheck(m, t, x).Is?
  {
    if checks != [] {
      var n := |checks| - 1;
      MalformedChecksMeaning(m, t, checks[..n]);
      assert checks == checks[..n] + [checks[n]];
    }
  }

  lemma {:induction false} BucketProblemsMeaning(records: seq<Raw<IdentityRecord>>, bucket: Status)
    ensures BucketProblems(records, bucket) == [] <==> CleanBucket(records)
  {
    if records != [] {
      var n := |records| - 1;
      var before, last := records[..n], records[n];
      BucketProblemsMeaning(before, bucket);
      CleanBucketStep(before, last);
      assert records == before + [last];
      BothEmpty(BucketProblems(before, bucket), NewRecordProblems(BucketIds(before), last, bucket));
    }
  }

  lemma CleanBucketStep(before: seq<Raw<IdentityRecord>>, last: Raw<IdentityRecord>)
    ensures CleanBucket(before + [last]) <==>
            && CleanBucket(before) && ReadIdentityRecord(last).Is?
            && ReadIdentityRecord(last).value !in BucketIds(before)
  {
    var records, n := before + [last], |before|;
    assert records[n] == last && forall j :: 0 <= j < n ==> records[j] == before[j];
    assert forall x :: x in records <==> x in before || x == last;
    if CleanBucket(records) {
      forall x | x in before
        ensures ReadIdentityRecord(x) != ReadIdentityRecord(last)
      {
        var j :| 0 <= j < n && before[j] == x;
        assert ReadIdentityRecord(records[j]) != ReadIdentityRecord(records[n]);
      }
    }
  }

  ghost predicate ModeReads(suite: Suite, r: Report, table: map<CaseKey, CaseRecord>, m: Mode) {
    && CatalogProblems(suite, r, m) == []
    && ReadCase(suite, table, m, Stdio, map[]).problems == []
    && ReadCase(suite, table, m, OfficialHttp, map[]).problems == []
  }

  /** Which problems a mode has does not depend on what was read before it. */
  lemma ReadModeProblems(suite: Suite, r: Report, table: map<CaseKey, CaseRecord>, m: Mode, ids: StatusMap)
    ensures ReadMode(suite, r, table, m, ids).problems == [] <==> ModeReads(suite, r, table, m)
  {
  }

  lemma BothEmpty(a: seq<Problem>, b: seq<Problem>)
    ensures a + b == [] <==> a == [] && b == []
  {
    assert |a + b| == |a| + |b|;
  }

  ghost predicate AllModesRead(suite: Suite, r: Report, table: map<CaseKey, CaseRecord>, modes: seq<Mode>) {
    forall m :: m in modes ==> ModeReads(suite, r, table, m)
  }

  lemma AllModesReadStep(suite: Suite, r: Report, table: map<CaseKey, CaseRecord>, modes: seq<Mode>)
    requires modes != []
    ensures var n := |modes| - 1;
            AllModesRead(suite, r, table, modes) <==>
            AllModesRead(suite, r, table, modes[..n]) && ModeReads(suite, r, table, modes[n])
  {
    var n := |modes| - 1;
    assert forall m :: m in modes <==> m in modes[..n] || m == modes[n];
  }

  lemma ReadModesLast(suite: Suite, r: Report, table: map<CaseKey, CaseRecord>, modes: seq<Mode>)
    requires modes != []
    ensures var n := |modes| - 1;
            ReadModes(suite, r, table, modes).problems == [] <==>
            ReadModes(suite, r, table, modes[..n]).problems == [] && ModeReads(suite, r, table, modes[n])
  {
    var n := |modes| - 1;
    var before := ReadModes(suite, r, table, modes[..n]);
    ReadModeProblems(suite, r, table, modes[n], before.identities);
    BothEmpty(before.problems, ReadMode(suite, r, table, modes[n], before.identities).problems);
  }

  lemma {:induction false} ReadModesProblems(suite: Suite, r: Report, table: map<CaseKey, CaseRecord>, modes: seq<Mode>)
    ensures ReadModes(suite, r, table, modes).problems == [] <==> AllModesRead(suite, r, table, modes)
  {
    if modes != [] {
      ReadModesProblems(suite, r, table, modes[..|modes| - 1]);
      AllModesReadStep(suite, r, table, modes);
      ReadModesLast(suite, r, table, modes);
    }
  }

  ghost predicate AllModesSilent(suite: Suite, r: Report, ids: StatusMap, modes: seq<Mode>) {
    forall m :: m in modes ==> CompactModeProblems(suite, r, ids, m) == []
  }

  lemma AllModesSilentStep(suite: Suite, r: Report, ids: StatusMap, modes: seq<Mode>)
    requires modes != []
    ensures var n := |modes| - 1;
            AllModesSilent(suite, r, ids, modes) <==>
            AllModesSilent(suite, r, ids, modes[..n]) && CompactModeProblems(suite, r, ids, modes[n]) == []
  {
    var n := |modes| - 1;
    assert forall m :: m in modes <==> m in modes[..n] || m == modes[n];
  }

  lemma {:induction false} CompactModesMeaning(suite: Suite, r: Report, ids: StatusMap, modes: seq<Mode>)
    ensures CompactModesProblems(suite, r, ids, modes) == [] <==> AllModesSilent(suite, r, ids, modes)
  {
    if modes != [] {
      var n := |modes| - 1;
      CompactModesMeaning(suite, r, ids, modes[..n]);
      AllModesSilentStep(suite, r, ids, modes);
      BothEmpty(CompactModesProblems(suite, r, ids, modes[..n]), CompactModeProblems(suite, r, ids, modes[n]));
    }
  }

  lemma ScenarioProblemsMeaning(suite: Suite, m: Mode, observed: set<string>)
    ensures ScenarioProblems(suite, m, observed) == [] <==> observed == TextSet(suite.Catalog(m))
  {
    var expected := TextSet(suite.Catalog(m));
    if expected - observed == {} && observed - expected == {} {
      assert observed == expected;
    }
  }

  lemma EveryModeRequired(m: Mode)
    ensures m in REQUIRED_MODES
  {
    assert m == REQUIRED_MODES[ModeRank(m)];
  }

  lemma HeaderMeaning(suite: Suite, r: Report)
    ensures HeaderProblems(suite, r) == [] <==> CleanHeader(suite, r)
  {
  }

  /** The case read for a key has no problems exactly when some case of the report is clean for it. */
  lemma ReadCaseIsClean(suite: Suite, cases: seq<Raw<CaseRecord>>, m: Mode, t: Transport)
    requires DistinctCases(cases)
    ensures ReadCase(suite, CaseTable(cases), m, t, map[]).problems == []
       <==> HasCleanCase(suite, m, t, cases)
  {
    var key := (m, Known(t));
    CaseTableMeaning(cases, key);
    if key in CaseTable(cases) {
      var k :| FirstAt(cases, key, k) && cases[k].value == CaseTable(cases)[key];
      forall c | c in cases && CaseKeyOf(c) == Is(key)
        ensures c == cases[k]
      {
        var j :| 0 <= j < |cases| && cases[j] == c;
      }
      var raw := cases[k].value.checks;
      if raw.Is? {
        MalformedChecksMeaning(m, t, raw.value);
        ScenarioProblemsMeaning(suite, m, ObservedScenarios(m, raw.value));
      }
      assert cases[k] in cases;
    }
  }

  lemma ReadModesAreClean(suite: Suite, r: Report, cases: seq<Raw<CaseRecord>>)
    requires DistinctCases(cases)
    ensures ReadModes(suite, r, CaseTable(cases), REQUIRED_MODES).problems == []
       <==> forall m: Mode :: CleanMode(suite, r, cases, m)
  {
    ReadModesProblems(suite, r, CaseTable(cases), REQUIRED_MODES);
    forall m: Mode
      ensures m in REQUIRED_MODES
      ensures CleanMode(suite, r, cases, m) <==>
              && CatalogProblems(suite, r, m) == []
              && ReadCase(suite, CaseTable(cases), m, Stdio, map[]).problems == []
              && ReadCase(suite, CaseTable(cases), m, OfficialHttp, map[]).problems == []
    {
      EveryModeRequired(m);
      ReadCaseIsClean(suite, cases, m, Stdio);
      ReadCaseIsClean(suite, cases, m, OfficialHttp);
    }
  }

  lemma FullIsClean(suite: Suite, r: Report)
    requires r.baselineKind.Missing?
    ensures Read(suite, r).problems == [] <==> CleanFull(suite, r)
  {
    var cases := CaseList(r);
    var modes := ReadModes(suite, r, CaseTable(cases), REQUIRED_MODES).problems;
    HeaderMeaning(suite, r);
    CaseProblemsMeaning(cases);
    assert Read(suite, r).problems
        == HeaderProblems(suite, r) + (if r.cases.Is? then [] else [NoCases]) + CaseTableProblems(cases) + modes;
    if DistinctCases(cases) {
      ReadModesAreClean(suite, r, cases);
    }
  }

  lemma CompactModesAreClean(suite: Suite, r: Report, ids: StatusMap)
    ensures CompactModesProblems(suite, r, ids, REQUIRED_MODES) == []
       <==> forall m: Mode :: CleanCatalog(suite, r, m) && CompleteFor(suite, ids, m)
  {
    CompactModesMeaning(suite, r, ids, REQUIRED_MODES);
    forall m: Mode
      ensures m in REQUIRED_MODES
      ensures CompactModeProblems(suite, r, ids, m) == [] <==> CleanCatalog(suite, r, m) && CompleteFor(suite, ids, m)
    {
      EveryModeRequired(m);
      ScenarioProblemsMeaning(suite, m, CompactObserved(ids, m));
    }
  }

  lemma CompactIsClean(suite: Suite, r: Report)
    requires !r.baselineKind.Missing?
    ensures Read(suite, r).problems == [] <==> CleanCompact(suite, r)
  {
    HeaderMeaning(suite, r);
    if r.baselineKind == Is(COMPACT_KIND) && r.checks.Is? {
      var passing := BucketReading(r.checks.value.passing, Pass);
      var failing := BucketReading(r.checks.value.failing, Fail);
      var ids := Read(suite, r).identities;
      var modes := CompactModesProblems(suite, r, ids, REQUIRED_MODES);
      assert Read(suite, r).problems
          == HeaderProblems(suite, r) + CompactHeaderProblems(r) + passing.0 + failing.0 + modes;
      CompactModesAreClean(suite, r, ids);
      if r.checks.value.passing.Is? { BucketProblemsMeaning(r.checks.value.passing.value, Pass); }
      if r.checks.value.failing.Is? { BucketProblemsMeaning(r.checks.value.failing.value, Fail); }
      if r.checks.value.passing.Is? && r.checks.value.failing.Is? { ListingsAreComplete(suite, r); }
    }
  }

  lemma ListedIsRead(c: CompactChecks, i: Identity)
    requires c.passing.Is? && c.failing.Is?
    ensures Listed(c, i) <==> i in BucketMap(BucketIds(c.passing.value), BucketIds(c.failing.value))
  {
  }

  lemma ListingIsComplete(suite: Suite, c: CompactChecks, ids: StatusMap, m: Mode)
    requires forall i :: Listed(c, i) <==> i in ids
    ensures CompleteListing(suite, c, m) <==> CompleteFor(suite, ids, m)
  {
    forall s
      ensures ListsScenario(c, m, s) <==> s in CompactObserved(ids, m)
      ensures s in suite.Catalog(m) <==> s in TextSet(suite.Catalog(m))
    {
    }
    if CompleteListing(suite, c, m) {
      assert CompactObserved(ids, m) == TextSet(suite.Catalog(m));
    }
    if CompleteFor(suite, ids, m) {
      forall s ensures ListsScenario(c, m, s) <==> s in suite.Catalog(m) {}
    }
  }

  /** What a compact baseline lists is what is read from it. */
  lemma ListingsAreComplete(suite: Suite, r: Report)
    requires r.baselineKind == Is(COMPACT_KIND) && r.checks.Is? && r.checks.value.passing.Is?
            && r.checks.value.failing.Is?
    ensures forall m: Mode ::
              CompleteListing(suite, r.checks.value, m) <==> CompleteFor(suite, Read(suite, r).identities, m)
  {
    var c, ids := r.checks.value, Read(suite, r).identities;
    assert ids == BucketMap(BucketIds(c.passing.value), BucketIds(c.failing.value));
    forall i ensures Listed(c, i) <==> i in ids { ListedIsRead(c, i); }
    forall m: Mode ensures CompleteListing(suite, c, m) <==> CompleteFor(suite, ids, m) {
      ListingIsComplete(suite, c, ids, m);
    }
  }

  /** The reader reports no problem exactly on clean reports. */
  lemma ReadIsClean(suite: Suite, r: Report)
    ensures Read(suite, r).problems == [] <==> Clean(suite, r)
  {
    if r.baselineKind.Missing? {
      FullIsClean(suite, r);
    } else {
      CompactIsClean(suite, r);
    }
  }
}
