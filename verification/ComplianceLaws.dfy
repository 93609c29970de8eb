/** Laws spanning the producer, the reader, the baseline writer and the gate. */
module ComplianceLaws {
  import opened Sequences
  import opened Wrappers
  import opened JsonFields
  import opened RegressionReport
  import opened RegressionMeaning
  import opened RegressionGate
  import opened ConformanceRun
  import opened ComplianceReport

  // ---------------------------------------------------------------- checks the producer writes

  ghost predicate GoodCheck(c: Check) {
    && c.name != "" && c.scenario != Some("") && c.checkId != Some("")
    && c.success == (c.status != Fail)
  }

  function IdentityOf(m: Mode, t: Transport, c: Check): Identity {
    Identity(m, t, c.source, if c.scenario.Some? then c.scenario.value else "",
             if c.checkId.Some? then c.checkId.value else StableName(c.name))
  }

  /** The reader understands every check the producer writes. */
  lemma GoodChecksRead(m: Mode, t: Transport, c: Check)
    requires GoodCheck(c)
    ensures ReadCheck(m, t, CheckRecordOf(c)) == Is((IdentityOf(m, t, c), c.status))
  {
  }

  ghost predicate FromScenario(c: Check, scenario: string) {
    GoodCheck(c) && c.source != Supplemental && c.scenario == Some(scenario)
  }

  ghost predicate FromAny(c: Check, scenarios: set<string>) {
    GoodCheck(c) && c.source != Supplemental && c.scenario.Some? && c.scenario.value in scenarios
  }

  function ScenarioNames(results: seq<ScenarioResult>): set<string> {
    set r | r in results :: r.scenario
  }

  lemma OneScenarioIsGood(r: ScenarioResult)
    requires r.scenario != "" && forall c :: c in r.checks ==> c.checkId != ""
    ensures forall c :: c in ScenarioChecks(r) ==> FromScenario(c, r.scenario)
    ensures AdapterCheck(r.scenario, r.adapterSuccess) in ScenarioChecks(r)
  {
    var all, n := ScenarioChecks(r), |r.checks|;
    forall k | 0 <= k < |all|
      ensures FromScenario(all[k], r.scenario)
    {
      if k < n {
        assert r.checks[k] in r.checks && all[k] == OfficialCheckResult(r, k);
      }
    }
    assert all[n] == AdapterCheck(r.scenario, r.adapterSuccess);
  }

  lemma {:induction false} ScenarioChecksAreGood(results: seq<ScenarioResult>)
    requires forall r :: r in results ==> r.scenario != "" && forall c :: c in r.checks ==> c.checkId != ""
    ensures forall c :: c in AllScenarioChecks(results) ==> FromAny(c, ScenarioNames(results))
    ensures forall r :: r in results ==> AdapterCheck(r.scenario, r.adapterSuccess) in AllScenarioChecks(results)
  {
    if results != [] {
      var n := |results| - 1;
      var before, r := results[..n], results[n];
      ScenarioChecksAreGood(before);
      OneScenarioIsGood(r);
      assert results == before + [r];
      assert forall x :: x in results <==> x in before || x == r;
      assert forall c :: c in AllScenarioChecks(results) <==> c in AllScenarioChecks(before) || c in ScenarioChecks(r);
    }
  }

  lemma StdioCaseIsClean(suite: Suite, w: World, m: Mode)
    requires w.Valid()
    ensures forall c :: c in StdioCase(w, m).checks ==> GoodCheck(c)
    ensures CleanCase(suite, m, Stdio, CaseRecordOf(StdioCase(w, m)))
  {
    var c := StdioCase(w, m);
    forall x | x in c.checks
      ensures GoodCheck(x)
    {
      var k :| 0 <= k < |w.stdio(m)| && c.checks[k] == x;
      assert w.stdio(m)[k] in w.stdio(m);
    }
    GoodChecksReadAll(c);
  }

  lemma GoodChecksReadAll(c: Case)
    requires forall x :: x in c.checks ==> GoodCheck(x)
    ensures forall x :: x in CaseRecordOf(c).value.checks.value ==> ReadCheck(c.mode, c.transport, x).Is?
  {
    var records := CaseRecordOf(c).value.checks.value;
    forall x | x in records
      ensures ReadCheck(c.mode, c.transport, x).Is?
    {
      var k :| 0 <= k < |records| && records[k] == x;
      assert c.checks[k] in c.checks;
    }
  }

  /** An HTTP case observes exactly the scenarios it was asked to run. */
  lemma HttpCaseChecks(w: World, m: Mode, scenarios: seq<string>)
    requires scenarios != [] && forall s :: s in scenarios ==> s != ""
    ensures forall c :: c in HttpCase(w, m, scenarios).checks ==>
              GoodCheck(c) && (c.source == Supplemental || FromAny(c, TextSet(scenarios)))
    ensures forall s :: s in scenarios ==>
              AdapterCheck(s, w.outcome(m, s).adapterSuccess) in HttpCase(w, m, scenarios).checks
  {
    var results := HttpResults(w, m, scenarios);
    HttpResultsAreGood(w, m, scenarios);
    ScenarioChecksAreGood(results);
    CimdChecksAreGood(w, m, scenarios);
    HttpCaseMembers(w, m, scenarios);
    forall s | s in scenarios
      ensures AdapterCheck(s, w.outcome(m, s).adapterSuccess) in AllScenarioChecks(results)
    {
      var r := ScenarioOf(s, w.outcome(m, s));
      assert r in results && r.scenario == s && r.adapterSuccess == w.outcome(m, s).adapterSuccess;
    }
  }

  lemma HttpCaseMembers(w: World, m: Mode, scenarios: seq<string>)
    requires scenarios != []
    ensures forall c :: c in HttpCase(w, m, scenarios).checks <==>
              c in AllScenarioChecks(HttpResults(w, m, scenarios)) || c in CimdChecks(w, m, scenarios)
  {
    assert HttpCase(w, m, scenarios).checks
        == AllScenarioChecks(HttpResults(w, m, scenarios)) + CimdChecks(w, m, scenarios);
  }

  lemma HttpResultsAreGood(w: World, m: Mode, scenarios: seq<string>)
    ensures ScenarioNames(HttpResults(w, m, scenarios)) == TextSet(scenarios)
    ensures forall r :: r in HttpResults(w, m, scenarios) ==> forall c :: c in r.checks ==> c.checkId != ""
    ensures forall s :: s in scenarios ==> ScenarioOf(s, w.outcome(m, s)) in HttpResults(w, m, scenarios)
  {
    var results := HttpResults(w, m, scenarios);
    forall s | s in scenarios
      ensures ScenarioOf(s, w.outcome(m, s)) in results
    {
      var k :| 0 <= k < |scenarios| && scenarios[k] == s;
      assert results[k] in results;
    }
    forall r | r in results
      ensures r.scenario in scenarios && forall c :: c in r.checks ==> c.checkId != ""
    {
      var k :| 0 <= k < |results| && results[k] == r;
      assert scenarios[k] in scenarios;
    }
    forall s | s in scenarios
      ensures s in ScenarioNames(results)
    {
      assert ScenarioOf(s, w.outcome(m, s)).scenario == s;
    }
  }

  lemma CimdChecksAreGood(w: World, m: Mode, scenarios: seq<string>)
    ensures forall c :: c in CimdChecks(w, m, scenarios) ==> GoodCheck(c) && c.source == Supplemental
  {
  }

  lemma HttpObserves(w: World, m: Mode, scenarios: seq<string>, s: string)
    requires scenarios != [] && (forall x :: x in scenarios ==> x != "") && s in scenarios
    ensures s in ObservedScenarios(m, CaseRecordOf(HttpCase(w, m, scenarios)).value.checks.value)
  {
    var c := HttpCase(w, m, scenarios);
    var records := CaseRecordOf(c).value.checks.value;
    var h := AdapterCheck(s, w.outcome(m, s).adapterSuccess);
    HttpCaseChecks(w, m, scenarios);
    var k :| 0 <= k < |c.checks| && c.checks[k] == h;
    GoodChecksRead(m, OfficialHttp, h);
    assert records[k] == CheckRecordOf(h) && records[k] in records;
  }

  lemma HttpObservesOnly(w: World, m: Mode, scenarios: seq<string>, s: string)
    requires scenarios != [] && forall x :: x in scenarios ==> x != ""
    requires s in ObservedScenarios(m, CaseRecordOf(HttpCase(w, m, scenarios)).value.checks.value)
    ensures s in scenarios
  {
    var c := HttpCase(w, m, scenarios);
    var records := CaseRecordOf(c).value.checks.value;
    HttpCaseChecks(w, m, scenarios);
    var x :| x in records && ReadCheck(m, OfficialHttp, x).Is?
             && ReadCheck(m, OfficialHttp, x).value.0.source != Supplemental
             && ReadCheck(m, OfficialHttp, x).value.0.scenario == s;
    var k :| 0 <= k < |records| && records[k] == x;
    assert c.checks[k] in c.checks;
    GoodChecksRead(m, OfficialHttp, c.checks[k]);
  }

  lemma HttpObserved(w: World, m: Mode, scenarios: seq<string>)
    requires scenarios != [] && forall s :: s in scenarios ==> s != ""
    ensures ObservedScenarios(m, CaseRecordOf(HttpCase(w, m, scenarios)).value.checks.value) == TextSet(scenarios)
  {
    var seen := ObservedScenarios(m, CaseRecordOf(HttpCase(w, m, scenarios)).value.checks.value);
    forall s
      ensures s in seen <==> s in scenarios
    {
      if s in scenarios { HttpObserves(w, m, scenarios, s); }
      if s in seen { HttpObservesOnly(w, m, scenarios, s); }
    }
  }

  lemma HttpCaseIsClean(suite: Suite, w: World, m: Mode, scenarios: seq<string>)
    requires scenarios != [] && forall s :: s in scenarios ==> s != ""
    ensures CleanCase(suite, m, OfficialHttp, CaseRecordOf(HttpCase(w, m, scenarios)))
       <==> TextSet(scenarios) == TextSet(suite.Catalog(m))
    ensures HttpCase(w, m, scenarios).checks != []
  {
    HttpCaseChecks(w, m, scenarios);
    GoodChecksReadAll(HttpCase(w, m, scenarios));
    HttpObserved(w, m, scenarios);
    assert scenarios[0] in scenarios;
  }

  // ---------------------------------------------------------------- which cases a run holds

  type Cell = (Mode, RunTransport)

  function Row(t: RunTransport, modes: seq<Mode>): seq<Cell> {
    seq(|modes|, k requires 0 <= k < |modes| => (modes[k], t))
  }

  /** The order in which a run visits transports and modes. */
  function Grid(ts: seq<RunTransport>, modes: seq<Mode>): seq<Cell> {
    if ts == [] then [] else Grid(ts[..|ts| - 1], modes) + Row(ts[|ts| - 1], modes)
  }

  lemma {:induction false} GridMeaning(ts: seq<RunTransport>, modes: seq<Mode>)
    ensures forall m, t :: (m, t) in Grid(ts, modes) <==> m in modes && t in ts
    ensures modes != [] && ts != [] ==> (NoRepeats(Grid(ts, modes)) <==> NoRepeats(ts) && NoRepeats(modes))
  {
    if ts != [] {
      var n := |ts| - 1;
      var before, t := ts[..n], ts[n];
      GridMeaning(before, modes);
      RowMeaning(t, modes);
      assert ts == before + [t];
      NoRepeatsConcat(Grid(before, modes), Row(t, modes));
      NoRepeatsConcat(before, [t]);
      if modes != [] && t in before {
        assert (modes[0], t) in Grid(before, modes) && (modes[0], t) in Row(t, modes);
      }
    }
  }

  lemma RowMeaning(t: RunTransport, modes: seq<Mode>)
    ensures forall m, x :: (m, x) in Row(t, modes) <==> m in modes && x == t
    ensures NoRepeats(Row(t, modes)) <==> NoRepeats(modes)
  {
    var row := Row(t, modes);
    forall m | m in modes
      ensures (m, t) in row
    {
      var k :| 0 <= k < |modes| && modes[k] == m;
      assert row[k] == (m, t);
    }
    assert forall k :: 0 <= k < |row| ==> row[k] == (modes[k], t);
  }

  function TransportOf(t: RunTransport): Transport {
    if t == RunStdio then Stdio else OfficialHttp
  }

  function CaseFor(w: World, chosen: Chosen, t: RunTransport, m: Mode): Case
    requires m in chosen
  {
    if t == RunStdio then StdioCase(w, m) else HttpCase(w, m, chosen[m])
  }

  ghost predicate NonEmptyChoice(chosen: Chosen, modes: seq<Mode>) {
    forall m :: m in modes ==> m in chosen && chosen[m] != []
  }

  ghost function Mapped<T>(f: Mode --> T, modes: seq<Mode>): seq<T>
    requires forall m :: m in modes ==> f.requires(m)
  {
    if modes == [] then [] else Mapped(f, modes[..|modes| - 1]) + [f(modes[|modes| - 1])]
  }

  lemma {:induction false} MappedAt<T>(f: Mode --> T, modes: seq<Mode>, k: nat)
    requires k < |modes| && forall m :: m in modes ==> f.requires(m)
    ensures |Mapped(f, modes)| == |modes| && Mapped(f, modes)[k] == f(modes[k])
  {
    var n := |modes| - 1;
    if n > 0 {
      MappedAt(f, modes[..n], if k < n then k else 0);
    }
  }

  ghost function CellOf(w: World, chosen: Chosen, t: RunTransport): Mode --> Case {
    m requires m in chosen => CaseFor(w, chosen, t, m)
  }

  lemma {:induction false} RowIsMapped(w: World, chosen: Chosen, t: RunTransport, modes: seq<Mode>)
    requires NonEmptyChoice(chosen, modes)
    ensures RunRow(w, chosen, t, modes) == Mapped(CellOf(w, chosen, t), modes)
  {
    if modes != [] {
      var n := |modes| - 1;
      RowIsMapped(w, chosen, t, modes[..n]);
      CellIsRun(w, chosen, t, modes[n]);
    }
  }

  lemma RowIsRun(w: World, chosen: Chosen, t: RunTransport, modes: seq<Mode>, k: nat)
    requires NonEmptyChoice(chosen, modes) && k < |modes|
    ensures |RunRow(w, chosen, t, modes)| == |modes|
    ensures modes[k] in chosen && RunRow(w, chosen, t, modes)[k] == CaseFor(w, chosen, t, modes[k])
  {
    RowIsMapped(w, chosen, t, modes);
    MappedAt(CellOf(w, chosen, t), modes, k);
  }

  lemma CellIsRun(w: World, chosen: Chosen, t: RunTransport, m: Mode)
    requires m in chosen && chosen[m] != []
    ensures RunCase(w, chosen, t, m) == [CaseFor(w, chosen, t, m)]
  {
  }

  /** A run's cases are the cells of its grid, in order. */
  lemma {:induction false} CasesFollowGrid(w: World, chosen: Chosen, ts: seq<RunTransport>, modes: seq<Mode>)
    requires NonEmptyChoice(chosen, modes)
    ensures |RunCases(w, chosen, ts, modes)| == |Grid(ts, modes)|
    ensures forall k :: 0 <= k < |Grid(ts, modes)| ==>
              && Grid(ts, modes)[k].0 in modes
              && RunCases(w, chosen, ts, modes)[k] == CaseFor(w, chosen, Grid(ts, modes)[k].1, Grid(ts, modes)[k].0)
  {
    if ts != [] {
      var n := |ts| - 1;
      var before, grid := RunCases(w, chosen, ts[..n], modes), Grid(ts[..n], modes);
      CasesFollowGrid(w, chosen, ts[..n], modes);
      if modes == [] {
        assert RunRow(w, chosen, ts[n], modes) == [];
      } else {
        RowIsRun(w, chosen, ts[n], modes, 0);
      }
      forall k | |grid| <= k < |Grid(ts, modes)|
        ensures Grid(ts, modes)[k] == (modes[k - |grid|], ts[n]) && modes[k - |grid|] in modes
        ensures RunCases(w, chosen, ts, modes)[k] == CaseFor(w, chosen, ts[n], modes[k - |grid|])
      {
        RowIsRun(w, chosen, ts[n], modes, k - |grid|);
      }
      assert forall k :: 0 <= k < |grid| ==>
        RunCases(w, chosen, ts, modes)[k] == before[k] && Grid(ts, modes)[k] == grid[k];
    }
  }

  // ---------------------------------------------------------------- the producer meets the reader

  /** The run visits a mode over both transports with every catalog scenario. */
  ghost predicate CoversMode(u: Upstream, q: Request, m: Mode)
    requires u.Valid()
  {
    && m in q.modes && RunStdio in q.transports && RunHttp in q.transports
    && (q.requested == [] || forall s :: s in u.Available(m, true) ==> s in q.requested)
  }

  /** Everything the gate needs a run to have covered. */
  ghost predicate Complete(u: Upstream, q: Request, w: World)
    requires u.Valid()
  {
    && w.versionOk && q.modernFeature && q.includeAuth
    && NoRepeats(q.modes) && NoRepeats(q.transports)
    && forall m: Mode :: CoversMode(u, q, m)
  }

  ghost predicate Starts(u: Upstream, q: Request, w: World) {
    u.Valid() && w.Valid() && forall m :: m in q.modes ==> Selectable(u, q, m)
  }

  function ProducedReport(u: Upstream, q: Request, w: World): Report
    requires Starts(u, q, w)
  {
    ReportOf(u, q, w, ChosenFor(u, q), CasesOf(u, q, w))
  }

  lemma ChoiceIsNonEmpty(u: Upstream, q: Request, w: World)
    requires Starts(u, q, w)
    ensures NonEmptyChoice(ChosenFor(u, q), q.modes)
    ensures forall m, s :: m in q.modes && s in ChosenFor(u, q)[m] ==> s != ""
  {
    forall m | m in q.modes
      ensures ChosenFor(u, q)[m] != [] && forall s :: s in ChosenFor(u, q)[m] ==> s != ""
    {
      assert Selectable(u, q, m);
      OnlyKeepsAll(u.Available(m, q.includeAuth), TextSet(q.requested));
    }
  }

  lemma HeaderOfReport(u: Upstream, q: Request, w: World, chosen: Chosen, cases: seq<Case>)
    requires u.Valid()
    ensures CleanHeader(u.Suite(), ReportOf(u, q, w, chosen, cases)) <==>
            w.versionOk && q.modernFeature && q.includeAuth
    ensures forall m: Mode :: CleanCatalog(u.Suite(), ReportOf(u, q, w, chosen, cases), m) <==>
              m in chosen && chosen[m] == u.Available(m, true)
  {
    var r := ReportOf(u, q, w, chosen, cases);
    forall m: Mode
      ensures CleanCatalog(u.Suite(), r, m) <==> m in chosen && chosen[m] == u.Available(m, true)
    {
      assert u.Suite().Catalog(m) == u.Available(m, true);
      assert RegressionReport.Selected(r) == map x | x in chosen :: Is(chosen[x]);
    }
  }

  /** No case is visited twice. */
  ghost predicate VisitsOnce(q: Request) {
    q.modes == [] || q.transports == [] || (NoRepeats(q.transports) && NoRepeats(q.modes))
  }

  /**
   A run makes a new directory for every case, and so finishes, exactly when it visits no mode and no
   transport twice; its report then holds distinct cases, and would not otherwise.
   */
  lemma ProducedCasesDistinct(u: Upstream, q: Request, w: World)
    requires Starts(u, q, w)
    ensures NoRepeats(Homes(CasesOf(u, q, w))) <==> VisitsOnce(q)
    ensures DistinctCases(ProducedReport(u, q, w).cases.value) <==> VisitsOnce(q)
  {
    var chosen, grid := ChosenFor(u, q), Grid(q.transports, q.modes);
    var cases, records := CasesOf(u, q, w), ProducedReport(u, q, w).cases.value;
    ChoiceIsNonEmpty(u, q, w);
    CasesFollowGrid(w, chosen, q.transports, q.modes);
    GridMeaning(q.transports, q.modes);
    EmptyGrid(q.transports, q.modes);
    DistinctByKeys(records, grid);
    HomesByCells(Homes(cases), grid);
  }

  lemma {:induction false} EmptyGrid(ts: seq<RunTransport>, modes: seq<Mode>)
    ensures modes == [] || ts == [] ==> Grid(ts, modes) == []
  {
    if ts != [] {
      EmptyGrid(ts[..|ts| - 1], modes);
    }
  }

  lemma HomesByCells(homes: seq<Home>, grid: seq<Cell>)
    requires |homes| == |grid|
    requires forall k :: 0 <= k < |grid| ==> homes[k] == (TransportOf(grid[k].1), grid[k].0)
    ensures NoRepeats(homes) <==> NoRepeats(grid)
  {
    if NoRepeats(homes) {
      forall j, k | 0 <= j < k < |grid| ensures grid[j] != grid[k] { assert homes[j] != homes[k]; }
    }
  }

  lemma DistinctByKeys(records: seq<Raw<CaseRecord>>, grid: seq<(Mode, RunTransport)>)
    requires |records| == |grid|
    requires forall k :: 0 <= k < |grid| ==> CaseKeyOf(records[k]) == Is((grid[k].0, Known(TransportOf(grid[k].1))))
    ensures DistinctCases(records) <==> NoRepeats(grid)
  {
    forall j, k | 0 <= j < k < |grid|
      ensures CaseKeyOf(records[j]) != CaseKeyOf(records[k]) <==> grid[j] != grid[k]
    {
    }
    if DistinctCases(records) {
      forall j, k | 0 <= j < k < |grid| ensures grid[j] != grid[k] {
        assert CaseKeyOf(records[j]).Is?;
      }
    }
  }

  /** Some case is clean for a mode and transport exactly when the run visited it, with the whole catalog over HTTP. */
  lemma RunHasCleanCase(suite: Suite, w: World, chosen: Chosen, ts: seq<RunTransport>, modes: seq<Mode>, m: Mode,
                        t: RunTransport)
    requires w.Valid() && NonEmptyChoice(chosen, modes)
    requires forall x, s :: x in modes && s in chosen[x] ==> s != ""
    ensures HasCleanCase(suite, m, TransportOf(t), RecordsOf(RunCases(w, chosen, ts, modes))) <==>
            && m in modes && t in ts
            && (t == RunHttp ==> TextSet(chosen[m]) == TextSet(suite.Catalog(m)))
  {
    var records := RecordsOf(RunCases(w, chosen, ts, modes));
    if m in modes {
      CellIsClean(suite, w, chosen, t, m);
      if t in ts {
        CellIsRecorded(w, chosen, ts, modes, m, t);
      }
    }
    if c :| c in records && CleanCase(suite, m, TransportOf(t), c) {
      var x, y := RecordHasCell(w, chosen, ts, modes, c);
      assert x == m && y == t;
    }
  }

  lemma CellIsRecorded(w: World, chosen: Chosen, ts: seq<RunTransport>, modes: seq<Mode>, m: Mode, t: RunTransport)
    requires NonEmptyChoice(chosen, modes) && m in modes && t in ts
    ensures CaseRecordOf(CaseFor(w, chosen, t, m)) in RecordsOf(RunCases(w, chosen, ts, modes))
  {
    CasesFollowGrid(w, chosen, ts, modes);
    GridMeaning(ts, modes);
    var grid, records := Grid(ts, modes), RecordsOf(RunCases(w, chosen, ts, modes));
    assert (m, t) in grid;
    var k :| 0 <= k < |grid| && grid[k] == (m, t);
    assert records[k] == CaseRecordOf(CaseFor(w, chosen, t, m));
  }

  lemma RecordHasCell(w: World, chosen: Chosen, ts: seq<RunTransport>, modes: seq<Mode>, c: Raw<CaseRecord>)
    returns (m: Mode, t: RunTransport)
    requires NonEmptyChoice(chosen, modes) && c in RecordsOf(RunCases(w, chosen, ts, modes))
    ensures m in modes && t in ts && c == CaseRecordOf(CaseFor(w, chosen, t, m))
    ensures CaseKeyOf(c) == Is((m, Known(TransportOf(t))))
  {
    CasesFollowGrid(w, chosen, ts, modes);
    GridMeaning(ts, modes);
    var grid, records := Grid(ts, modes), RecordsOf(RunCases(w, chosen, ts, modes));
    var k :| 0 <= k < |records| && records[k] == c;
    m, t := grid[k].0, grid[k].1;
    assert grid[k] in grid && grid[k] == (m, t);
    CellKey(w, chosen, t, m);
  }

  lemma CellKey(w: World, chosen: Chosen, t: RunTransport, m: Mode)
    requires m in chosen
    ensures CaseKeyOf(CaseRecordOf(CaseFor(w, chosen, t, m))) == Is((m, Known(TransportOf(t))))
  {
  }

  lemma CellIsClean(suite: Suite, w: World, chosen: Chosen, t: RunTransport, m: Mode)
    requires w.Valid() && m in chosen && chosen[m] != [] && forall s :: s in chosen[m] ==> s != ""
    ensures CleanCase(suite, m, TransportOf(t), CaseRecordOf(CaseFor(w, chosen, t, m))) <==>
            (t == RunHttp ==> TextSet(chosen[m]) == TextSet(suite.Catalog(m)))
  {
    if t == RunStdio {
      StdioCaseIsClean(suite, w, m);
    } else {
      HttpCaseIsClean(suite, w, m, chosen[m]);
    }
  }

  /** The gate's reader accepts a run's report exactly when the run was complete. */
  lemma ProducerMeetsReader(u: Upstream, q: Request, w: World)
    requires Starts(u, q, w)
    ensures Read(u.Suite(), ProducedReport(u, q, w)).problems == [] <==> Complete(u, q, w)
  {
    var suite, r := u.Suite(), ProducedReport(u, q, w);
    ReadIsClean(suite, r);
    HeaderOfReport(u, q, w, ChosenFor(u, q), CasesOf(u, q, w));
    ProducedCasesDistinct(u, q, w);
    if q.includeAuth {
      forall m: Mode
        ensures CleanMode(suite, r, r.cases.value, m) <==> CoversMode(u, q, m)
      {
        ProducedModeIsClean(u, q, w, m);
      }
    }
    if Read(suite, r).problems == [] {
      assert CleanMode(suite, r, r.cases.value, Shipping);
      forall m: Mode ensures CoversMode(u, q, m) { assert CleanMode(suite, r, r.cases.value, m); }
    }
    if Complete(u, q, w) {
      assert CoversMode(u, q, Shipping);
      forall m: Mode ensures CleanMode(suite, r, r.cases.value, m) { assert CoversMode(u, q, m); }
    }
  }

  lemma ProducedModeIsClean(u: Upstream, q: Request, w: World, m: Mode)
    requires Starts(u, q, w) && q.includeAuth
    ensures CleanMode(u.Suite(), ProducedReport(u, q, w), ProducedReport(u, q, w).cases.value, m) <==>
            CoversMode(u, q, m)
  {
    var suite, chosen := u.Suite(), ChosenFor(u, q);
    assert suite.Catalog(m) == u.Available(m, true);
    HeaderOfReport(u, q, w, chosen, CasesOf(u, q, w));
    ChoiceIsNonEmpty(u, q, w);
    RunHasCleanCase(suite, w, chosen, q.transports, q.modes, m, RunStdio);
    RunHasCleanCase(suite, w, chosen, q.transports, q.modes, m, RunHttp);
    if m in q.modes {
      assert Selectable(u, q, m);
      WholeCatalogSelected(u, m, q.requested, true);
    }
  }

  // ---------------------------------------------------------------- what a complete run records

  lemma CompleteRunTable(u: Upstream, q: Request, w: World, m: Mode, t: RunTransport)
    requires Starts(u, q, w) && Complete(u, q, w)
    ensures m in q.modes && NonEmptyChoice(ChosenFor(u, q), q.modes)
    ensures var table := CaseTable(CaseList(ProducedReport(u, q, w)));
            var key := (m, Known(TransportOf(t)));
            key in table && table[key] == CaseRecordOf(CaseFor(w, ChosenFor(u, q), t, m)).value
  {
    var chosen, cases := ChosenFor(u, q), CaseList(ProducedReport(u, q, w));
    var key := (m, Known(TransportOf(t)));
    ChoiceIsNonEmpty(u, q, w);
    assert CoversMode(u, q, m);
    ProducedCasesDistinct(u, q, w);
    CellIsRecorded(w, chosen, q.transports, q.modes, m, t);
    DistinctIsTabled(cases, CaseRecordOf(CaseFor(w, chosen, t, m)), key);
  }

  lemma DistinctIsTabled(cases: seq<Raw<CaseRecord>>, c: Raw<CaseRecord>, key: CaseKey)
    requires DistinctCases(cases) && c in cases && CaseKeyOf(c) == Is(key)
    ensures c.Is? && key in CaseTable(cases) && CaseTable(cases)[key] == c.value
  {
    CaseTableMeaning(cases, key);
    var j :| 0 <= j < |cases| && cases[j] == c;
    var k :| FirstAt(cases, key, k) && cases[k].value == CaseTable(cases)[key];
  }

  /** Some check of the run has this identity and status. */
  ghost predicate Checked(u: Upstream, q: Request, w: World, i: Identity, st: Status)
    requires Starts(u, q, w)
  {
    exists c :: c in CellChecks(u, q, w, i.mode, i.transport) && IdentityOf(i.mode, i.transport, c) == i
      && c.status == st
  }

  lemma TableMirrorsChecks(u: Upstream, q: Request, w: World, i: Identity, st: Status)
    requires Starts(u, q, w) && Complete(u, q, w)
    ensures Recorded(CaseTable(CaseList(ProducedReport(u, q, w))), i, st) <==> Checked(u, q, w, i, st)
  {
    var checks := CellChecks(u, q, w, i.mode, i.transport);
    CellTable(u, q, w, i.mode, i.transport);
    CellChecksAreGood(u, q, w, i.mode, i.transport);
    RecordedFrom(CaseTable(CaseList(ProducedReport(u, q, w))), checks, i, st);
  }

  lemma CellTable(u: Upstream, q: Request, w: World, m: Mode, t: Transport)
    requires Starts(u, q, w) && Complete(u, q, w)
    ensures m in q.modes
    ensures var table := CaseTable(CaseList(ProducedReport(u, q, w)));
            (m, Known(t)) in table && table[(m, Known(t))].checks == Is(CheckRecords(CellChecks(u, q, w, m, t)))
  {
    var x := if t == Stdio then RunStdio else RunHttp;
    CompleteRunTable(u, q, w, m, x);
    assert CaseFor(w, ChosenFor(u, q), x, m).checks == CellChecks(u, q, w, m, t);
  }

  /** A complete run's reading holds exactly the identities and statuses of the checks it ran. */
  lemma CompleteRunStatuses(u: Upstream, q: Request, w: World, i: Identity, st: Status)
    requires Starts(u, q, w) && Complete(u, q, w)
    ensures Has(Read(u.Suite(), ProducedReport(u, q, w)).identities, i, st) <==> Checked(u, q, w, i, st)
  {
    TableMirrorsChecks(u, q, w, i, st);
    FullReadingMeaning(u.Suite(), ProducedReport(u, q, w), i, st);
  }

  lemma RecordedFrom(table: map<CaseKey, CaseRecord>, checks: seq<Check>, i: Identity, st: Status)
    requires (i.mode, Known(i.transport)) in table
    requires table[(i.mode, Known(i.transport))].checks == Is(CheckRecords(checks))
    requires forall c :: c in checks ==> GoodCheck(c)
    ensures Recorded(table, i, st) <==>
            exists c :: c in checks && IdentityOf(i.mode, i.transport, c) == i && c.status == st
  {
    var records := CheckRecords(checks);
    if x :| x in records && ReadCheck(i.mode, i.transport, x) == Is((i, st)) {
      var k :| 0 <= k < |records| && records[k] == x;
      assert checks[k] in checks;
      GoodChecksRead(i.mode, i.transport, checks[k]);
    }
    if c :| c in checks && IdentityOf(i.mode, i.transport, c) == i && c.status == st {
      var k :| 0 <= k < |checks| && checks[k] == c;
      GoodChecksRead(i.mode, i.transport, c);
      assert records[k] in records && records[k] == CheckRecordOf(c);
    }
  }

  /** The checks a run records for a mode and transport. */
  function CellChecks(u: Upstream, q: Request, w: World, m: Mode, t: Transport): seq<Check>
    requires Starts(u, q, w)
  {
    if t == Stdio then StdioCase(w, m).checks
    else if m in ChosenFor(u, q) then HttpCase(w, m, ChosenFor(u, q)[m]).checks
    else []
  }

  lemma CellChecksAreGood(u: Upstream, q: Request, w: World, m: Mode, t: Transport)
    requires Starts(u, q, w) && m in q.modes
    ensures forall c :: c in CellChecks(u, q, w, m, t) ==> GoodCheck(c)
  {
    ChoiceIsNonEmpty(u, q, w);
    if t == Stdio {
      StdioCaseIsClean(u.Suite(), w, m);
    } else {
      HttpCaseChecks(w, m, ChosenFor(u, q)[m]);
    }
  }

  /** A recorded pass or failure is enough for an identity not to be only skipped. */
  lemma RecordedRan(u: Upstream, q: Request, w: World, m: Mode, t: Transport, c: Check)
    requires Starts(u, q, w) && Complete(u, q, w)
    requires c in CellChecks(u, q, w, m, t) && c.status != Skip
    ensures var ids := Read(u.Suite(), ProducedReport(u, q, w)).identities;
            var i := IdentityOf(m, t, c);
            i in ids && ids[i] != {Skip}
  {
    CompleteRunStatuses(u, q, w, IdentityOf(m, t, c), c.status);
  }

  /** A complete run never leaves a required case or scenario with skipped checks only. */
  lemma CompleteRunSkipsNothing(u: Upstream, q: Request, w: World)
    requires Starts(u, q, w) && Complete(u, q, w)
    ensures NothingOnlySkipped(u.Suite(), Read(u.Suite(), ProducedReport(u, q, w)).identities)
  {
    var suite, ids := u.Suite(), Read(u.Suite(), ProducedReport(u, q, w)).identities;
    forall m: Mode, s: string | s in suite.Catalog(m)
      ensures ScenarioRan(ids, m, s)
    {
      ScenarioWasRun(u, q, w, m, s);
    }
    forall m: Mode, t: Transport
      ensures CaseRan(ids, m, t)
    {
      CaseWasRun(u, q, w, m, t);
    }
  }

  lemma CaseWasRun(u: Upstream, q: Request, w: World, m: Mode, t: Transport)
    requires Starts(u, q, w) && Complete(u, q, w)
    ensures CaseRan(Read(u.Suite(), ProducedReport(u, q, w)).identities, m, t)
  {
    if t == Stdio {
      var c := StdioCase(w, m).checks[0];
      assert c in CellChecks(u, q, w, m, Stdio);
      RecordedRan(u, q, w, m, Stdio, c);
    } else {
      assert u.Suite().Catalog(m) == u.Available(m, true) && u.nonAuth[m] != [];
      ScenarioWasRun(u, q, w, m, u.Available(m, true)[0]);
    }
  }

  lemma ScenarioHasCheck(u: Upstream, q: Request, w: World, m: Mode, s: string)
    requires Starts(u, q, w) && Complete(u, q, w) && s in u.Suite().Catalog(m)
    ensures AdapterCheck(s, w.outcome(m, s).adapterSuccess) in CellChecks(u, q, w, m, OfficialHttp)
  {
    assert CoversMode(u, q, m) && u.Suite().Catalog(m) == u.Available(m, true);
    assert Selectable(u, q, m);
    WholeCatalogSelected(u, m, q.requested, true);
    ChoiceIsNonEmpty(u, q, w);
    HttpCaseChecks(w, m, ChosenFor(u, q)[m]);
  }

  lemma ScenarioWasRun(u: Upstream, q: Request, w: World, m: Mode, s: string)
    requires Starts(u, q, w) && Complete(u, q, w) && s in u.Suite().Catalog(m)
    ensures ScenarioRan(Read(u.Suite(), ProducedReport(u, q, w)).identities, m, s)
  {
    var c := AdapterCheck(s, w.outcome(m, s).adapterSuccess);
    ScenarioHasCheck(u, q, w, m, s);
    RecordedRan(u, q, w, m, OfficialHttp, c);
    assert IdentityOf(m, OfficialHttp, c).scenario == s;
  }

  ghost predicate EveryCheckSucceeds(u: Upstream, q: Request, w: World)
    requires Starts(u, q, w)
  {
    forall m: Mode, t: Transport :: AllSucceed(CellChecks(u, q, w, m, t))
  }

  lemma RunSucceedsByCells(u: Upstream, q: Request, w: World)
    requires Starts(u, q, w) && Complete(u, q, w)
    ensures RunSucceeds(w, CasesOf(u, q, w)) <==> EveryCheckSucceeds(u, q, w)
  {
    var cases, chosen, grid := CasesOf(u, q, w), ChosenFor(u, q), Grid(q.transports, q.modes);
    ChoiceIsNonEmpty(u, q, w);
    CasesFollowGrid(w, chosen, q.transports, q.modes);
    GridMeaning(q.transports, q.modes);
    if RunSucceeds(w, cases) {
      forall m: Mode, t: Transport
        ensures AllSucceed(CellChecks(u, q, w, m, t))
      {
        assert CoversMode(u, q, m);
        var x := if t == Stdio then RunStdio else RunHttp;
        assert (m, x) in grid;
        var k :| 0 <= k < |grid| && grid[k] == (m, x);
        assert cases[k] in cases;
      }
    }
    if EveryCheckSucceeds(u, q, w) {
      forall c | c in cases
        ensures c.success
      {
        var k :| 0 <= k < |cases| && cases[k] == c;
        CellSucceeds(u, q, w, grid[k].0, grid[k].1);
      }
    }
  }

  lemma CellSucceeds(u: Upstream, q: Request, w: World, m: Mode, t: RunTransport)
    requires Starts(u, q, w) && EveryCheckSucceeds(u, q, w) && m in q.modes
    ensures CaseFor(w, ChosenFor(u, q), t, m).success
  {
    ChoiceIsNonEmpty(u, q, w);
    assert AllSucceed(CellChecks(u, q, w, m, TransportOf(t)));
    if t == RunHttp {
      HttpCaseIsClean(u.Suite(), w, m, ChosenFor(u, q)[m]);
    }
  }

  /** A complete run succeeds exactly when the gate would see no failing check in it. */
  lemma RunSuccessIsExact(u: Upstream, q: Request, w: World)
    requires Starts(u, q, w) && Complete(u, q, w)
    ensures RunSucceeds(w, CasesOf(u, q, w)) <==> With(Read(u.Suite(), ProducedReport(u, q, w)).identities, Fail) == {}
  {
    RunSucceedsByCells(u, q, w);
    var ids := Read(u.Suite(), ProducedReport(u, q, w)).identities;
    forall i
      ensures i in With(ids, Fail) <==> Checked(u, q, w, i, Fail)
    {
      CompleteRunStatuses(u, q, w, i, Fail);
    }
    FailuresAreChecks(u, q, w);
  }

  lemma FailuresAreChecks(u: Upstream, q: Request, w: World)
    requires Starts(u, q, w) && Complete(u, q, w)
    ensures EveryCheckSucceeds(u, q, w) <==> forall i :: !Checked(u, q, w, i, Fail)
  {
    forall m: Mode, t: Transport
      ensures forall c :: c in CellChecks(u, q, w, m, t) ==> GoodCheck(c)
    {
      assert CoversMode(u, q, m);
      CellChecksAreGood(u, q, w, m, t);
    }
    if !EveryCheckSucceeds(u, q, w) {
      var m: Mode, t: Transport :| !AllSucceed(CellChecks(u, q, w, m, t));
      var c :| c in CellChecks(u, q, w, m, t) && !c.success;
      assert Checked(u, q, w, IdentityOf(m, t, c), Fail);
    }
    if i :| Checked(u, q, w, i, Fail) {
      assert !AllSucceed(CellChecks(u, q, w, i.mode, i.transport));
    }
  }

  /**
   The whole pipeline: a complete run without a shipping failure can be stored as a baseline, the
   stored baseline reads back with the same passes and failures, and gating any candidate against it
   gives the result of gating against the run itself.
   */
  lemma StoredRunIsFaithful(u: Upstream, q: Request, w: World, candidate: Report)
    requires Starts(u, q, w) && Complete(u, q, w)
    requires !ShippingFails(Read(u.Suite(), ProducedReport(u, q, w)).identities)
    ensures var suite, run := u.Suite(), ProducedReport(u, q, w);
            && Compact(suite, run).Written?
            && var stored := Compact(suite, run).report;
            && Read(suite, stored).problems == []
            && With(Read(suite, stored).identities, Pass) == With(Read(suite, run).identities, Pass)
            && With(Read(suite, stored).identities, Fail) == With(Read(suite, run).identities, Fail)
            && Compact(suite, stored) == Written(stored)
            && Gate(suite, candidate, stored) == Gate(suite, candidate, run)
            && Gate(suite, run, stored).success
  {
    var suite, run := u.Suite(), ProducedReport(u, q, w);
    ProducerMeetsReader(u, q, w);
    CompleteRunSkipsNothing(u, q, w);
    StoredIsFaithful(suite, run, candidate);
  }

  lemma StoredIsFaithful(suite: Suite, run: Report, candidate: Report)
    requires Read(suite, run).problems == [] && run.automaticAuth.Is?
    requires !ShippingFails(Read(suite, run).identities) && NothingOnlySkipped(suite, Read(suite, run).identities)
    ensures Compact(suite, run).Written?
    ensures var stored := Compact(suite, run).report;
            && Read(suite, stored).problems == []
            && With(Read(suite, stored).identities, Pass) == With(Read(suite, run).identities, Pass)
            && With(Read(suite, stored).identities, Fail) == With(Read(suite, run).identities, Fail)
            && Compact(suite, stored) == Written(stored)
            && Gate(suite, candidate, stored) == Gate(suite, candidate, run)
            && Gate(suite, run, stored).success
  {
    ReadIsClean(suite, run);
    CompactAccepts(suite, run);
    CompactReadsBack(suite, run);
    CompactKeepsStatuses(suite, run);
    CompactIdempotent(suite, run);
    CompactionRefines(suite, run, candidate);
    CompactionRefines(suite, run, run);
    GateReflexive(suite, run);
    SkipsDoNotMatter(Read(suite, run).identities);
  }

  /** What the command line asks for when nothing is restricted. */
  function DefaultRequest(automaticAuth: bool): Request {
    Request([Shipping, Legacy, Modern], [RunStdio, RunHttp], [], true, true, automaticAuth)
  }

  /** A run with the default options always starts, and is accepted exactly when the version check succeeded. */
  lemma DefaultRunIsAccepted(u: Upstream, w: World, automaticAuth: bool)
    requires u.Valid() && w.Valid()
    ensures Starts(u, DefaultRequest(automaticAuth), w)
    ensures Read(u.Suite(), ProducedReport(u, DefaultRequest(automaticAuth), w)).problems == [] <==> w.versionOk
  {
    var q := DefaultRequest(automaticAuth);
    forall m: Mode
      ensures CoversMode(u, q, m)
    {
      assert m == Shipping || m == Legacy || m == Modern;
    }
    assert NoRepeats(q.modes) && NoRepeats(q.transports);
    ProducerMeetsReader(u, q, w);
  }
}
