/** `run_compliance`: which scenarios are selected, which cases are run, and the report made of them. */
module ComplianceReport {
  import opened Wrappers
  import opened JsonFields
  import opened RegressionReport
  import opened ConformanceRun
  import opened Sequences

  /** The pinned upstream release: non-authenticated and OAuth scenarios by mode. */
  datatype Upstream = Upstream(repository: string, gitRef: string,
                               nonAuth: map<Mode, seq<string>>, auth: map<Mode, seq<string>>)
  {
    ghost predicate Valid() {
      && (forall m: Mode :: m in nonAuth && m in auth && nonAuth[m] != [])
      && (forall m: Mode, s: string :: s in nonAuth[m] || s in auth[m] ==> s != "")
    }

    function Available(m: Mode, includeAuth: bool): seq<string>
      requires m in nonAuth && m in auth
    {
      nonAuth[m] + if includeAuth then auth[m] else []
    }

    function Suite(): Suite
      requires forall m: Mode :: m in nonAuth && m in auth
    {
      RegressionReport.Suite(repository, gitRef, Available(Shipping, true), Available(Legacy, true),
                             Available(Modern, true))
    }
  }

  datatype Selection = Selected(scenarios: seq<string>) | UnknownScenarios | AuthDisabled | Unavailable

  function Names(catalogs: map<Mode, seq<string>>): set<string> {
    set m, s | m in catalogs && s in catalogs[m] :: s
  }

  function Only(names: seq<string>, wanted: set<string>): seq<string> {
    if names == [] then []
    else Only(names[..|names| - 1], wanted) + if names[|names| - 1] in wanted then [names[|names| - 1]] else []
  }

  /** `scenarios_for_mode`. */
  function ScenariosForMode(u: Upstream, m: Mode, requested: seq<string>, includeAuth: bool): Selection
    requires m in u.nonAuth && m in u.auth
  {
    var wanted := TextSet(requested);
    if requested == [] then Selected(u.Available(m, includeAuth))
    else if !(wanted <= Names(u.nonAuth) + Names(u.auth)) then UnknownScenarios
    else if !includeAuth && wanted * Names(u.auth) != {} then AuthDisabled
    else if Only(u.Available(m, includeAuth), wanted) == [] then Unavailable
    else Selected(Only(u.Available(m, includeAuth), wanted))
  }

  lemma {:induction false} OnlyKeepsAll(names: seq<string>, wanted: set<string>)
    ensures Only(names, wanted) == names <==> forall s :: s in names ==> s in wanted
    ensures |Only(names, wanted)| <= |names|
    ensures forall s :: s in Only(names, wanted) <==> s in names && s in wanted
  {
    if names != [] {
      var n := |names| - 1;
      OnlyKeepsAll(names[..n], wanted);
      assert names == names[..n] + [names[n]];
      if names[n] in wanted {
        assert Only(names, wanted)[..|Only(names, wanted)| - 1] == Only(names[..n], wanted);
      }
    }
  }

  /** The whole catalog is selected exactly when OAuth is on and no scenario was left out of the request. */
  lemma WholeCatalogSelected(u: Upstream, m: Mode, requested: seq<string>, includeAuth: bool)
    requires u.Valid() && includeAuth
    ensures ScenariosForMode(u, m, requested, includeAuth) == Selected(u.Available(m, true)) ==>
            requested == [] || forall s :: s in u.Available(m, true) ==> s in requested
    ensures ScenariosForMode(u, m, requested, includeAuth).Selected? &&
            (requested == [] || forall s :: s in u.Available(m, true) ==> s in requested) ==>
            ScenariosForMode(u, m, requested, includeAuth) == Selected(u.Available(m, true))
  {
    OnlyKeepsAll(u.Available(m, true), TextSet(requested));
  }

  // ---------------------------------------------------------------- one run

  datatype RunTransport = RunStdio | RunHttp

  /** What was asked of the run. */
  datatype Request = Request(modes: seq<Mode>, transports: seq<RunTransport>, requested: seq<string>,
                             includeAuth: bool, modernFeature: bool, automaticAuth: bool)

  /** What the tested binary and the upstream runner did; arbitrary. */
  datatype World = World(versionOk: bool, stdio: Mode -> seq<(string, bool)>,
                         outcome: (Mode, string) -> Outcome, autoCimd: bool, forcedCimd: bool)
  {
    /** A stdio case always records at least its first, named, step. */
    ghost predicate Valid() {
      forall m: Mode :: stdio(m) != [] && forall x :: x in stdio(m) ==> x.0 != ""
    }
  }

  const OFFLINE_SCOPE := "auth/offline-access-scope"

  function StdioCase(w: World, m: Mode): Case {
    var steps := w.stdio(m);
    Finished(Stdio, m, seq(|steps|, k requires 0 <= k < |steps| =>
      Check(steps[k].0, steps[k].1, Verdict(steps[k].1), Supplemental, None, None)))
  }

  function CimdCheck(name: string, ok: bool): Check {
    Check(CheckName("supplemental", OFFLINE_SCOPE, name), ok, Verdict(ok), Supplemental, Some(OFFLINE_SCOPE),
          Some(name))
  }

  /** `_cimd_registration_checks`, run on top of the modern offline-access scenario. */
  function CimdChecks(w: World, m: Mode, scenarios: seq<string>): seq<Check> {
    if m == Modern && OFFLINE_SCOPE in scenarios
    then [CimdCheck("auto_cimd", w.autoCimd), CimdCheck("forced_cimd", w.forcedCimd)] else []
  }

  function HttpResults(w: World, m: Mode, scenarios: seq<string>): seq<ScenarioResult> {
    seq(|scenarios|, k requires 0 <= k < |scenarios| => ScenarioOf(scenarios[k], w.outcome(m, scenarios[k])))
  }

  function HttpCase(w: World, m: Mode, scenarios: seq<string>): Case {
    OfficialCase(m, HttpResults(w, m, scenarios), CimdChecks(w, m, scenarios))
  }

  type Chosen = map<Mode, seq<string>>

  function RunCase(w: World, chosen: Chosen, t: RunTransport, m: Mode): seq<Case>
    requires m in chosen
  {
    if t == RunStdio then [StdioCase(w, m)]
    else if chosen[m] == [] then []
    else [HttpCase(w, m, chosen[m])]
  }

  function RunRow(w: World, chosen: Chosen, t: RunTransport, modes: seq<Mode>): seq<Case>
    requires forall m :: m in modes ==> m in chosen
  {
    if modes == [] then []
    else RunRow(w, chosen, t, modes[..|modes| - 1]) + RunCase(w, chosen, t, modes[|modes| - 1])
  }

  function RunCases(w: World, chosen: Chosen, transports: seq<RunTransport>, modes: seq<Mode>): seq<Case>
    requires forall m :: m in modes ==> m in chosen
  {
    if transports == [] then []
    else RunCases(w, chosen, transports[..|transports| - 1], modes)
         + RunRow(w, chosen, transports[|transports| - 1], modes)
  }

  function CheckRecordOf(c: Check): Raw<CheckRecord> {
    Is(CheckRecord(Is(c.name), Is(c.source), if c.scenario.Some? then Is(c.scenario.value) else Missing,
                   if c.checkId.Some? then Is(c.checkId.value) else Missing, Is(c.status), Is(c.success)))
  }

  function CheckRecords(checks: seq<Check>): seq<Raw<CheckRecord>> {
    seq(|checks|, k requires 0 <= k < |checks| => CheckRecordOf(checks[k]))
  }

  function CaseRecordOf(c: Case): Raw<CaseRecord> {
    Is(CaseRecord(Is(c.mode), Is(Known(c.transport)), Is(CheckRecords(c.checks))))
  }

  function RecordsOf(cases: seq<Case>): seq<Raw<CaseRecord>> {
    seq(|cases|, k requires 0 <= k < |cases| => CaseRecordOf(cases[k]))
  }

  function ReportOf(u: Upstream, q: Request, w: World, chosen: Chosen, cases: seq<Case>): Report {
    Report(Is(REPORT_SCHEMA_VERSION), Is(Is(w.versionOk)), Is(q.modernFeature), Is(q.automaticAuth),
           Is(OfficialMetadata(Is(u.repository), Is(u.gitRef), Is(q.includeAuth),
                               Is(map m | m in chosen :: Is(chosen[m])))),
           Missing, Missing, Missing, Missing,
           Is(RecordsOf(cases)))
  }

  /** A finished run, the mode whose scenario selection failed, or the case whose directory already existed. */
  datatype RunResult = Ran(report: Report, success: bool) | NotRun(mode: Mode) | HomeExists(home: Home)

  /** The directory a case is run in, made anew for it: one for each transport and mode. */
  type Home = (Transport, Mode)

  function HomeOf(c: Case): Home {
    (c.transport, c.mode)
  }

  function Homes(cases: seq<Case>): seq<Home> {
    seq(|cases|, k requires 0 <= k < |cases| => HomeOf(cases[k]))
  }

  predicate Selectable(u: Upstream, q: Request, m: Mode)
    requires m in u.nonAuth && m in u.auth
  {
    ScenariosForMode(u, m, q.requested, q.includeAuth).Selected?
  }

  /** `scenarios_for_mode` for every requested mode, when none fails. */
  function ChosenFor(u: Upstream, q: Request): Chosen
    requires forall m: Mode :: m in u.nonAuth && m in u.auth
    requires forall m :: m in q.modes ==> Selectable(u, q, m)
  {
    map m | m in q.modes :: assert Selectable(u, q, m); ScenariosForMode(u, m, q.requested, q.includeAuth).scenarios
  }

  function CasesOf(u: Upstream, q: Request, w: World): seq<Case>
    requires forall m: Mode :: m in u.nonAuth && m in u.auth
    requires forall m :: m in q.modes ==> Selectable(u, q, m)
  {
    RunCases(w, ChosenFor(u, q), q.transports, q.modes)
  }

  /** Scenario selection stops at this mode: it is the first that cannot be selected. */
  ghost predicate FirstUnselectable(u: Upstream, q: Request, k: int)
    requires u.Valid()
  {
    && 0 <= k < |q.modes| && !Selectable(u, q, q.modes[k])
    && forall j :: 0 <= j < k ==> Selectable(u, q, q.modes[j])
  }

  /** Picks the scenarios of every mode before anything runs. */
  method SelectScenarios(u: Upstream, q: Request) returns (chosen: Chosen, failed: Option<Mode>)
    requires u.Valid()
    ensures failed.Some? ==> exists k :: FirstUnselectable(u, q, k) && failed.value == q.modes[k]
    ensures failed.None? ==> (forall m :: m in q.modes ==> Selectable(u, q, m)) && chosen == ChosenFor(u, q)
  {
    chosen := map[];
    for k := 0 to |q.modes|
      invariant chosen.Keys == set m | m in q.modes[..k]
      invariant forall m :: m in q.modes[..k] ==> Selectable(u, q, m)
      invariant forall m :: m in chosen ==> chosen[m] == ScenariosForMode(u, m, q.requested, q.includeAuth).scenarios
    {
      var m := q.modes[k];
      var selection := ScenariosForMode(u, m, q.requested, q.includeAuth);
      if !selection.Selected? {
        assert forall j :: 0 <= j < k ==> q.modes[j] in q.modes[..k];
        assert FirstUnselectable(u, q, k);
        return chosen, Some(m);
      }
      assert q.modes[..k + 1] == q.modes[..k] + [m];
      assert Selectable(u, q, m);
      chosen := chosen[m := selection.scenarios];
    }
    assert q.modes[..|q.modes|] == q.modes;
    failed := None;
  }

  ghost predicate ClashesAt(cases: seq<Case>, k: int) {
    0 <= k < |cases| && NoRepeats(Homes(cases[..k])) && HomeOf(cases[k]) in Homes(cases[..k])
  }

  /** Running these cases stops at the first one whose directory an earlier one made, and it is this directory. */
  ghost predicate Clash(cases: seq<Case>, home: Home) {
    exists k :: ClashesAt(cases, k) && HomeOf(cases[k]) == home
  }

  lemma ClashStays(cases: seq<Case>, all: seq<Case>, home: Home)
    requires Clash(cases, home) && cases <= all
    ensures Clash(all, home) && !NoRepeats(Homes(all))
  {
    var k :| ClashesAt(cases, k) && HomeOf(cases[k]) == home;
    assert all[..k] == cases[..k] && all[k] == cases[k];
    assert ClashesAt(all, k);
    var j :| 0 <= j < k && Homes(all[..k])[j] == home;
    assert Homes(all)[j] == Homes(all)[k];
  }

  /** Runs one case after those before it; it cannot be run when its directory exists. */
  method AddCase(cases: seq<Case>, c: Case) returns (all: seq<Case>, clash: Option<Home>)
    requires NoRepeats(Homes(cases))
    ensures clash.None? ==> all == cases + [c] && NoRepeats(Homes(all))
    ensures clash.Some? ==> Clash(cases + [c], clash.value)
  {
    if HomeOf(c) in Homes(cases) {
      assert (cases + [c])[..|cases|] == cases && (cases + [c])[|cases|] == c;
      assert ClashesAt(cases + [c], |cases|);
      return cases, Some(HomeOf(c));
    }
    assert Homes(cases + [c]) == Homes(cases) + [HomeOf(c)];
    NoRepeatsConcat(Homes(cases), [HomeOf(c)]);
    return cases + [c], None;
  }

  /** The case of one transport and mode, unless the mode has no scenario for HTTP. */
  method RunCell(w: World, chosen: Chosen, t: RunTransport, m: Mode, before: seq<Case>)
    returns (cases: seq<Case>, clash: Option<Home>)
    requires NoRepeats(Homes(before)) && m in chosen
    ensures clash.None? ==> cases == before + RunCase(w, chosen, t, m) && NoRepeats(Homes(cases))
    ensures clash.Some? ==> Clash(before + RunCase(w, chosen, t, m), clash.value)
  {
    if t == RunStdio {
      cases, clash := AddCase(before, StdioCase(w, m));
    } else if chosen[m] == [] {
      NothingAfter(before);
      return before, None;
    } else {
      cases, clash := AddCase(before, HttpCase(w, m, chosen[m]));
    }
  }

  /** The inner loop of `run_compliance`, over the modes of one transport. */
  method RunModes(w: World, chosen: Chosen, t: RunTransport, modes: seq<Mode>, before: seq<Case>)
    returns (cases: seq<Case>, clash: Option<Home>)
    requires NoRepeats(Homes(before)) && forall m :: m in modes ==> m in chosen
    ensures clash.None? ==> cases == before + RunRow(w, chosen, t, modes) && NoRepeats(Homes(cases))
    ensures clash.Some? ==> Clash(before + RunRow(w, chosen, t, modes), clash.value)
  {
    cases := before;
    NothingAfter(before);
    for j := 0 to |modes|
      invariant cases == before + RunRow(w, chosen, t, modes[..j]) && NoRepeats(Homes(cases))
    {
      RowStep(w, chosen, t, modes, j, before);
      cases, clash := RunCell(w, chosen, t, modes[j], cases);
      if clash.Some? {
        RowClash(w, chosen, t, modes, j, before, clash.value);
        return;
      }
    }
    assert modes[..|modes|] == modes;
    clash := None;
  }

  lemma RowStep(w: World, chosen: Chosen, t: RunTransport, modes: seq<Mode>, j: nat, before: seq<Case>)
    requires j < |modes| && forall m :: m in modes ==> m in chosen
    ensures before + RunRow(w, chosen, t, modes[..j + 1])
         == before + RunRow(w, chosen, t, modes[..j]) + RunCase(w, chosen, t, modes[j])
  {
    assert modes[..j + 1][..j] == modes[..j];
    Associate(before, RunRow(w, chosen, t, modes[..j]), RunCase(w, chosen, t, modes[j]));
  }

  lemma {:induction false} RowPrefix(w: World, chosen: Chosen, t: RunTransport, modes: seq<Mode>, j: nat)
    requires j <= |modes| && forall m :: m in modes ==> m in chosen
    ensures RunRow(w, chosen, t, modes[..j]) <= RunRow(w, chosen, t, modes)
    decreases |modes| - j
  {
    if j == |modes| {
      assert modes[..j] == modes;
    } else {
      RowPrefix(w, chosen, t, modes, j + 1);
      assert modes[..j + 1][..j] == modes[..j];
    }
  }

  lemma RowClash(w: World, chosen: Chosen, t: RunTransport, modes: seq<Mode>, j: nat, before: seq<Case>, home: Home)
    requires j < |modes| && forall m :: m in modes ==> m in chosen
    requires Clash(before + RunRow(w, chosen, t, modes[..j]) + RunCase(w, chosen, t, modes[j]), home)
    ensures Clash(before + RunRow(w, chosen, t, modes), home)
  {
    RowStep(w, chosen, t, modes, j, before);
    RowPrefix(w, chosen, t, modes, j + 1);
    ClashStays(before + RunRow(w, chosen, t, modes[..j + 1]), before + RunRow(w, chosen, t, modes), home);
  }

  method RunMatrix(w: World, chosen: Chosen, transports: seq<RunTransport>, modes: seq<Mode>)
    returns (cases: seq<Case>, clash: Option<Home>)
    requires forall m :: m in modes ==> m in chosen
    ensures clash.None? ==> cases == RunCases(w, chosen, transports, modes) && NoRepeats(Homes(cases))
    ensures clash.Some? ==> Clash(RunCases(w, chosen, transports, modes), clash.value)
  {
    cases := [];
    for i := 0 to |transports|
      invariant cases == RunCases(w, chosen, transports[..i], modes) && NoRepeats(Homes(cases))
    {
      ghost var all, next := RunCases(w, chosen, transports, modes), RunCases(w, chosen, transports[..i + 1], modes);
      assert transports[..i + 1][..i] == transports[..i];
      cases, clash := RunModes(w, chosen, transports[i], modes, cases);
      if clash.Some? {
        MatrixPrefix(w, chosen, transports, modes, i + 1);
        ClashStays(next, all, clash.value);
        return;
      }
    }
    assert transports[..|transports|] == transports;
    clash := None;
  }

  lemma {:induction false} MatrixPrefix(w: World, chosen: Chosen, ts: seq<RunTransport>, modes: seq<Mode>, i: nat)
    requires i <= |ts| && forall m :: m in modes ==> m in chosen
    ensures RunCases(w, chosen, ts[..i], modes) <= RunCases(w, chosen, ts, modes)
    decreases |ts| - i
  {
    if i == |ts| {
      assert ts[..i] == ts;
    } else {
      MatrixPrefix(w, chosen, ts, modes, i + 1);
      assert ts[..i + 1][..i] == ts[..i];
    }
  }

  /** `run_compliance`: pick scenarios, run every transport and mode, assemble the report. */
  method RunCompliance(u: Upstream, q: Request, w: World) returns (result: RunResult)
    requires u.Valid()
    ensures result.NotRun? <==> exists m :: m in q.modes && !Selectable(u, q, m)
    ensures result.NotRun? ==> exists k :: FirstUnselectable(u, q, k) && result.mode == q.modes[k]
    ensures !result.NotRun? ==> (result.Ran? <==> NoRepeats(Homes(CasesOf(u, q, w))))
    ensures result.HomeExists? ==> Clash(CasesOf(u, q, w), result.home)
    ensures result.Ran? ==>
            && result.report == ReportOf(u, q, w, ChosenFor(u, q), CasesOf(u, q, w))
            && result.success == RunSucceeds(w, CasesOf(u, q, w))
  {
    var chosen, failed := SelectScenarios(u, q);
    if failed.Some? {
      return NotRun(failed.value);
    }
    var cases, clash := RunMatrix(w, chosen, q.transports, q.modes);
    if clash.Some? {
      ClashStays(CasesOf(u, q, w), CasesOf(u, q, w), clash.value);
      return HomeExists(clash.value);
    }
    result := Ran(ReportOf(u, q, w, chosen, cases), RunSucceeds(w, cases));
  }

  predicate RunSucceeds(w: World, cases: seq<Case>) {
    w.versionOk && forall c :: c in cases ==> c.success
  }
}
