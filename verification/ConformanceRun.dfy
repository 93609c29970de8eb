/**
 Official cases: upstream result files become scenario results, and scenario
 results become the checks of a case. A successful case hides no failing scenario.
 */
module ConformanceRun {
  import opened Wrappers
  import opened RegressionReport
  import Decimal
  import DecimalDigits

  // ---------------------------------------------------------------- upstream results

  /** Upper-cased upstream statuses; `Unlisted` is any other word. */
  datatype UpstreamStatus = Success | Failure | Warning | Skipped | Info | OtherWord(word: string)

  /** One entry of checks.json; empty text stands for an absent or falsy field. */
  datatype RawEntry = NotAnObject | Entry(id: string, name: string, status: Option<UpstreamStatus>)

  datatype OfficialCheck = OfficialCheck(checkId: string, name: string, status: UpstreamStatus)

  /** What running one scenario left behind. */
  datatype Outcome = Outcome(exitCode: int, entries: seq<RawEntry>, adapterSuccess: bool)

  datatype ScenarioResult = ScenarioResult(scenario: string, success: bool,
                                           checks: seq<OfficialCheck>, adapterSuccess: bool)

  function LoadEntry(raw: RawEntry, index: nat): seq<OfficialCheck> {
    if raw.NotAnObject? then [] else
      var id := if raw.id != "" then raw.id else "unnamed-" + Decimal.NatText(index + 1);
      var name := if raw.name != "" then raw.name else id;
      var status := if raw.status.Some? then raw.status.value else Failure;
      if status == Info then [] else [OfficialCheck(id, name, status)]
  }

  function LoadedChecks(entries: seq<RawEntry>): (checks: seq<OfficialCheck>)
    ensures forall c :: c in checks ==> c.checkId != "" && c.name != "" && c.status != Info
  {
    if entries == [] then []
    else LoadedChecks(entries[..|entries| - 1]) + LoadEntry(entries[|entries| - 1], |entries| - 1)
  }

  /** `_load_checks`: drops trace entries and names the unnamed by position. */
  method LoadChecks(entries: seq<RawEntry>) returns (checks: seq<OfficialCheck>)
    ensures checks == LoadedChecks(entries)
  {
    checks := [];
    for k := 0 to |entries|
      invariant checks == LoadedChecks(entries[..k])
    {
      assert entries[..k + 1][..k] == entries[..k];
      checks := checks + LoadEntry(entries[k], k);
    }
    assert entries[..|entries|] == entries;
  }

  predicate OfficialFailure(checks: seq<OfficialCheck>) {
    exists c :: c in checks && (c.status == Failure || c.status == Warning)
  }

  /** The success computation of `_run_scenario`. */
  function ScenarioOf(scenario: string, o: Outcome): ScenarioResult {
    var checks := LoadedChecks(o.entries);
    ScenarioResult(scenario, o.exitCode == 0 && checks != [] && o.adapterSuccess && !OfficialFailure(checks),
                   checks, o.adapterSuccess)
  }

  // ---------------------------------------------------------------- cases

  datatype Check = Check(name: string, success: bool, status: Status, source: Source,
                         scenario: Option<string>, checkId: Option<string>)

  datatype Case = Case(transport: Transport, mode: Mode, success: bool, checks: seq<Check>)

  function Verdict(ok: bool): Status {
    if ok then Pass else Fail
  }

  function CountName(checks: seq<OfficialCheck>, name: string): nat {
    if checks == [] then 0
    else CountName(checks[..|checks| - 1], name) + if checks[|checks| - 1].name == name then 1 else 0
  }

  function CheckName(kind: string, scenario: string, what: string): (name: string)
    ensures name != ""
  {
    kind + "/" + scenario + "/" + what
  }

  function CaseStatus(s: UpstreamStatus): Status {
    if s == Success then Pass else if s == Skipped || s == Info then Skip else Fail
  }

  /** `_official_check_result`; repeated names are numbered by position. */
  function NumberedResult(r: ScenarioResult, index: nat, duplicate: bool): Check
    requires index < |r.checks|
  {
    var c := r.checks[index];
    var suffix := if duplicate then c.name + "#" + Decimal.NatText(index + 1) else c.name;
    Check(CheckName("official", r.scenario, suffix), CaseStatus(c.status) != Fail, CaseStatus(c.status),
          Official, Some(r.scenario), Some(c.checkId))
  }

  function OfficialCheckResult(r: ScenarioResult, index: nat): Check
    requires index < |r.checks|
  {
    NumberedResult(r, index, CountName(r.checks, r.checks[index].name) > 1)
  }

  /** The reader's stable name of a numbered check is the name it has without its number. */
  lemma NumberingIsUndone(r: ScenarioResult, index: nat)
    requires index < |r.checks|
    ensures StableName(NumberedResult(r, index, true).name) == NumberedResult(r, index, false).name
  {
    var name, number := NumberedResult(r, index, false).name, Decimal.NatText(index + 1);
    forall i | 0 <= i < |number| ensures DecimalDigits.IsDigit(number[i]) { DecimalDigits.AsciiDigits(number[i]); }
    NumberedNamesAreStable(name, number);
    assert NumberedResult(r, index, true).name == name + "#" + number;
  }

  function HarnessCheck(scenario: string, what: string, ok: bool): Check {
    Check(CheckName("harness", scenario, what), ok, Verdict(ok), Harness, Some(scenario), None)
  }

  function AdapterCheck(scenario: string, ok: bool): Check {
    HarnessCheck(scenario, "codex-adapter", ok)
  }

  function RunnerCheck(scenario: string): Check {
    HarnessCheck(scenario, "official-runner", false)
  }

  /** Everything one scenario adds to its case. */
  function ScenarioChecks(r: ScenarioResult): seq<Check> {
    seq(|r.checks|, k requires 0 <= k < |r.checks| => OfficialCheckResult(r, k))
    + [AdapterCheck(r.scenario, r.adapterSuccess)]
    + (if r.adapterSuccess && !r.success && !OfficialFailure(r.checks)
       then [RunnerCheck(r.scenario)] else [])
  }

  function AllScenarioChecks(results: seq<ScenarioResult>): seq<Check> {
    if results == [] then []
    else AllScenarioChecks(results[..|results| - 1]) + ScenarioChecks(results[|results| - 1])
  }

  function NoScenarios(): Check {
    Check("harness/official-scenario-selection", false, Fail, Harness, None, None)
  }

  predicate AllSucceed(checks: seq<Check>) {
    forall c :: c in checks ==> c.success
  }

  /** `CaseResult.finish`. */
  function Finished(transport: Transport, mode: Mode, checks: seq<Check>): Case {
    Case(transport, mode, checks != [] && AllSucceed(checks), checks)
  }

  function OfficialCase(mode: Mode, results: seq<ScenarioResult>, supplemental: seq<Check>): Case {
    Finished(OfficialHttp, mode,
             AllScenarioChecks(results) + (if results == [] then [NoScenarios()] else []) + supplemental)
  }

  /** The loops of `_run_official_case`. */
  method RunOfficialCase(mode: Mode, results: seq<ScenarioResult>, supplemental: seq<Check>) returns (c: Case)
    ensures c == OfficialCase(mode, results, supplemental)
  {
    var checks: seq<Check> := [];
    for k := 0 to |results|
      invariant checks == AllScenarioChecks(results[..k])
    {
      assert results[..k + 1][..k] == results[..k];
      var more := CollectScenario(results[k]);
      checks := checks + more;
    }
    assert results[..|results|] == results;
    if results == [] {
      checks := checks + [NoScenarios()];
    }
    c := Finished(OfficialHttp, mode, checks + supplemental);
  }

  method CollectScenario(r: ScenarioResult) returns (checks: seq<Check>)
    ensures checks == ScenarioChecks(r)
  {
    var counts := CountNames(r.checks);
    checks := [];
    for i := 0 to |r.checks|
      invariant |checks| == i && forall j :: 0 <= j < i ==> checks[j] == OfficialCheckResult(r, j)
    {
      CountIsPositive(r.checks, i);
      checks := checks + [NumberedResult(r, i, counts[r.checks[i].name] > 1)];
    }
    checks := checks + [AdapterCheck(r.scenario, r.adapterSuccess)];
    if r.adapterSuccess && !r.success && !OfficialFailure(r.checks) {
      checks := checks + [RunnerCheck(r.scenario)];
    }
  }

  method CountNames(checks: seq<OfficialCheck>) returns (counts: map<string, nat>)
    ensures forall n :: (if n in counts then counts[n] else 0) == CountName(checks, n)
  {
    counts := map[];
    for k := 0 to |checks|
      invariant forall n :: (if n in counts then counts[n] else 0) == CountName(checks[..k], n)
    {
      assert checks[..k + 1][..k] == checks[..k];
      var name := checks[k].name;
      counts := counts[name := (if name in counts then counts[name] else 0) + 1];
    }
    assert checks[..|checks|] == checks;
  }

  lemma {:induction false} CountIsPositive(checks: seq<OfficialCheck>, i: nat)
    requires i < |checks|
    ensures CountName(checks, checks[i].name) > 0
  {
    if i < |checks| - 1 {
      CountIsPositive(checks[..|checks| - 1], i);
    }
  }

  // ---------------------------------------------------------------- no failing scenario is masked

  predicate Acceptable(s: UpstreamStatus) {
    s == Success || s == Skipped || s == Info
  }

  /** The case's verdict on one scenario. */
  ghost predicate ScenarioPasses(r: ScenarioResult) {
    && r.adapterSuccess && r.success
    && forall c :: c in r.checks ==> Acceptable(c.status)
  }

  lemma ScenarioChecksSucceed(r: ScenarioResult)
    ensures AllSucceed(ScenarioChecks(r)) <==> ScenarioPasses(r)
  {
    var all := ScenarioChecks(r);
    var n := |r.checks|;
    assert all[n] == AdapterCheck(r.scenario, r.adapterSuccess);
    assert forall k :: 0 <= k < n ==> all[k] == OfficialCheckResult(r, k);
    assert r.adapterSuccess && !r.success && !OfficialFailure(r.checks) ==> all[n + 1] in all && !all[n + 1].success;
    if AllSucceed(all) {
      assert all[n] in all;
      forall c | c in r.checks
        ensures Acceptable(c.status)
      {
        var k :| 0 <= k < n && r.checks[k] == c;
        assert all[k] in all;
      }
    }
  }

  lemma {:induction false} AllScenarioChecksSucceed(results: seq<ScenarioResult>)
    ensures AllSucceed(AllScenarioChecks(results)) <==> forall r :: r in results ==> ScenarioPasses(r)
    ensures results != [] ==> AllScenarioChecks(results) != []
  {
    if results != [] {
      var n := |results| - 1;
      AllScenarioChecksSucceed(results[..n]);
      ScenarioChecksSucceed(results[n]);
      assert results == results[..n] + [results[n]];
      AllSucceedConcat(AllScenarioChecks(results[..n]), ScenarioChecks(results[n]));
    }
  }

  lemma AllSucceedConcat(a: seq<Check>, b: seq<Check>)
    ensures AllSucceed(a + b) <==> AllSucceed(a) && AllSucceed(b)
  {
    assert forall c :: c in a + b <==> c in a || c in b;
  }

  /** An official case succeeds exactly when every scenario passes and every supplemental check succeeds. */
  lemma OfficialCaseSucceeds(mode: Mode, results: seq<ScenarioResult>, supplemental: seq<Check>)
    ensures OfficialCase(mode, results, supplemental).success <==>
            results != [] && (forall r :: r in results ==> ScenarioPasses(r)) && AllSucceed(supplemental)
  {
    var none := if results == [] then [NoScenarios()] else [];
    AllScenarioChecksSucceed(results);
    AllSucceedConcat(AllScenarioChecks(results) + none, supplemental);
    AllSucceedConcat(AllScenarioChecks(results), none);
    if results == [] {
      assert NoScenarios() in none;
    }
  }

  /** A successful official case masks no failed scenario, whatever results it was given. */
  lemma NoScenarioIsMasked(mode: Mode, results: seq<ScenarioResult>, supplemental: seq<Check>)
    requires OfficialCase(mode, results, supplemental).success
    ensures forall r :: r in results ==> r.success
  {
    OfficialCaseSucceeds(mode, results, supplemental);
    forall r | r in results
      ensures r.success
    {
      assert ScenarioPasses(r);
    }
  }

  /**
   For results the suite produces, the case succeeds exactly when every scenario did and no check has an
   unlisted status.
   */
  lemma OfficialCaseIsExact(mode: Mode, names: seq<string>, outcomes: seq<Outcome>)
    requires |names| == |outcomes| > 0
    ensures var results := seq(|names|, k requires 0 <= k < |names| => ScenarioOf(names[k], outcomes[k]));
            OfficialCase(mode, results, []).success <==>
            forall r :: r in results ==> r.success && forall c :: c in r.checks ==> Acceptable(c.status)
  {
    var results := seq(|names|, k requires 0 <= k < |names| => ScenarioOf(names[k], outcomes[k]));
    OfficialCaseSucceeds(mode, results, []);
    forall r | r in results
      ensures ScenarioPasses(r) <==> r.success && forall c :: c in r.checks ==> Acceptable(c.status)
    {
    }
    assert results[0] in results;
  }
}
