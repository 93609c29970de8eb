/** A report that is stored although its baseline does not read back. */
module RegressionWitness {
  import opened JsonFields
  import opened RegressionReport
  import opened RegressionMeaning
  import opened RegressionGate

  function OneScenarioSuite(): Suite {
    Suite("repository", "revision", ["ping"], ["ping"], ["ping"])
  }

  function PassingStdio(m: Mode): Raw<CaseRecord> {
    Is(CaseRecord(Is(m), Is(Known(Stdio)),
                  Is([Is(CheckRecord(Is("step"), Is(Supplemental), Missing, Is("step"), Is(Pass), Is(true)))])))
  }

  function SkippedHttp(m: Mode): Raw<CaseRecord> {
    Is(CaseRecord(Is(m), Is(Known(OfficialHttp)),
                  Is([Is(CheckRecord(Is("ping"), Is(Official), Is("ping"), Is("pong"), Is(Skip), Is(true)))])))
  }

  function CaseAt(k: nat): Raw<CaseRecord>
    requires k < 6
  {
    var m := REQUIRED_MODES[k / 2];
    if k % 2 == 0 then PassingStdio(m) else SkippedHttp(m)
  }

  /** Every required case is there, and the one scenario was skipped in every mode. */
  function SkippedReport(): Report {
    Report(Is(REPORT_SCHEMA_VERSION), Is(Is(true)), Is(true), Is(false),
           Is(OfficialMetadata(Is("repository"), Is("revision"), Is(true),
                               Is(map[Shipping := Is(["ping"]), Legacy := Is(["ping"]), Modern := Is(["ping"])]))),
           Missing, Missing, Missing, Missing,
           Is(seq(6, k requires 0 <= k < 6 => CaseAt(k))))
  }

  lemma CasesAreDistinct()
    ensures DistinctCases(SkippedReport().cases.value)
  {
    var cases := SkippedReport().cases.value;
    forall j, k | 0 <= j < k < |cases|
      ensures CaseKeyOf(cases[j]) != CaseKeyOf(cases[k])
    {
      assert CaseKeyOf(cases[j]) == Is((REQUIRED_MODES[j / 2], Known(if j % 2 == 0 then Stdio else OfficialHttp)));
      assert CaseKeyOf(cases[k]) == Is((REQUIRED_MODES[k / 2], Known(if k % 2 == 0 then Stdio else OfficialHttp)));
    }
  }

  lemma CaseIsThere(m: Mode)
    ensures PassingStdio(m) in SkippedReport().cases.value && SkippedHttp(m) in SkippedReport().cases.value
  {
    var cases, k := SkippedReport().cases.value, ModeRank(m);
    assert cases[2 * k] == PassingStdio(m) && cases[2 * k + 1] == SkippedHttp(m);
  }

  lemma StdioIsClean(m: Mode)
    ensures CleanCase(OneScenarioSuite(), m, Stdio, PassingStdio(m))
  {
    var checks := PassingStdio(m).value.checks.value;
    assert ReadCheck(m, Stdio, checks[0]) == Is((Identity(m, Stdio, Supplemental, "", "step"), Pass));
  }

  lemma HttpIsClean(m: Mode)
    ensures CleanCase(OneScenarioSuite(), m, OfficialHttp, SkippedHttp(m))
  {
    var checks := SkippedHttp(m).value.checks.value;
    assert ReadCheck(m, OfficialHttp, checks[0]) == Is((Identity(m, OfficialHttp, Official, "ping", "pong"), Skip));
    assert ObservedScenarios(m, checks) == {"ping"} by {
      assert checks[0] in checks;
    }
    assert TextSet(["ping"]) == {"ping"};
  }

  lemma ReportIsClean()
    ensures CleanFull(OneScenarioSuite(), SkippedReport())
  {
    CasesAreDistinct();
    forall m: Mode
      ensures CleanMode(OneScenarioSuite(), SkippedReport(), SkippedReport().cases.value, m)
    {
      CaseIsThere(m);
      StdioIsClean(m);
      HttpIsClean(m);
      assert m == Shipping || m == Legacy || m == Modern;
    }
  }

  /** Nothing is recorded over HTTP but skips, and nothing anywhere but passes and skips. */
  lemma StatusesOfReport(i: Identity, st: Status)
    requires Has(Read(OneScenarioSuite(), SkippedReport()).identities, i, st)
    ensures st == if i.transport == Stdio then Pass else Skip
  {
    var r := SkippedReport();
    var cases, key := r.cases.value, (i.mode, Known(i.transport));
    FullReadingMeaning(OneScenarioSuite(), r, i, st);
    CaseTableMeaning(cases, key);
    var k :| FirstAt(cases, key, k) && cases[k].value == CaseTable(cases)[key];
    assert cases[k] == CaseAt(k);
    var x :| x in CaseAt(k).value.checks.value && ReadCheck(i.mode, i.transport, x) == Is((i, st));
    OneStatus(k, i, st, x);
  }

  lemma OneStatus(k: nat, i: Identity, st: Status, x: Raw<CheckRecord>)
    requires k < 6 && CaseKeyOf(CaseAt(k)) == Is((i.mode, Known(i.transport)))
    requires x in CaseAt(k).value.checks.value && ReadCheck(i.mode, i.transport, x) == Is((i, st))
    ensures st == if i.transport == Stdio then Pass else Skip
  {
  }

  /** The baseline of this report is written and does not read back, so the report is refused by it. */
  lemma SkippedBaselineIsNotReadable()
    ensures Compact(OneScenarioSuite(), SkippedReport()).Written?
    ensures !NothingOnlySkipped(OneScenarioSuite(), Read(OneScenarioSuite(), SkippedReport()).identities)
    ensures var stored := Compact(OneScenarioSuite(), SkippedReport()).report;
            && Read(OneScenarioSuite(), stored).problems != []
            && !Gate(OneScenarioSuite(), SkippedReport(), stored).success
            && Gate(OneScenarioSuite(), SkippedReport(), SkippedReport()).success
  {
    var suite, r := OneScenarioSuite(), SkippedReport();
    var ids := Read(suite, r).identities;
    ReportIsClean();
    forall i | Has(ids, i, Fail) ensures i.mode != Shipping { StatusesOfReport(i, Fail); }
    CompactAccepts(suite, r);
    forall i | i in ids && i.transport == OfficialHttp
      ensures ids[i] == {Skip}
    {
      OnlySkips(i);
    }
    assert !ScenarioRan(ids, Shipping, "ping");
    assert "ping" in suite.Catalog(Shipping);
    CompactReadsBack(suite, r);
    GateReflexive(suite, r);
    ReadIsClean(suite, Compact(suite, r).report);
    GatePasses(suite, r, Compact(suite, r).report);
  }

  lemma OnlySkips(i: Identity)
    requires i in Read(OneScenarioSuite(), SkippedReport()).identities && i.transport == OfficialHttp
    ensures Read(OneScenarioSuite(), SkippedReport()).identities[i] == {Skip}
  {
    var ids := Read(OneScenarioSuite(), SkippedReport()).identities;
    ReadingHasNoEmptySets(OneScenarioSuite(), SkippedReport());
    forall st | st in ids[i] ensures st == Skip { StatusesOfReport(i, st); }
    var st :| st in ids[i];
  }
}
