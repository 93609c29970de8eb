/** The reader's loops, proved against the reading functions. */
module RegressionReader {
  import opened JsonFields
  import opened RegressionReport

  // ---------------------------------------------------------------- the loops

  method ReadBucket(records: seq<Raw<IdentityRecord>>, bucket: Status, start: StatusMap)
    returns (errors: seq<Problem>, identities: StatusMap)
    ensures errors == BucketProblems(records, bucket)
    ensures identities == AddBucket(start, BucketIds(records), bucket)
  {
    errors, identities := [], start;
    var seen: set<Identity> := {};
    AddNothing(start, bucket);
    for k := 0 to |records|
      invariant seen == BucketIds(records[..k])
      invariant errors == BucketProblems(records[..k], bucket)
      invariant identities == AddBucket(start, seen, bucket)
    {
      assert records[..k + 1][..k] == records[..k];
      var identity := ReadIdentityRecord(records[k]);
      if !identity.Is? {
        errors := errors + [MalformedIdentity(bucket)];
      } else if identity.value in seen {
        errors := errors + [DuplicateIdentity(bucket)];
      } else {
        AddBucketStep(start, seen, identity.value, bucket);
        seen := seen + {identity.value};
        identities := AddStatus(identities, identity.value, bucket);
      }
      BucketIdsStep(records, k);
    }
    assert records[..|records|] == records;
  }

  lemma AddNothing(m: StatusMap, bucket: Status)
    ensures AddBucket(m, {}, bucket) == m
  {
    assert forall i :: i in m ==> m[i] + {} == m[i];
  }

  lemma AddBucketStep(m: StatusMap, ids: set<Identity>, i: Identity, bucket: Status)
    ensures AddStatus(AddBucket(m, ids, bucket), i, bucket) == AddBucket(m, ids + {i}, bucket)
  {
    var a, b := AddStatus(AddBucket(m, ids, bucket), i, bucket), AddBucket(m, ids + {i}, bucket);
    assert a.Keys == b.Keys;
    forall j | j in b
      ensures a[j] == b[j]
    {
    }
  }

  lemma BucketIdsStep(records: seq<Raw<IdentityRecord>>, k: nat)
    requires k < |records|
    ensures BucketIds(records[..k + 1])
         == BucketIds(records[..k])
           + (if ReadIdentityRecord(records[k]).Is? then {ReadIdentityRecord(records[k]).value} else {})
  {
    assert forall x :: x in records[..k + 1] <==> x in records[..k] || x == records[k];
  }

  method CollectCases(cases: seq<Raw<CaseRecord>>) returns (errors: seq<Problem>, table: map<CaseKey, CaseRecord>)
    ensures errors == CaseTableProblems(cases) && table == CaseTable(cases)
  {
    errors, table := [], map[];
    for k := 0 to |cases|
      invariant errors == CaseTableProblems(cases[..k]) && table == CaseTable(cases[..k])
    {
      assert cases[..k + 1][..k] == cases[..k];
      var c := cases[k];
      if !c.Is? {
        errors := errors + [MalformedCase];
      } else if c.value.mode.Is? {
        if !c.value.transport.Is? {
          errors := errors + [MalformedRequiredCase];
        } else {
          var key := (c.value.mode.value, c.value.transport.value);
          if key in table {
            errors := errors + [DuplicateCase(c.value.transport.value, c.value.mode.value)];
          } else {
            table := table[key := c.value];
          }
        }
      }
    }
    assert cases[..|cases|] == cases;
  }

  lemma ObservedStep(mode: Mode, checks: seq<Raw<CheckRecord>>, k: nat)
    requires k < |checks|
    ensures var reading := ReadCheck(mode, OfficialHttp, checks[k]);
            ObservedScenarios(mode, checks[..k + 1]) == ObservedScenarios(mode, checks[..k])
              + (if reading.Is? && reading.value.0.source != Supplemental then {reading.value.0.scenario} else {})
  {
    assert forall x :: x in checks[..k + 1] <==> x in checks[..k] || x == checks[k];
  }

  method ReadChecks(mode: Mode, transport: Transport, checks: seq<Raw<CheckRecord>>, start: StatusMap)
    returns (errors: seq<Problem>, identities: StatusMap, observed: set<string>)
    ensures errors == MalformedChecks(mode, transport, checks)
    ensures identities == AddChecks(start, mode, transport, checks)
    ensures observed == if transport == OfficialHttp then ObservedScenarios(mode, checks) else {}
  {
    errors, identities, observed := [], start, {};
    for k := 0 to |checks|
      invariant errors == MalformedChecks(mode, transport, checks[..k])
      invariant identities == AddChecks(start, mode, transport, checks[..k])
      invariant observed == if transport == OfficialHttp then ObservedScenarios(mode, checks[..k]) else {}
    {
      assert checks[..k + 1][..k] == checks[..k];
      ObservedStep(mode, checks, k);
      var reading := ReadCheck(mode, transport, checks[k]);
      if !reading.Is? {
        errors := errors + [MalformedCheck(transport, mode)];
      } else {
        var (identity, status) := reading.value;
        identities := AddStatus(identities, identity, status);
        if transport == OfficialHttp && identity.source != Supplemental {
          observed := observed + {identity.scenario};
        }
      }
    }
    assert checks[..|checks|] == checks;
  }

  method ReadRequiredCase(suite: Suite, table: map<CaseKey, CaseRecord>, mode: Mode, transport: Transport,
                          start: StatusMap)
    returns (errors: seq<Problem>, identities: StatusMap)
    ensures Reading(errors, identities) == ReadCase(suite, table, mode, transport, start)
  {
    var key := (mode, Known(transport));
    if key !in table {
      return [MissingCase(transport, mode)], start;
    }
    var raw := table[key].checks;
    if !raw.Is? || raw.value == [] {
      return [NoChecks(transport, mode)], start;
    }
    var observed;
    errors, identities, observed := ReadChecks(mode, transport, raw.value, start);
    if transport == OfficialHttp {
      errors := errors + ScenarioProblems(suite, mode, observed);
    }
  }

  method ReadOptionalBucket(records: Raw<seq<Raw<IdentityRecord>>>, bucket: Status, start: StatusMap)
    returns (errors: seq<Problem>, identities: StatusMap)
    ensures errors == BucketReading(records, bucket).0
    ensures identities == AddBucket(start, BucketReading(records, bucket).1, bucket)
  {
    if records.Is? {
      errors, identities := ReadBucket(records.value, bucket, start);
    } else {
      AddNothing(start, bucket);
      errors, identities := [NoBucket(bucket)], start;
    }
  }

  method CheckCompactModes(suite: Suite, r: Report, identities: StatusMap, modes: seq<Mode>)
    returns (errors: seq<Problem>)
    ensures errors == CompactModesProblems(suite, r, identities, modes)
  {
    errors := [];
    for k := 0 to |modes|
      invariant errors == CompactModesProblems(suite, r, identities, modes[..k])
    {
      assert modes[..k + 1][..k] == modes[..k];
      errors := errors + CompactModeProblems(suite, r, identities, modes[k]);
    }
    assert modes[..|modes|] == modes;
  }

  method ReadRequiredModes(suite: Suite, r: Report, table: map<CaseKey, CaseRecord>)
    returns (errors: seq<Problem>, identities: StatusMap)
    ensures Reading(errors, identities) == ReadModes(suite, r, table, REQUIRED_MODES)
  {
    errors, identities := [], map[];
    for k := 0 to |REQUIRED_MODES|
      invariant Reading(errors, identities) == ReadModes(suite, r, table, REQUIRED_MODES[..k])
    {
      assert REQUIRED_MODES[..k + 1][..k] == REQUIRED_MODES[..k];
      var mode := REQUIRED_MODES[k];
      var stdio, http;
      stdio, identities := ReadRequiredCase(suite, table, mode, Stdio, identities);
      http, identities := ReadRequiredCase(suite, table, mode, OfficialHttp, identities);
      errors := errors + (CatalogProblems(suite, r, mode) + stdio + http);
    }
    assert REQUIRED_MODES[..|REQUIRED_MODES|] == REQUIRED_MODES;
  }

  /** `_required_regression_checks`: both branches of the reader. */
  method RequiredRegressionChecks(suite: Suite, r: Report) returns (errors: seq<Problem>, identities: StatusMap)
    ensures Reading(errors, identities) == Read(suite, r)
  {
    errors := HeaderProblems(suite, r);
    var more, rest;
    if r.baselineKind.Missing? {
      var table;
      more, table := CollectCases(CaseList(r));
      rest, identities := ReadRequiredModes(suite, r, table);
      errors := errors + (if r.cases.Is? then [] else [NoCases]) + more + rest;
    } else if r.baselineKind != Is(COMPACT_KIND) {
      errors, identities := errors + [UnsupportedBaseline], map[];
    } else if !r.checks.Is? {
      errors, identities := errors + CompactHeaderProblems(r) + [NoBaselineIdentities], map[];
    } else {
      more, identities := ReadOptionalBucket(r.checks.value.passing, Pass, map[]);
      errors := errors + CompactHeaderProblems(r) + more;
      more, identities := ReadOptionalBucket(r.checks.value.failing, Fail, identities);
      rest := CheckCompactModes(suite, r, identities, REQUIRED_MODES);
      errors := errors + more + rest;
    }
  }
}
