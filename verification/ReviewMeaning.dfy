/**
 Which reviewer reports and baselines read without problems, and which verdicts they give, stated without the
 reader's folds.
 */
module ReviewMeaning {
  import opened JsonFields
  import opened ReviewReport
  import opened ReviewGate

  function NameOf(x: Raw<Check>): string {
    if ReadableCheck(x) then x.value.name.value else ""
  }

  ghost predicate CleanChecks(checks: seq<Raw<Check>>) {
    && (forall x :: x in checks ==> ReadableCheck(x))
    && (forall j, k :: 0 <= j < k < |checks| ==> NameOf(checks[j]) != NameOf(checks[k]))
  }

  ghost predicate AllPass(checks: seq<Raw<Check>>) {
    forall x :: x in checks && ReadableCheck(x) ==> x.value.success.value
  }

  /** Some check of a case gives this verdict. */
  ghost predicate Says(key: CaseKey, checks: seq<Raw<Check>>, i: Identity, b: bool) {
    && CaseOf(i) == key
    && exists x :: x in checks && ReadableCheck(x) && x.value.name.value == i.checkId && x.value.success.value == b
  }

  ghost predicate Gives(v: Verdicts, i: Identity, b: bool) {
    i in v && v[i] == b
  }

  /** The names and verdicts of a case's checks as they are taken on. */
  lemma {:induction false} ChecksMeaning(s: Progress, key: CaseKey, checks: seq<Raw<Check>>)
    requires forall i :: i in s.verdicts ==> CaseOf(i) != key
    ensures var t := AddChecks(s, key, checks);
            && s.problems <= t.problems && t.observed == s.observed
            && (t.problems == s.problems <==> CleanChecks(checks))
            && (forall i :: i in t.verdicts ==> i in s.verdicts || CaseOf(i) == key)
    ensures CleanChecks(checks) ==>
            && (CaseSuccess(s, key, checks) <==> AllPass(checks))
            && forall i, b :: Gives(AddChecks(s, key, checks).verdicts, i, b) <==>
              Gives(s.verdicts, i, b) || Says(key, checks, i, b)
  {
    if checks != [] {
      var n := |checks| - 1;
      var before, last := checks[..n], checks[n];
      ChecksMeaning(s, key, before);
      assert checks == before + [last];
      assert forall x :: x in checks <==> x in before || x == last;
      assert forall j :: 0 <= j < n ==> before[j] == checks[j];
      assert CleanChecks(checks) ==> CleanChecks(before);
      if CleanChecks(before) && ReadableCheck(last) {
        LastCheck(s, key, before, last);
      }
    }
  }

  lemma LastCheck(s: Progress, key: CaseKey, before: seq<Raw<Check>>, last: Raw<Check>)
    requires CleanChecks(before) && ReadableCheck(last) && forall i :: i in s.verdicts ==> CaseOf(i) != key
    requires forall i, b :: Gives(AddChecks(s, key, before).verdicts, i, b) <==>
            Gives(s.verdicts, i, b) || Says(key, before, i, b)
    ensures var id := Identity(key.0, key.1, last.value.name.value);
            id in AddChecks(s, key, before).verdicts <==> !CleanChecks(before + [last])
    ensures CleanChecks(before + [last]) ==>
            var id := Identity(key.0, key.1, last.value.name.value);
            var v := AddChecks(s, key, before).verdicts[id := last.value.success.value];
            forall i, b :: Gives(v, i, b) <==> Gives(s.verdicts, i, b) || Says(key, before + [last], i, b)
  {
    var id := Identity(key.0, key.1, last.value.name.value);
    var u, all, n := AddChecks(s, key, before).verdicts, before + [last], |before|;
    assert all[n] == last && forall j :: 0 <= j < n ==> all[j] == before[j];
    assert forall x :: x in all <==> x in before || x == last;
    if id in u {
      assert Gives(u, id, u[id]);
      var x :| x in before && ReadableCheck(x) && x.value.name.value == id.checkId;
      var j :| 0 <= j < n && before[j] == x;
      assert NameOf(all[j]) == NameOf(all[n]);
    } else {
      forall j | 0 <= j < n
        ensures NameOf(all[j]) != NameOf(all[n])
      {
        assert before[j] in before;
        assert NameOf(before[j]) == NameOf(last) ==> Says(key, before, id, before[j].value.success.value);
        assert !Gives(u, id, before[j].value.success.value);
      }
      assert CleanChecks(all);
      forall i, b
        ensures Says(key, all, i, b) <==> Says(key, before, i, b) || (i == id && b == last.value.success.value)
      {
        assert last in all;
      }
      assert forall b :: !Gives(u, id, b);
    }
  }

  ghost predicate CleanCase(scope: Scope, c: Raw<Case>) {
    && c.Is? && KeyOf(c.value.mode, c.value.transport).Is?
    && KeyOf(c.value.mode, c.value.transport).value in scope.cases
    && c.value.checks.Is? && c.value.checks.value != [] && CleanChecks(c.value.checks.value)
    && c.value.success == Is(AllPass(c.value.checks.value))
  }

  function KeyOfCase(c: Raw<Case>): Raw<CaseKey> {
    if c.Is? then KeyOf(c.value.mode, c.value.transport) else Wrong
  }

  ghost predicate CleanCases(scope: Scope, cases: seq<Raw<Case>>) {
    && (forall c :: c in cases ==> CleanCase(scope, c))
    && (forall j, k :: 0 <= j < k < |cases| ==> KeyOfCase(cases[j]) != KeyOfCase(cases[k]))
  }

  /** Some case gives this verdict. */
  ghost predicate Reported(cases: seq<Raw<Case>>, i: Identity, b: bool) {
    exists c :: c in cases && c.Is? && c.value.checks.Is? && KeyOfCase(c) == Is(CaseOf(i))
      && Says(CaseOf(i), c.value.checks.value, i, b)
  }

  function KeysOf(cases: seq<Raw<Case>>): set<CaseKey> {
    set c | c in cases && KeyOfCase(c).Is? :: KeyOfCase(c).value
  }

  lemma OneCase(scope: Scope, s: Progress, c: Raw<Case>)
    requires forall i :: i in s.verdicts ==> CaseOf(i) in s.observed
    ensures var t := AddCase(scope, s, c);
            && s.problems <= t.problems
            && (forall i :: i in t.verdicts ==> CaseOf(i) in t.observed)
            && (t.problems == s.problems <==> CleanCase(scope, c) && KeyOfCase(c).value !in s.observed)
            && (t.problems == s.problems ==>
                  && t.observed == s.observed + {KeyOfCase(c).value}
                  && forall i, b :: Gives(t.verdicts, i, b) <==>
                    Gives(s.verdicts, i, b) || Says(KeyOfCase(c).value, c.value.checks.value, i, b))
  {
    if KeyOfCase(c).Is? && KeyOfCase(c).value in scope.cases && KeyOfCase(c).value !in s.observed
      && c.value.checks.Is? {
      var key := KeyOfCase(c).value;
      ChecksMeaning(s.(observed := s.observed + {key}), key, c.value.checks.value);
    }
  }

  lemma {:induction false} CasesMeaning(scope: Scope, start: Progress, cases: seq<Raw<Case>>)
    requires start.observed == {} && start.verdicts == map[]
    ensures var t := AddCases(scope, start, cases);
            && start.problems <= t.problems
            && (forall i :: i in t.verdicts ==> CaseOf(i) in t.observed)
            && (t.problems == start.problems <==> CleanCases(scope, cases))
            && (CleanCases(scope, cases) ==> t.observed == KeysOf(cases))
            && (CleanCases(scope, cases) ==> forall i, b :: Gives(t.verdicts, i, b) <==> Reported(cases, i, b))
  {
    if cases != [] {
      var n := |cases| - 1;
      var before, last := cases[..n], cases[n];
      var s := AddCases(scope, start, before);
      CasesMeaning(scope, start, before);
      OneCase(scope, s, last);
      assert cases == before + [last];
      assert forall c :: c in cases <==> c in before || c == last;
      assert forall j :: 0 <= j < n ==> before[j] == cases[j];
      assert CleanCases(scope, cases) ==> CleanCases(scope, before);
      if CleanCases(scope, before) && CleanCase(scope, last) {
        LastKey(before, last);
        assert CleanCases(scope, cases) <==> KeyOfCase(last).value !in KeysOf(before);
        assert KeysOf(cases) == KeysOf(before) + {KeyOfCase(last).value};
        forall i, b
          ensures Reported(cases, i, b) <==>
                  Reported(before, i, b) || Says(KeyOfCase(last).value, last.value.checks.value, i, b)
        {
          ReportedStep(before, last, i, b);
        }
      }
    }
  }

  lemma LastKey(before: seq<Raw<Case>>, last: Raw<Case>)
    requires KeyOfCase(last).Is?
    ensures KeyOfCase(last).value in KeysOf(before) <==>
            exists j :: 0 <= j < |before| && KeyOfCase(before[j]) == KeyOfCase(last)
  {
    if j :| 0 <= j < |before| && KeyOfCase(before[j]) == KeyOfCase(last) {
      assert before[j] in before;
    }
  }

  lemma ReportedStep(before: seq<Raw<Case>>, last: Raw<Case>, i: Identity, b: bool)
    requires last.Is? && last.value.checks.Is? && KeyOfCase(last).Is?
    ensures Reported(before + [last], i, b) <==>
            Reported(before, i, b) || Says(KeyOfCase(last).value, last.value.checks.value, i, b)
  {
    assert forall c :: c in before + [last] <==> c in before || c == last;
  }

  /** The map holds exactly the verdicts of the cases. */
  ghost predicate Collects(v: Verdicts, cases: seq<Raw<Case>>) {
    forall i, b :: Gives(v, i, b) <==> Reported(cases, i, b)
  }

  ghost predicate CleanTotals(v: Verdicts, scope: Scope, summary: Raw<Summary>) {
    summary == Is(Totals(v, scope.cases))
  }

  ghost predicate CleanModes(scope: Scope, r: Report) {
    && r.schemaVersion == Is(SCHEMA_VERSION) && r.reviewer == Is(REVIEWER)
    && (if r.baselineKind.Missing? then r.modes else r.requiredModes) == Is(scope.modes)
  }

  /** Everything a full reviewer report must satisfy. */
  ghost predicate CleanFull(scope: Scope, r: Report) {
    && CleanModes(scope, r)
    && r.cases.Is? && CleanCases(scope, r.cases.value) && KeysOf(r.cases.value) == scope.cases
    && (exists v :: Collects(v, r.cases.value) && CleanTotals(v, scope, r.summary))
    && r.success == Is(scope.cases != {} && forall i :: !Reported(r.cases.value, i, false))
  }

  lemma PassingAndFailing(v: Verdicts)
    ensures |v| == |Passing(v)| + |Failing(v)|
  {
    assert v.Keys == Passing(v) + Failing(v);
    assert |v| == |v.Keys|;
  }

  lemma NoFailuresByCount(v: Verdicts)
    ensures |v| == |Passing(v)| <==> Failing(v) == {}
  {
    PassingAndFailing(v);
  }

  lemma NoFailuresReported(v: Verdicts, cases: seq<Raw<Case>>)
    requires Collects(v, cases)
    ensures |v| == |Passing(v)| <==> forall i :: !Reported(cases, i, false)
  {
    NoFailuresByCount(v);
    if forall i :: !Reported(cases, i, false) {
      forall i ensures i !in Failing(v) { assert Gives(v, i, false) <==> Reported(cases, i, false); }
    }
    if Failing(v) == {} {
      forall i ensures !Reported(cases, i, false) { assert Gives(v, i, false) ==> i in Failing(v); }
    }
  }

  lemma CollectsOnce(v: Verdicts, u: Verdicts)
    requires forall i, b :: Gives(v, i, b) <==> Gives(u, i, b)
    ensures v == u
  {
    forall i
      ensures i in v <==> i in u
      ensures i in v && i in u ==> v[i] == u[i]
    {
      if i in v { assert Gives(v, i, v[i]); }
      if i in u { assert Gives(u, i, u[i]); }
    }
  }

  /** The problems found after collecting, once the collected cases and verdicts are known. */
  lemma FinalMeaning(scope: Scope, r: Report, s: Progress)
    ensures FinalProblems(scope, r, s) == [] <==>
            && s.observed == scope.cases && CleanTotals(s.verdicts, scope, r.summary)
            && (r.baselineKind.Missing? ==> r.success == Is(s.observed != {} && |s.verdicts| == |Passing(s.verdicts)|))
  {
    KeyProblemsMeaning(scope.cases - s.observed, true);
    KeyProblemsMeaning(s.observed - scope.cases, false);
    assert scope.cases - s.observed == {} && s.observed - scope.cases == {} <==> s.observed == scope.cases;
  }

  lemma HeaderIsClean(scope: Scope, r: Report)
    ensures HeaderProblems(scope, r) == [] <==> CleanModes(scope, r)
  {
  }

  lemma SilentRead(scope: Scope, r: Report)
    requires HeaderProblems(scope, r) <= Collected(scope, r).problems
    ensures Read(scope, r).problems == [] <==>
            && CleanModes(scope, r) && Collected(scope, r).problems == HeaderProblems(scope, r)
            && FinalProblems(scope, r, Collected(scope, r)) == []
  {
    HeaderIsClean(scope, r);
  }

  /**
   A full reviewer report reads without problems exactly when it is clean, and then its verdicts are its checks'
   verdicts.
   */
  lemma FullReviewMeaning(scope: Scope, r: Report)
    requires r.baselineKind.Missing?
    ensures Read(scope, r).problems == [] <==> CleanFull(scope, r)
    ensures Read(scope, r).problems == [] ==> Collects(Read(scope, r).verdicts, r.cases.value)
  {
    var start := Progress(HeaderProblems(scope, r), {}, map[]);
    if r.cases.Is? {
      var s := Collected(scope, r);
      CasesMeaning(scope, start, r.cases.value);
      SilentRead(scope, r);
      FinalMeaning(scope, r, s);
      if CleanCases(scope, r.cases.value) {
        assert Collects(s.verdicts, r.cases.value);
        NoFailuresReported(s.verdicts, r.cases.value);
        forall v | Collects(v, r.cases.value) ensures v == s.verdicts { CollectsOnce(v, s.verdicts); }
      }
    }
  }

  // ---------------------------------------------------------------- compact baselines

  function RefKey(x: Raw<CaseRef>): Raw<CaseKey> {
    if x.Is? then KeyOf(x.value.mode, x.value.transport) else Wrong
  }

  ghost predicate CleanRefs(refs: seq<Raw<CaseRef>>) {
    && (forall x :: x in refs ==> RefKey(x).Is?)
    && (forall j, k :: 0 <= j < k < |refs| ==> RefKey(refs[j]) != RefKey(refs[k]))
  }

  function RefKeys(refs: seq<Raw<CaseRef>>): set<CaseKey> {
    set x | x in refs && RefKey(x).Is? :: RefKey(x).value
  }

  lemma CleanRefsStep(before: seq<Raw<CaseRef>>, last: Raw<CaseRef>)
    ensures CleanRefs(before + [last]) <==>
            CleanRefs(before) && RefKey(last).Is? && RefKey(last).value !in RefKeys(before)
    ensures RefKeys(before + [last]) == RefKeys(before) + if RefKey(last).Is? then {RefKey(last).value} else {}
  {
    var refs, n := before + [last], |before|;
    assert refs[n] == last && forall j :: 0 <= j < n ==> refs[j] == before[j];
    assert forall x :: x in refs <==> x in before || x == last;
    if CleanRefs(refs) {
      forall x | x in before
        ensures RefKey(x) != RefKey(last)
      {
        var j :| 0 <= j < n && before[j] == x;
        assert RefKey(refs[j]) != RefKey(refs[n]);
      }
    }
  }

  /** Listed cases are taken on silently exactly when all are readable and no key repeats. */
  lemma {:induction false} RefsMeaning(s: Progress, refs: seq<Raw<CaseRef>>)
    requires s.observed == {}
    ensures s.problems <= AddRefs(s, refs).problems && AddRefs(s, refs).verdicts == s.verdicts
    ensures AddRefs(s, refs).problems == s.problems <==> CleanRefs(refs)
    ensures AddRefs(s, refs).observed == RefKeys(refs)
  {
    if refs != [] {
      var n := |refs| - 1;
      var before, last := refs[..n], refs[n];
      RefsMeaning(s, before);
      CleanRefsStep(before, last);
      assert refs == before + [last];
      assert AddRefs(s, before).observed + {} == AddRefs(s, before).observed;
    }
  }

  /** Some record of a bucket names the identity. */
  ghost predicate Listed(scope: Scope, refs: seq<Raw<CheckRef>>, i: Identity) {
    exists x :: x in refs && RefIdentity(scope, x) == Is(i)
  }

  ghost predicate CleanRecords(scope: Scope, refs: seq<Raw<CheckRef>>) {
    && (forall x :: x in refs ==> RefIdentity(scope, x).Is?)
    && (forall j, k :: 0 <= j < k < |refs| ==> RefIdentity(scope, refs[j]) != RefIdentity(scope, refs[k]))
  }

  ghost predicate Fresh(scope: Scope, refs: seq<Raw<CheckRef>>, v: Verdicts) {
    forall i :: Listed(scope, refs, i) ==> i !in v
  }

  lemma CleanRecordsStep(scope: Scope, before: seq<Raw<CheckRef>>, last: Raw<CheckRef>)
    ensures CleanRecords(scope, before + [last]) <==>
            && CleanRecords(scope, before) && RefIdentity(scope, last).Is?
            && !Listed(scope, before, RefIdentity(scope, last).value)
    ensures forall i :: Listed(scope, before + [last], i) <==>
              Listed(scope, before, i) || RefIdentity(scope, last) == Is(i)
  {
    var refs, n := before + [last], |before|;
    assert refs[n] == last && forall j :: 0 <= j < n ==> refs[j] == before[j];
    assert forall x :: x in refs <==> x in before || x == last;
    if CleanRecords(scope, refs) {
      forall x | x in before
        ensures RefIdentity(scope, x) != RefIdentity(scope, last)
      {
        var j :| 0 <= j < n && before[j] == x;
        assert RefIdentity(scope, refs[j]) != RefIdentity(scope, refs[n]);
      }
    }
  }

  /**
   A bucket is taken on silently exactly when its records are readable, distinct and new; it then adds exactly
   them.
   */
  lemma {:induction false} BucketMeaning(scope: Scope, s: Progress, refs: seq<Raw<CheckRef>>, success: bool)
    ensures s.problems <= AddBucket(scope, s, refs, success).problems
    ensures AddBucket(scope, s, refs, success).observed == s.observed
    ensures AddBucket(scope, s, refs, success).problems == s.problems <==>
            CleanRecords(scope, refs) && Fresh(scope, refs, s.verdicts)
    ensures CleanRecords(scope, refs) && Fresh(scope, refs, s.verdicts) ==>
            forall i, b :: Gives(AddBucket(scope, s, refs, success).verdicts, i, b) <==>
                           Gives(s.verdicts, i, b) || (b == success && Listed(scope, refs, i))
  {
    if refs != [] {
      var n := |refs| - 1;
      var before, last := refs[..n], refs[n];
      BucketMeaning(scope, s, before, success);
      CleanRecordsStep(scope, before, last);
      assert refs == before + [last];
      FreshStep(scope, before, last, s.verdicts);
      if CleanRecords(scope, before) && Fresh(scope, before, s.verdicts) && RefIdentity(scope, last).Is? {
        var id, v := RefIdentity(scope, last).value, AddBucket(scope, s, before, success).verdicts;
        NextRecord(scope, s, before, id, v, success);
        assert forall i :: Listed(scope, refs, i) <==> Listed(scope, before, i) || i == id;
        assert id !in v ==> AddBucket(scope, s, refs, success).verdicts == v[id := success];
      }
    }
  }

  lemma FreshStep(scope: Scope, before: seq<Raw<CheckRef>>, last: Raw<CheckRef>, v: Verdicts)
    ensures Fresh(scope, before + [last], v) <==>
            Fresh(scope, before, v) && (RefIdentity(scope, last).Is? ==> RefIdentity(scope, last).value !in v)
  {
    CleanRecordsStep(scope, before, last);
    if RefIdentity(scope, last).Is? {
      assert Listed(scope, before + [last], RefIdentity(scope, last).value);
    }
  }

  lemma NextRecord(scope: Scope, s: Progress, before: seq<Raw<CheckRef>>, id: Identity, v: Verdicts, success: bool)
    requires forall i, b :: Gives(v, i, b) <==> Gives(s.verdicts, i, b) || (b == success && Listed(scope, before, i))
    ensures id in v <==> id in s.verdicts || Listed(scope, before, id)
    ensures id !in v ==> forall i, b :: Gives(v[id := success], i, b) <==>
                        Gives(s.verdicts, i, b) || (b == success && (Listed(scope, before, i) || i == id))
  {
    assert id in v ==> Gives(v, id, v[id]);
    assert id in s.verdicts ==> Gives(s.verdicts, id, s.verdicts[id]) && Gives(v, id, s.verdicts[id]);
    assert Listed(scope, before, id) ==> Gives(v, id, success);
    if id !in v {
      forall i, b
        ensures Gives(v[id := success], i, b) <==>
                Gives(s.verdicts, i, b) || (b == success && (Listed(scope, before, i) || i == id))
      {
        assert i != id ==> (Gives(v[id := success], i, b) <==> Gives(v, i, b));
      }
    }
  }

  /** The map holds exactly what the two buckets list. */
  ghost predicate Holds(v: Verdicts, scope: Scope, passing: seq<Raw<CheckRef>>, failing: seq<Raw<CheckRef>>) {
    forall i, b :: Gives(v, i, b) <==> Listed(scope, if b then passing else failing, i)
  }

  ghost predicate Disjoint(scope: Scope, passing: seq<Raw<CheckRef>>, failing: seq<Raw<CheckRef>>) {
    forall i :: !(Listed(scope, passing, i) && Listed(scope, failing, i))
  }

  ghost predicate CleanBuckets(scope: Scope, c: Buckets) {
    && c.passing.Is? && c.failing.Is?
    && CleanRecords(scope, c.passing.value) && CleanRecords(scope, c.failing.value)
    && Disjoint(scope, c.passing.value, c.failing.value)
  }

  /** Everything a compact reviewer baseline must satisfy. */
  ghost predicate CleanCompact(scope: Scope, r: Report) {
    && CleanModes(scope, r) && r.baselineKind == Is(BASELINE_KIND)
    && r.requiredCases.Is? && CleanRefs(r.requiredCases.value) && RefKeys(r.requiredCases.value) == scope.cases
    && r.checks.Is? && CleanBuckets(scope, r.checks.value)
    && exists v ::
         && Holds(v, scope, r.checks.value.passing.value, r.checks.value.failing.value)
         && CleanTotals(v, scope, r.summary)
  }

  lemma BucketsMeaning(scope: Scope, s: Progress, c: Buckets)
    requires s.verdicts == map[]
    ensures var t := AddOptionalBucket(scope, AddOptionalBucket(scope, s, c.passing, true), c.failing, false);
            && s.problems <= t.problems && t.observed == s.observed
            && (t.problems == s.problems <==> CleanBuckets(scope, c))
            && (CleanBuckets(scope, c) ==> Holds(t.verdicts, scope, c.passing.value, c.failing.value))
  {
    var t := AddOptionalBucket(scope, s, c.passing, true);
    if c.passing.Is? {
      BucketMeaning(scope, s, c.passing.value, true);
    }
    if c.failing.Is? {
      BucketMeaning(scope, t, c.failing.value, false);
    }
    if c.passing.Is? && c.failing.Is? && t.problems == s.problems {
      AfterPassing(scope, t.verdicts, c.passing.value, c.failing.value);
    }
  }

  lemma AfterPassing(scope: Scope, v: Verdicts, passing: seq<Raw<CheckRef>>, failing: seq<Raw<CheckRef>>)
    requires forall i, b :: Gives(v, i, b) <==> b && Listed(scope, passing, i)
    ensures Fresh(scope, failing, v) <==> Disjoint(scope, passing, failing)
  {
    forall i
      ensures i in v <==> Listed(scope, passing, i)
    {
      if i in v { assert Gives(v, i, v[i]); }
      if Listed(scope, passing, i) { assert Gives(v, i, true); }
    }
  }

  lemma CollectedCompact(scope: Scope, r: Report)
    requires !r.baselineKind.Missing?
    ensures HeaderProblems(scope, r) <= Collected(scope, r).problems
    ensures Collected(scope, r).problems == HeaderProblems(scope, r) <==>
            && r.baselineKind == Is(BASELINE_KIND)
            && r.requiredCases.Is? && CleanRefs(r.requiredCases.value)
            && r.checks.Is? && CleanBuckets(scope, r.checks.value)
    ensures r.requiredCases.Is? ==> Collected(scope, r).observed == RefKeys(r.requiredCases.value)
    ensures r.checks.Is? && CleanBuckets(scope, r.checks.value) ==>
            Holds(Collected(scope, r).verdicts, scope, r.checks.value.passing.value, r.checks.value.failing.value)
  {
    var start := Progress(HeaderProblems(scope, r), {}, map[]);
    var kind := if r.baselineKind == Is(BASELINE_KIND) then start
                else start.(problems := start.problems + [UnsupportedBaseline]);
    if r.requiredCases.Is? { RefsMeaning(kind, r.requiredCases.value); }
    var refs := if r.requiredCases.Is? then AddRefs(kind, r.requiredCases.value)
                else kind.(problems := kind.problems + [NoRequiredCases]);
    var named := if r.checks.Is? then refs else refs.(problems := refs.problems + [NoCheckIdentities]);
    BucketsMeaning(scope, named, if r.checks.Is? then r.checks.value else Buckets(Missing, Missing));
  }

  /**
   A compact reviewer baseline reads without problems exactly when it is clean, and then its verdicts are the
   listed ones.
   */
  lemma CompactReviewMeaning(scope: Scope, r: Report)
    requires !r.baselineKind.Missing?
    ensures Read(scope, r).problems == [] <==> CleanCompact(scope, r)
    ensures Read(scope, r).problems == [] ==>
            Holds(Read(scope, r).verdicts, scope, r.checks.value.passing.value, r.checks.value.failing.value)
  {
    var s := Collected(scope, r);
    CollectedCompact(scope, r);
    SilentRead(scope, r);
    FinalMeaning(scope, r, s);
    if r.checks.Is? && CleanBuckets(scope, r.checks.value) {
      var passing, failing := r.checks.value.passing.value, r.checks.value.failing.value;
      forall v | Holds(v, scope, passing, failing) ensures v == s.verdicts { CollectsOnce(v, s.verdicts); }
    }
  }
}
