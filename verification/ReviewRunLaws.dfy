/**
 The reviewer reader accepts a produced report exactly when every required mode was run in order and
 every case recorded distinct reviewer checks.
 */
module ReviewRunLaws {
  import opened JsonFields
  import opened Sequences
  import opened ReviewReport
  import opened ReviewGate
  import opened ReviewMeaning
  import opened ReviewRun

  /** What a case records: at least one check, reviewer names, none twice. */
  ghost predicate GoodProbes(probes: seq<Probe>) {
    && probes != []
    && (forall k :: 0 <= k < |probes| ==> CHECK_PREFIX <= probes[k].0)
    && (forall j, k :: 0 <= j < k < |probes| ==> probes[j].0 != probes[k].0)
  }

  /** The first `n` cases recorded such checks. */
  ghost predicate GoodOutcomes(outcomes: nat -> seq<Probe>, n: nat) {
    forall k :: 0 <= k < n ==> GoodProbes(outcomes(k))
  }

  // ---------------------------------------------------------------- clean cases

  lemma ChecksAreClean(probes: seq<Probe>)
    requires GoodProbes(probes)
    ensures CleanChecks(ChecksOf(probes)) && (AllPass(ChecksOf(probes)) <==> Succeeded(probes))
  {
    var checks := ChecksOf(probes);
    forall k | 0 <= k < |checks|
      ensures ReadableCheck(checks[k]) && NameOf(checks[k]) == probes[k].0 && checks[k].value.success == Is(probes[k].1)
    {
    }
    if AllPass(checks) {
      forall p | p in probes ensures p.1 {
        var k :| 0 <= k < |probes| && probes[k] == p;
        assert checks[k] in checks;
      }
    }
    if Succeeded(probes) {
      forall x | x in checks ensures x.value.success.value {
        var k :| 0 <= k < |checks| && checks[k] == x;
        assert probes[k] in probes;
      }
    }
  }

  lemma CaseIsClean(scope: Scope, s: Slot, probes: seq<Probe>)
    requires GoodProbes(probes) && KeyOfSlot(s) in scope.cases
    ensures CleanCase(scope, CaseOfSlot(s, probes)) && KeyOfCase(CaseOfSlot(s, probes)) == Is(KeyOfSlot(s))
  {
    ChecksAreClean(probes);
  }

  lemma {:induction false} RecordedAt<T>(record: (Slot, seq<Probe>) -> T, slots: seq<Slot>,
                                         outcomes: nat -> seq<Probe>, k: nat)
    requires k < |slots|
    ensures Recorded(record, slots, outcomes)[k] == record(slots[k], outcomes(k))
  {
    if k < |slots| - 1 {
      RecordedAt(record, slots[..|slots| - 1], outcomes, k);
    }
  }

  /** A matrix of different required cases is a list of clean cases. */
  lemma MatrixIsClean(scope: Scope, slots: seq<Slot>, outcomes: nat -> seq<Probe>)
    requires GoodOutcomes(outcomes, |slots|) && NoRepeats(slots)
    requires forall k :: 0 <= k < |slots| ==> KeyOfSlot(slots[k]) in scope.cases
    ensures CleanCases(scope, RunCases(slots, outcomes))
    ensures forall k :: 0 <= k < |slots| ==> KeyOfCase(RunCases(slots, outcomes)[k]) == Is(KeyOfSlot(slots[k]))
  {
    var cases := RunCases(slots, outcomes);
    forall k | 0 <= k < |cases|
      ensures CleanCase(scope, cases[k]) && KeyOfCase(cases[k]) == Is(KeyOfSlot(slots[k]))
    {
      RecordedAt(CaseOfSlot, slots, outcomes, k);
      CaseIsClean(scope, slots[k], outcomes(k));
    }
    forall j, k | 0 <= j < k < |cases|
      ensures KeyOfCase(cases[j]) != KeyOfCase(cases[k])
    {
      KeyInjective(slots[j], slots[k]);
    }
  }

  // ---------------------------------------------------------------- totals

  lemma FailingStep(v: Verdicts, id: Identity, b: bool)
    requires id !in v
    ensures |v[id := b]| == |v| + 1
    ensures |Failing(v[id := b])| == |Failing(v)| + if b then 0 else 1
  {
    var u := v[id := b];
    assert u.Keys == v.Keys + {id};
    FailingUpdate(v, id, b);
  }

  lemma FailingUpdate(v: Verdicts, id: Identity, b: bool)
    requires id !in v
    ensures id !in Failing(v) && Failing(v[id := b]) == if b then Failing(v) else Failing(v) + {id}
  {
  }

  /** A case's checks add one verdict each. */
  lemma {:induction false} ChecksCount(s: Progress, key: CaseKey, probes: seq<Probe>)
    requires CleanChecks(ChecksOf(probes)) && forall i :: i in s.verdicts ==> CaseOf(i) != key
    ensures var v := AddChecks(s, key, ChecksOf(probes)).verdicts;
            |v| == |s.verdicts| + |probes| && |Failing(v)| == |Failing(s.verdicts)| + Failures(probes)
  {
    if probes != [] {
      var n := |probes| - 1;
      CleanPrefix(probes);
      ChecksCount(s, key, probes[..n]);
      LastIsNew(s, key, probes);
      FailingStep(AddChecks(s, key, ChecksOf(probes[..n])).verdicts, Identity(key.0, key.1, probes[n].0), probes[n].1);
    }
  }

  lemma CleanPrefix(probes: seq<Probe>)
    requires probes != [] && CleanChecks(ChecksOf(probes))
    ensures var n := |probes| - 1;
            && ChecksOf(probes)[..n] == ChecksOf(probes[..n]) && CleanChecks(ChecksOf(probes[..n]))
            && ReadableCheck(CheckOf(probes[n]))
  {
    var n := |probes| - 1;
    var checks, before := ChecksOf(probes), ChecksOf(probes[..n]);
    assert forall j :: 0 <= j < n ==> before[j] == checks[j];
    assert forall x :: x in before ==> x in checks;
    assert checks[n] in checks;
  }

  lemma LastIsNew(s: Progress, key: CaseKey, probes: seq<Probe>)
    requires probes != [] && CleanChecks(ChecksOf(probes)) && forall i :: i in s.verdicts ==> CaseOf(i) != key
    ensures var n := |probes| - 1;
            var before, id := AddChecks(s, key, ChecksOf(probes[..n])).verdicts, Identity(key.0, key.1, probes[n].0);
            id !in before && AddChecks(s, key, ChecksOf(probes)).verdicts == before[id := probes[n].1]
  {
    CleanPrefix(probes);
    ChecksMeaning(s, key, ChecksOf(probes[..|probes| - 1]));
    ChecksMeaning(s, key, ChecksOf(probes));
  }

  lemma CasesPassedStep(v: Verdicts, observed: set<CaseKey>, key: CaseKey, checks: seq<Raw<Check>>, u: Verdicts)
    requires key !in observed && checks != [] && CleanChecks(checks) && forall i :: i in v ==> CaseOf(i) in observed
    requires forall i, b :: Gives(u, i, b) <==> Gives(v, i, b) || Says(key, checks, i, b)
    ensures CasesPassed(u, observed + {key}) == CasesPassed(v, observed) + if AllPass(checks) then {key} else {}
  {
    forall c
      ensures c in CasesPassed(u, observed + {key}) <==> c in CasesPassed(v, observed) || (c == key && AllPass(checks))
    {
      if c == key {
        KeyPassed(v, observed, key, checks, u);
      } else {
        OthersStay(v, key, checks, u, c);
      }
    }
  }

  lemma OthersStay(v: Verdicts, key: CaseKey, checks: seq<Raw<Check>>, u: Verdicts, c: CaseKey)
    requires c != key && forall i, b :: Gives(u, i, b) <==> Gives(v, i, b) || Says(key, checks, i, b)
    ensures forall i :: CaseOf(i) == c ==> (i in u <==> i in v) && (i in u && i in v ==> u[i] == v[i])
  {
    forall i | CaseOf(i) == c
      ensures (i in u <==> i in v) && (i in u && i in v ==> u[i] == v[i])
    {
      if i in u { assert Gives(u, i, u[i]); }
      if i in v { assert Gives(v, i, v[i]); }
    }
  }

  lemma KeyPassed(v: Verdicts, observed: set<CaseKey>, key: CaseKey, checks: seq<Raw<Check>>, u: Verdicts)
    requires key !in observed && checks != [] && CleanChecks(checks) && forall i :: i in v ==> CaseOf(i) in observed
    requires forall i, b :: Gives(u, i, b) <==> Gives(v, i, b) || Says(key, checks, i, b)
    ensures exists i :: i in u && CaseOf(i) == key
    ensures (forall i :: i in u && CaseOf(i) == key ==> u[i]) <==> AllPass(checks)
  {
    forall x | x in checks
      ensures Gives(u, Identity(key.0, key.1, x.value.name.value), x.value.success.value)
    {
      assert Says(key, checks, Identity(key.0, key.1, x.value.name.value), x.value.success.value);
    }
    assert checks[0] in checks;
    if AllPass(checks) {
      forall i | i in u && CaseOf(i) == key
        ensures u[i]
      {
        assert Gives(u, i, u[i]);
        assert !Gives(v, i, u[i]);
      }
    }
  }

  /** The reader's totals after the first `n` cases are the producer's counts. */
  ghost predicate Agree(s: Progress, outcomes: nat -> seq<Probe>, n: nat) {
    && |s.observed| == n && |s.verdicts| == ChecksIn(outcomes, n)
    && |Failing(s.verdicts)| == FailuresIn(outcomes, n)
    && |CasesPassed(s.verdicts, s.observed)| == SuccessesIn(outcomes, n)
  }

  lemma AddCasesLast(scope: Scope, start: Progress, slots: seq<Slot>, outcomes: nat -> seq<Probe>)
    requires slots != []
    ensures AddCases(scope, start, RunCases(slots, outcomes))
         == AddCase(scope, AddCases(scope, start, RunCases(slots[..|slots| - 1], outcomes)),
                    CaseOfSlot(slots[|slots| - 1], outcomes(|slots| - 1)))
  {
    var n, cases := |slots| - 1, RunCases(slots, outcomes);
    assert cases == RunCases(slots[..n], outcomes) + [CaseOfSlot(slots[n], outcomes(n))];
    SplitLast(scope, start, RunCases(slots[..n], outcomes), CaseOfSlot(slots[n], outcomes(n)));
  }

  lemma SplitLast(scope: Scope, start: Progress, before: seq<Raw<Case>>, last: Raw<Case>)
    ensures AddCases(scope, start, before + [last]) == AddCase(scope, AddCases(scope, start, before), last)
  {
    assert (before + [last])[..|before|] == before;
  }

  lemma MatrixIsSilent(scope: Scope, start: Progress, slots: seq<Slot>, outcomes: nat -> seq<Probe>)
    requires start.observed == {} && start.verdicts == map[] && GoodOutcomes(outcomes, |slots|) && NoRepeats(slots)
    requires forall k :: 0 <= k < |slots| ==> KeyOfSlot(slots[k]) in scope.cases
    ensures var s := AddCases(scope, start, RunCases(slots, outcomes));
            s.problems == start.problems && forall i :: i in s.verdicts ==> CaseOf(i) in s.observed
  {
    MatrixIsClean(scope, slots, outcomes);
    CasesMeaning(scope, start, RunCases(slots, outcomes));
  }

  lemma {:induction false} CountsAgree(scope: Scope, start: Progress, slots: seq<Slot>, outcomes: nat -> seq<Probe>)
    requires start.observed == {} && start.verdicts == map[] && GoodOutcomes(outcomes, |slots|) && NoRepeats(slots)
    requires forall k :: 0 <= k < |slots| ==> KeyOfSlot(slots[k]) in scope.cases
    ensures Agree(AddCases(scope, start, RunCases(slots, outcomes)), outcomes, |slots|)
  {
    if slots != [] {
      var n := |slots| - 1;
      PrefixHasNoRepeats(slots);
      CountsAgree(scope, start, slots[..n], outcomes);
      LastAgrees(scope, start, slots, outcomes);
    } else {
      NothingAgrees(start, outcomes);
    }
  }

  lemma LastAgrees(scope: Scope, start: Progress, slots: seq<Slot>, outcomes: nat -> seq<Probe>)
    requires start.observed == {} && start.verdicts == map[] && GoodOutcomes(outcomes, |slots|) && NoRepeats(slots)
    requires forall k :: 0 <= k < |slots| ==> KeyOfSlot(slots[k]) in scope.cases
    requires slots != [] && NoRepeats(slots[..|slots| - 1])
    requires Agree(AddCases(scope, start, RunCases(slots[..|slots| - 1], outcomes)), outcomes, |slots| - 1)
    ensures Agree(AddCases(scope, start, RunCases(slots, outcomes)), outcomes, |slots|)
  {
    var n := |slots| - 1;
    MatrixIsSilent(scope, start, slots[..n], outcomes);
    MatrixIsSilent(scope, start, slots, outcomes);
    AddCasesLast(scope, start, slots, outcomes);
    AgreeStep(scope, AddCases(scope, start, RunCases(slots[..n], outcomes)), slots[n], outcomes, n);
  }

  lemma AgreeStep(scope: Scope, s: Progress, slot: Slot, outcomes: nat -> seq<Probe>, n: nat)
    requires Agree(s, outcomes, n) && GoodProbes(outcomes(n)) && forall i :: i in s.verdicts ==> CaseOf(i) in s.observed
    requires AddCase(scope, s, CaseOfSlot(slot, outcomes(n))).problems == s.problems
    ensures Agree(AddCase(scope, s, CaseOfSlot(slot, outcomes(n))), outcomes, n + 1)
  {
    NextCase(scope, s, slot, outcomes(n));
  }

  lemma NothingAgrees(start: Progress, outcomes: nat -> seq<Probe>)
    requires start.observed == {} && start.verdicts == map[]
    ensures Agree(start, outcomes, 0)
  {
    assert Failing(start.verdicts) == {} && CasesPassed(start.verdicts, start.observed) == {};
  }

  lemma {:induction false} NextCase(scope: Scope, s: Progress, slot: Slot, probes: seq<Probe>)
    requires GoodProbes(probes) && forall i :: i in s.verdicts ==> CaseOf(i) in s.observed
    requires AddCase(scope, s, CaseOfSlot(slot, probes)).problems == s.problems
    ensures var t := AddCase(scope, s, CaseOfSlot(slot, probes));
            && |t.observed| == |s.observed| + 1 && |t.verdicts| == |s.verdicts| + |probes|
            && |Failing(t.verdicts)| == |Failing(s.verdicts)| + Failures(probes)
            && |CasesPassed(t.verdicts, t.observed)|
               == |CasesPassed(s.verdicts, s.observed)| + if Succeeded(probes) then 1 else 0
  {
    NextVerdicts(scope, s, slot, probes);
    NextPassed(s, KeyOfSlot(slot), probes);
  }

  /** A case taken on silently adds its key and its checks. */
  lemma {:induction false} NextVerdicts(scope: Scope, s: Progress, slot: Slot, probes: seq<Probe>)
    requires GoodProbes(probes) && forall i :: i in s.verdicts ==> CaseOf(i) in s.observed
    requires AddCase(scope, s, CaseOfSlot(slot, probes)).problems == s.problems
    ensures var t, key := AddCase(scope, s, CaseOfSlot(slot, probes)), KeyOfSlot(slot);
            && key !in s.observed && t.observed == s.observed + {key}
            && t.verdicts == AddChecks(s.(observed := s.observed + {key}), key, ChecksOf(probes)).verdicts
            && |t.verdicts| == |s.verdicts| + |probes|
            && |Failing(t.verdicts)| == |Failing(s.verdicts)| + Failures(probes)
  {
    OneCase(scope, s, CaseOfSlot(slot, probes));
    ChecksAreClean(probes);
    ChecksCount(s.(observed := s.observed + {KeyOfSlot(slot)}), KeyOfSlot(slot), probes);
  }

  /** It passes, and counts as passed, exactly when its probes succeeded. */
  lemma {:induction false} NextPassed(s: Progress, key: CaseKey, probes: seq<Probe>)
    requires GoodProbes(probes) && key !in s.observed && forall i :: i in s.verdicts ==> CaseOf(i) in s.observed
    ensures var seen := s.(observed := s.observed + {key});
            |CasesPassed(AddChecks(seen, key, ChecksOf(probes)).verdicts, seen.observed)|
            == |CasesPassed(s.verdicts, s.observed)| + if Succeeded(probes) then 1 else 0
  {
    var seen, checks := s.(observed := s.observed + {key}), ChecksOf(probes);
    ChecksAreClean(probes);
    ChecksMeaning(seen, key, checks);
    CasesPassedStep(s.verdicts, s.observed, key, checks, AddChecks(seen, key, checks).verdicts);
    assert key !in CasesPassed(s.verdicts, s.observed);
  }

  // ---------------------------------------------------------------- acceptance

  lemma {:induction false} FailuresMeaning(probes: seq<Probe>)
    ensures Failures(probes) == 0 <==> forall p :: p in probes ==> p.1
  {
    if probes != [] {
      var n := |probes| - 1;
      FailuresMeaning(probes[..n]);
      assert probes == probes[..n] + [probes[n]];
    }
  }

  lemma {:induction false} SuccessMeaning(outcomes: nat -> seq<Probe>, n: nat)
    requires GoodOutcomes(outcomes, n)
    ensures SuccessesIn(outcomes, n) <= n && (SuccessesIn(outcomes, n) == n <==> FailuresIn(outcomes, n) == 0)
  {
    if n > 0 {
      SuccessMeaning(outcomes, n - 1);
      FailuresMeaning(outcomes(n - 1));
      assert GoodProbes(outcomes(n - 1));
    }
  }

  lemma FullMatrix(outcomes: nat -> seq<Probe>)
    requires GoodOutcomes(outcomes, |Slots(REVIEW_MODES)|)
    ensures var slots := Slots(REVIEW_MODES);
            && NoRepeats(slots) && CleanCases(RequiredScope(), RunCases(slots, outcomes))
            && (forall k :: 0 <= k < |slots| ==> KeyOfSlot(slots[k]) in RequiredCases())
            && KeysOf(RunCases(slots, outcomes)) == RequiredCases()
  {
    var slots, cases := Slots(REVIEW_MODES), RunCases(Slots(REVIEW_MODES), outcomes);
    SlotsMeaning();
    forall k | 0 <= k < |slots|
      ensures KeyOfSlot(slots[k]) in RequiredCases()
    {
      RequiredIsVisited(slots[k]);
    }
    MatrixIsClean(RequiredScope(), slots, outcomes);
    MatrixKeys(slots, cases);
  }

  lemma MatrixKeys(slots: seq<Slot>, cases: seq<Raw<Case>>)
    requires |cases| == |slots| && forall k :: 0 <= k < |slots| ==> KeyOfCase(cases[k]) == Is(KeyOfSlot(slots[k]))
    requires slots == Slots(REVIEW_MODES)
    ensures KeysOf(cases) == RequiredCases()
  {
    forall key
      ensures key in KeysOf(cases) <==> key in RequiredCases()
    {
      if key in KeysOf(cases) {
        var c :| c in cases && KeyOfCase(c) == Is(key);
        var k :| 0 <= k < |cases| && cases[k] == c;
        RequiredIsVisited(slots[k]);
      }
      if key in RequiredCases() {
        var s :| s in RequiredSlots() && KeyOfSlot(s) == key;
        RequiredIsVisited(s);
        var k :| 0 <= k < |slots| && slots[k] == s;
        assert cases[k] in cases;
      }
    }
  }

  lemma TotalsAgree(scope: Scope, s: Progress, outcomes: nat -> seq<Probe>, n: nat)
    requires Agree(s, outcomes, n) && s.observed == scope.cases
    ensures CleanTotals(s.verdicts, scope,
              Is(Summary(Is(ChecksIn(outcomes, n) - FailuresIn(outcomes, n)), Is(FailuresIn(outcomes, n)),
                         Is(ChecksIn(outcomes, n)), Is(SuccessesIn(outcomes, n)), Is(n))))
  {
    PassingAndFailing(s.verdicts);
  }

  lemma FullRunIsClean(outcomes: nat -> seq<Probe>)
    requires GoodOutcomes(outcomes, |Slots(REVIEW_MODES)|)
    ensures CleanFull(RequiredScope(), ProducedReport(REVIEW_MODES, outcomes))
  {
    var scope, slots := RequiredScope(), Slots(REVIEW_MODES);
    var cases, start := RunCases(slots, outcomes), Progress([], {}, map[]);
    FullMatrix(outcomes);
    CountsAgree(scope, start, slots, outcomes);
    CasesMeaning(scope, start, cases);
    var s := AddCases(scope, start, cases);
    assert Collects(s.verdicts, cases);
    TotalsAgree(scope, s, outcomes, |slots|);
    SuccessMeaning(outcomes, |slots|);
    NoFailuresByCount(s.verdicts);
    NoFailuresReported(s.verdicts, cases);
    assert |Failing(s.verdicts)| == 0 <==> Failing(s.verdicts) == {};
    RequiredIsVisited(Slot(SHIPPING_VERSION, OverStdio, Review));
    assert Slot(SHIPPING_VERSION, OverStdio, Review) in RequiredSlots();
  }

  /** Checks the reader finds clean were named as reviewer checks, and none twice. */
  lemma CleanProbesAreGood(probes: seq<Probe>)
    requires probes != [] && CleanChecks(ChecksOf(probes))
    ensures GoodProbes(probes)
  {
    var checks := ChecksOf(probes);
    forall k | 0 <= k < |probes|
      ensures CHECK_PREFIX <= probes[k].0 && NameOf(checks[k]) == probes[k].0
    {
      assert checks[k] in checks && checks[k] == CheckOf(probes[k]);
    }
    forall j, k | 0 <= j < k < |probes|
      ensures probes[j].0 != probes[k].0
    {
      assert NameOf(checks[j]) != NameOf(checks[k]);
    }
  }

  /** An accepted report was made of good outcomes. */
  lemma AcceptedOutcomes(modes: seq<string>, outcomes: nat -> seq<Probe>)
    requires CleanCases(RequiredScope(), RunCases(Slots(modes), outcomes))
    ensures GoodOutcomes(outcomes, |Slots(modes)|)
  {
    var slots := Slots(modes);
    forall k | 0 <= k < |slots|
      ensures GoodProbes(outcomes(k))
    {
      RecordedAt(CaseOfSlot, slots, outcomes, k);
      assert CleanCase(RequiredScope(), CaseOfSlot(slots[k], outcomes(k)));
      CleanProbesAreGood(outcomes(k));
    }
  }

  /** The three required modes were run in order, and every case recorded distinct reviewer checks. */
  ghost predicate FullRun(modes: seq<string>, outcomes: nat -> seq<Probe>) {
    modes == REVIEW_MODES && GoodOutcomes(outcomes, |Slots(modes)|)
  }

  /** Whatever the probes find, the reader accepts a run's report exactly when the run was a full one. */
  lemma ReviewRunIsAccepted(modes: seq<string>, outcomes: nat -> seq<Probe>)
    ensures Read(RequiredScope(), ProducedReport(modes, outcomes)).problems == [] <==> FullRun(modes, outcomes)
  {
    FullReviewMeaning(RequiredScope(), ProducedReport(modes, outcomes));
    if FullRun(modes, outcomes) {
      FullRunIsClean(outcomes);
    }
    if CleanFull(RequiredScope(), ProducedReport(modes, outcomes)) {
      AcceptedOutcomes(modes, outcomes);
    }
  }

  /**
   A run can be stored exactly when it was a full one; its baseline then reads back with the run's
   verdicts, and the run passes against it.
   */
  lemma ReviewRunIsStorable(modes: seq<string>, outcomes: nat -> seq<Probe>)
    ensures var scope, run := RequiredScope(), ProducedReport(modes, outcomes);
            && (Compact(scope, run).Written? <==> FullRun(modes, outcomes))
            && (FullRun(modes, outcomes) ==>
                  && Collects(Read(scope, run).verdicts, run.cases.value)
                  && Read(scope, Compact(scope, run).report) == Reading([], Read(scope, run).verdicts)
                  && Gate(scope, run, Compact(scope, run).report).success)
  {
    var scope, run := RequiredScope(), ProducedReport(modes, outcomes);
    ReviewRunIsAccepted(modes, outcomes);
    CompactIsLossless(scope, run);
    if FullRun(modes, outcomes) {
      FullReviewMeaning(scope, run);
      CompactionRefines(scope, run, run);
      GateReflexive(scope, run);
    }
  }
}
