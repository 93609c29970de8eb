/** The reviewer reader's loops, the lossless compact baseline, and the reviewer gate's laws. */
module ReviewGate {
  import opened JsonFields
  import opened Sequences
  import opened Sorting
  import opened ReviewReport

  // ---------------------------------------------------------------- the loops

  method CollectChecks(s: Progress, key: CaseKey, checks: seq<Raw<Check>>) returns (t: Progress, caseSuccess: bool)
    ensures t == AddChecks(s, key, checks) && caseSuccess == CaseSuccess(s, key, checks)
  {
    var problems, verdicts := s.problems, s.verdicts;
    caseSuccess := true;
    for k := 0 to |checks|
      invariant s.(problems := problems, verdicts := verdicts) == AddChecks(s, key, checks[..k])
      invariant caseSuccess == CaseSuccess(s, key, checks[..k])
    {
      assert checks[..k + 1][..k] == checks[..k];
      var raw := checks[k];
      if !ReadableCheck(raw) {
        problems := problems + [MalformedCheck];
      } else {
        var id := Identity(key.0, key.1, raw.value.name.value);
        if id in verdicts {
          problems := problems + [DuplicateCheck];
        } else {
          verdicts := verdicts[id := raw.value.success.value];
          caseSuccess := caseSuccess && raw.value.success.value;
        }
      }
    }
    assert checks[..|checks|] == checks;
    t := s.(problems := problems, verdicts := verdicts);
  }

  method CollectCase(scope: Scope, s: Progress, raw: Raw<Case>) returns (t: Progress)
    ensures t == AddCase(scope, s, raw)
  {
    if !raw.Is? {
      return s.(problems := s.problems + [MalformedCase]);
    }
    var key := KeyOf(raw.value.mode, raw.value.transport);
    if !key.Is? || key.value !in scope.cases {
      return s.(problems := s.problems + [UnexpectedCase]);
    }
    if key.value in s.observed {
      return s.(problems := s.problems + [DuplicateCase]);
    }
    t := s.(observed := s.observed + {key.value});
    if !raw.value.checks.Is? || raw.value.checks.value == [] {
      return t.(problems := t.problems + [NoChecks(key.value)]);
    }
    var caseSuccess;
    t, caseSuccess := CollectChecks(t, key.value, raw.value.checks.value);
    if raw.value.success != Is(caseSuccess) {
      t := t.(problems := t.problems + [InconsistentCase(key.value)]);
    }
  }

  method CollectRefs(s: Progress, refs: seq<Raw<CaseRef>>) returns (t: Progress)
    ensures t == AddRefs(s, refs)
  {
    t := s;
    for k := 0 to |refs|
      invariant t == AddRefs(s, refs[..k])
    {
      assert refs[..k + 1][..k] == refs[..k];
      t := AddRef(t, refs[k]);
    }
    assert refs[..|refs|] == refs;
  }

  method CollectBucket(scope: Scope, s: Progress, refs: Raw<seq<Raw<CheckRef>>>, success: bool) returns (t: Progress)
    ensures t == AddOptionalBucket(scope, s, refs, success)
  {
    if !refs.Is? {
      return s.(problems := s.problems + [NoBucket(success)]);
    }
    t := s;
    for k := 0 to |refs.value|
      invariant t == AddBucket(scope, s, refs.value[..k], success)
    {
      assert refs.value[..k + 1][..k] == refs.value[..k];
      t := AddVerdict(scope, t, refs.value[k], success);
    }
    assert refs.value[..|refs.value|] == refs.value;
  }

  method CollectFull(scope: Scope, s: Progress, cases: seq<Raw<Case>>) returns (t: Progress)
    ensures t == AddCases(scope, s, cases)
  {
    t := s;
    for k := 0 to |cases|
      invariant t == AddCases(scope, s, cases[..k])
    {
      assert cases[..k + 1][..k] == cases[..k];
      t := CollectCase(scope, t, cases[k]);
    }
    assert cases[..|cases|] == cases;
  }

  method RequiredReviewChecks(scope: Scope, r: Report) returns (reading: Reading)
    ensures reading == Read(scope, r)
  {
    var s := Progress(HeaderProblems(scope, r), {}, map[]);
    if r.baselineKind.Missing? {
      if r.cases.Is? {
        s := CollectFull(scope, s, r.cases.value);
      } else {
        s := s.(problems := s.problems + [NoCases]);
      }
    } else {
      if r.baselineKind != Is(BASELINE_KIND) {
        s := s.(problems := s.problems + [UnsupportedBaseline]);
      }
      if r.requiredCases.Is? {
        s := CollectRefs(s, r.requiredCases.value);
      } else {
        s := s.(problems := s.problems + [NoRequiredCases]);
      }
      var buckets := Buckets(Missing, Missing);
      if r.checks.Is? {
        buckets := r.checks.value;
      } else {
        s := s.(problems := s.problems + [NoCheckIdentities]);
      }
      s := CollectBucket(scope, s, buckets.passing, true);
      s := CollectBucket(scope, s, buckets.failing, false);
    }
    reading := Reading(s.problems + FinalProblems(scope, r, s), s.verdicts);
  }

  // ---------------------------------------------------------------- what every reading holds

  /** An identity the compact form can carry. */
  ghost predicate GoodIdentity(scope: Scope, i: Identity) {
    CaseOf(i) in scope.cases && CHECK_PREFIX <= i.checkId
  }

  ghost predicate GoodVerdicts(scope: Scope, v: Verdicts) {
    forall i :: i in v ==> GoodIdentity(scope, i)
  }

  lemma {:induction false} ChecksAreGood(scope: Scope, s: Progress, key: CaseKey, checks: seq<Raw<Check>>)
    requires GoodVerdicts(scope, s.verdicts) && key in scope.cases
    ensures GoodVerdicts(scope, AddChecks(s, key, checks).verdicts)
    ensures AddChecks(s, key, checks).observed == s.observed
  {
    if checks != [] {
      ChecksAreGood(scope, s, key, checks[..|checks| - 1]);
    }
  }

  lemma {:induction false} CasesAreGood(scope: Scope, s: Progress, cases: seq<Raw<Case>>)
    requires GoodVerdicts(scope, s.verdicts)
    ensures GoodVerdicts(scope, AddCases(scope, s, cases).verdicts)
  {
    if cases != [] {
      var n := |cases| - 1;
      CasesAreGood(scope, s, cases[..n]);
      var t, raw := AddCases(scope, s, cases[..n]), cases[n];
      if raw.Is? && raw.value.checks.Is? {
        var key := KeyOf(raw.value.mode, raw.value.transport);
        if key.Is? && key.value in scope.cases {
          ChecksAreGood(scope, t.(observed := t.observed + {key.value}), key.value, raw.value.checks.value);
        }
      }
    }
  }

  lemma {:induction false} BucketIsGood(scope: Scope, s: Progress, refs: seq<Raw<CheckRef>>, success: bool)
    requires GoodVerdicts(scope, s.verdicts)
    ensures GoodVerdicts(scope, AddBucket(scope, s, refs, success).verdicts)
  {
    if refs != [] {
      BucketIsGood(scope, s, refs[..|refs| - 1], success);
    }
  }

  lemma {:induction false} RefsKeepVerdicts(s: Progress, refs: seq<Raw<CaseRef>>)
    ensures AddRefs(s, refs).verdicts == s.verdicts
  {
    if refs != [] {
      RefsKeepVerdicts(s, refs[..|refs| - 1]);
    }
  }

  lemma OptionalBucketIsGood(scope: Scope, s: Progress, refs: Raw<seq<Raw<CheckRef>>>, success: bool)
    requires GoodVerdicts(scope, s.verdicts)
    ensures GoodVerdicts(scope, AddOptionalBucket(scope, s, refs, success).verdicts)
  {
    if refs.Is? {
      BucketIsGood(scope, s, refs.value, success);
    }
  }

  /** Every identity ever read belongs to a required case and is a reviewer check. */
  lemma ReadingsAreGood(scope: Scope, r: Report)
    ensures GoodVerdicts(scope, Read(scope, r).verdicts)
  {
    var start := Progress(HeaderProblems(scope, r), {}, map[]);
    if r.baselineKind.Missing? {
      if r.cases.Is? { CasesAreGood(scope, start, r.cases.value); }
    } else {
      CompactIsGood(scope, r, start);
    }
  }

  lemma CompactIsGood(scope: Scope, r: Report, start: Progress)
    requires !r.baselineKind.Missing? && start == Progress(HeaderProblems(scope, r), {}, map[])
    ensures GoodVerdicts(scope, Collected(scope, r).verdicts)
  {
    var kind := if r.baselineKind == Is(BASELINE_KIND) then start
                else start.(problems := start.problems + [UnsupportedBaseline]);
    if r.requiredCases.Is? { RefsKeepVerdicts(kind, r.requiredCases.value); }
    var refs := if r.requiredCases.Is? then AddRefs(kind, r.requiredCases.value)
                else kind.(problems := kind.problems + [NoRequiredCases]);
    var named := if r.checks.Is? then refs else refs.(problems := refs.problems + [NoCheckIdentities]);
    var buckets := if r.checks.Is? then r.checks.value else Buckets(Missing, Missing);
    OptionalBucketIsGood(scope, named, buckets.passing, true);
    OptionalBucketIsGood(scope, AddOptionalBucket(scope, named, buckets.passing, true), buckets.failing, false);
  }

  // ---------------------------------------------------------------- the compact baseline

  datatype Compaction = Written(report: Report) | Rejected(problems: seq<Problem>)

  function RefOf(i: Identity): Raw<CheckRef> {
    Is(CheckRef(Is(i.mode), Is(i.transport), Is(i.checkId)))
  }

  function RefsOf(ids: seq<Identity>): seq<Raw<CheckRef>> {
    seq(|ids|, k requires 0 <= k < |ids| => RefOf(ids[k]))
  }

  function CaseRefsOf(keys: seq<CaseKey>): seq<Raw<CaseRef>> {
    seq(|keys|, k requires 0 <= k < |keys| => Is(CaseRef(Is(keys[k].0), Is(keys[k].1))))
  }

  function BaselineReport(scope: Scope, summary: Raw<Summary>, passing: set<Identity>, failing: set<Identity>): Report {
    Report(Is(SCHEMA_VERSION), Is(REVIEWER), Is(BASELINE_KIND), Is(scope.modes), Missing,
           Is(CaseRefsOf(SortedKeys(scope.cases))),
           Is(Buckets(Is(RefsOf(Sorted(passing))), Is(RefsOf(Sorted(failing))))), Missing, summary, Missing)
  }

  /** `_compact_review_regression_baseline`. */
  function Compact(scope: Scope, r: Report): Compaction {
    var reading := Read(scope, r);
    if reading.problems != [] then Rejected(reading.problems)
    else Written(BaselineReport(scope, r.summary, Passing(reading.verdicts), Failing(reading.verdicts)))
  }

  function KeySet(keys: seq<CaseKey>): set<CaseKey> {
    set k | k in keys
  }

  lemma {:induction false} CaseRefsReadBack(s: Progress, keys: seq<CaseKey>)
    requires NoRepeats(keys) && forall k :: k in keys ==> k !in s.observed
    ensures AddRefs(s, CaseRefsOf(keys)) == s.(observed := s.observed + KeySet(keys))
  {
    if keys == [] {
      assert s.observed + KeySet(keys) == s.observed;
    } else {
      var n, refs := |keys| - 1, CaseRefsOf(keys);
      PrefixHasNoRepeats(keys);
      CaseRefsReadBack(s, keys[..n]);
      assert refs[..n] == CaseRefsOf(keys[..n]);
      assert KeyOf(refs[n].value.mode, refs[n].value.transport) == Is(keys[n]);
      assert s.observed + KeySet(keys) == s.observed + KeySet(keys[..n]) + {keys[n]};
    }
  }

  function WithVerdicts(v: Verdicts, ids: seq<Identity>, success: bool): Verdicts {
    v + map i | i in ids :: success
  }

  lemma WithVerdictsStep(v: Verdicts, ids: seq<Identity>, success: bool)
    requires ids != [] && NoRepeats(ids)
    ensures WithVerdicts(v, ids, success) == WithVerdicts(v, ids[..|ids| - 1], success)[ids[|ids| - 1] := success]
    ensures ids[|ids| - 1] !in v ==> ids[|ids| - 1] !in WithVerdicts(v, ids[..|ids| - 1], success)
  {
    PrefixHasNoRepeats(ids);
  }

  lemma {:induction false} BucketReadsBack(scope: Scope, s: Progress, ids: seq<Identity>, success: bool)
    requires NoRepeats(ids) && forall i :: i in ids ==> GoodIdentity(scope, i) && i !in s.verdicts
    ensures AddBucket(scope, s, RefsOf(ids), success) == s.(verdicts := WithVerdicts(s.verdicts, ids, success))
  {
    if ids == [] {
      assert WithVerdicts(s.verdicts, ids, success) == s.verdicts;
    } else {
      var n, refs := |ids| - 1, RefsOf(ids);
      PrefixHasNoRepeats(ids);
      WithVerdictsStep(s.verdicts, ids, success);
      BucketReadsBack(scope, s, ids[..n], success);
      assert refs[..n] == RefsOf(ids[..n]);
      assert RefIdentity(scope, refs[n]) == Is(ids[n]);
    }
  }

  lemma VerdictsSplit(v: Verdicts)
    ensures WithVerdicts(WithVerdicts(map[], Sorted(Passing(v)), true), Sorted(Failing(v)), false) == v
    ensures forall i :: i in Sorted(Failing(v)) ==> i !in WithVerdicts(map[], Sorted(Passing(v)), true)
  {
    var half := WithVerdicts(map[], Sorted(Passing(v)), true);
    forall i
      ensures i in half <==> i in Passing(v)
      ensures i in half ==> half[i]
    {
      assert i in Sorted(Passing(v)) <==> i in Passing(v);
    }
    forall i
      ensures i in WithVerdicts(half, Sorted(Failing(v)), false) <==> i in v
    {
      assert i in Sorted(Failing(v)) <==> i in Failing(v);
    }
  }

  /** A stored set of verdicts is collected back unchanged, with exactly the required cases observed. */
  lemma BaselineReadsBack(scope: Scope, summary: Raw<Summary>, v: Verdicts)
    requires GoodVerdicts(scope, v)
    ensures Collected(scope, BaselineReport(scope, summary, Passing(v), Failing(v))) == Progress([], scope.cases, v)
  {
    var r := BaselineReport(scope, summary, Passing(v), Failing(v));
    assert HeaderProblems(scope, r) == [];
    CasesReadBack(scope);
    VerdictsReadBack(scope, v);
  }

  lemma CasesReadBack(scope: Scope)
    ensures AddRefs(Progress([], {}, map[]), CaseRefsOf(SortedKeys(scope.cases))) == Progress([], scope.cases, map[])
  {
    var keys := SortedKeys(scope.cases);
    CaseRefsReadBack(Progress([], {}, map[]), keys);
    assert {} + KeySet(keys) == scope.cases;
  }

  lemma VerdictsReadBack(scope: Scope, v: Verdicts)
    requires GoodVerdicts(scope, v)
    ensures AddBucket(scope, AddBucket(scope, Progress([], scope.cases, map[]), RefsOf(Sorted(Passing(v))), true),
                      RefsOf(Sorted(Failing(v))), false) == Progress([], scope.cases, v)
  {
    var start := Progress([], scope.cases, map[]);
    VerdictsSplit(v);
    BucketReadsBack(scope, start, Sorted(Passing(v)), true);
    BucketReadsBack(scope, start.(verdicts := WithVerdicts(map[], Sorted(Passing(v)), true)), Sorted(Failing(v)),
                    false);
  }

  /** An error-free reading observed exactly the required cases and reported the true totals. */
  lemma CleanReading(scope: Scope, r: Report)
    requires Read(scope, r).problems == []
    ensures Collected(scope, r).observed == scope.cases
    ensures r.summary == Is(Totals(Read(scope, r).verdicts, scope.cases))
  {
    var s := Collected(scope, r);
    assert FinalProblems(scope, r, s) == [];
    KeyProblemsMeaning(scope.cases - s.observed, true);
    KeyProblemsMeaning(s.observed - scope.cases, false);
    assert s.observed == scope.cases;
  }

  lemma KeyProblemsMeaning(keys: set<CaseKey>, required: bool)
    ensures KeyProblems(SortedKeys(keys), required) == [] <==> keys == {}
  {
    if keys != {} {
      var k :| k in keys;
      assert k in SortedKeys(keys);
    } else {
      assert forall k :: k !in SortedKeys(keys);
    }
  }

  /**
   A baseline is written exactly for error-free reports, reads back error-free with the same verdicts, and is
   its own baseline.
   */
  lemma CompactIsLossless(scope: Scope, r: Report)
    ensures Compact(scope, r).Written? <==> Read(scope, r).problems == []
    ensures Compact(scope, r).Written? ==>
            && Read(scope, Compact(scope, r).report) == Reading([], Read(scope, r).verdicts)
            && Compact(scope, Compact(scope, r).report) == Compact(scope, r)
  {
    if Read(scope, r).problems == [] {
      var v, c := Read(scope, r).verdicts, Compact(scope, r).report;
      ReadingsAreGood(scope, r);
      CleanReading(scope, r);
      BaselineReadsBack(scope, r.summary, v);
      KeyProblemsMeaning(scope.cases - scope.cases, true);
      assert FinalProblems(scope, c, Progress([], scope.cases, v)) == [];
    }
  }

  // ---------------------------------------------------------------- the gate

  datatype GateResult = GateResult(success: bool, baselineErrors: seq<Problem>, candidateErrors: seq<Problem>,
                                   known: seq<Identity>, newFailures: seq<Identity>,
                                   missing: seq<Identity>, fixed: seq<Identity>)

  function NewFailures(b: Verdicts, c: Verdicts): set<Identity> {
    set i | i in c && !c[i] && !(i in b && !b[i])
  }

  function KnownFailures(b: Verdicts, c: Verdicts): set<Identity> {
    set i | i in c && !c[i] && i in b && !b[i]
  }

  function MissingChecks(b: Verdicts, c: Verdicts): set<Identity> {
    b.Keys - c.Keys
  }

  function FixedChecks(b: Verdicts, c: Verdicts): set<Identity> {
    set i | i in b && !b[i] && i in c && c[i]
  }

  function GateOf(b: Reading, c: Reading): GateResult {
    var newFailures, missing := NewFailures(b.verdicts, c.verdicts), MissingChecks(b.verdicts, c.verdicts);
    GateResult(b.problems == [] && c.problems == [] && newFailures == {} && missing == {}, b.problems, c.problems,
               Sorted(KnownFailures(b.verdicts, c.verdicts)), Sorted(newFailures), Sorted(missing),
               Sorted(FixedChecks(b.verdicts, c.verdicts)))
  }

  /** `_evaluate_review_regression_gate`. */
  function Gate(scope: Scope, candidate: Report, baseline: Report): GateResult {
    GateOf(Read(scope, baseline), Read(scope, candidate))
  }

  lemma PrefixStep(order: seq<Identity>, k: nat, wanted: set<Identity>)
    requires Ascending(order, IdentityLe) && k < |order|
    ensures Sorted(Visited(order, k + 1, wanted))
         == Sorted(Visited(order, k, wanted)) + if order[k] in wanted then [order[k]] else []
  {
    OrdersAreTotal();
    WalkStep(order, k, wanted, IdentityLe);
  }

  method WalkCandidate(b: Verdicts, c: Verdicts) returns (known: seq<Identity>, newFailures: seq<Identity>)
    ensures known == Sorted(KnownFailures(b, c)) && newFailures == Sorted(NewFailures(b, c))
  {
    var order := Sorted(c.Keys);
    known, newFailures := [], [];
    ghost var kf, nf := KnownFailures(b, c), NewFailures(b, c);
    for k := 0 to |order|
      invariant known == Sorted(Visited(order, k, kf)) && newFailures == Sorted(Visited(order, k, nf))
    {
      var i := order[k];
      assert i in c.Keys;
      PrefixStep(order, k, kf);
      PrefixStep(order, k, nf);
      if !c[i] {
        if i in b && !b[i] {
          known := known + [i];
        } else {
          newFailures := newFailures + [i];
        }
      }
    }
    WholeWalk(order, kf);
    WholeWalk(order, nf);
  }

  method WalkBaseline(b: Verdicts, c: Verdicts) returns (missing: seq<Identity>, fixed: seq<Identity>)
    ensures missing == Sorted(MissingChecks(b, c)) && fixed == Sorted(FixedChecks(b, c))
  {
    var order := Sorted(b.Keys);
    missing, fixed := [], [];
    ghost var ms, fx := MissingChecks(b, c), FixedChecks(b, c);
    for k := 0 to |order|
      invariant missing == Sorted(Visited(order, k, ms)) && fixed == Sorted(Visited(order, k, fx))
    {
      var i := order[k];
      assert i in b.Keys;
      PrefixStep(order, k, ms);
      PrefixStep(order, k, fx);
      if i !in c {
        missing := missing + [i];
      } else if !b[i] && c[i] {
        fixed := fixed + [i];
      }
    }
    WholeWalk(order, ms);
    WholeWalk(order, fx);
  }

  method EvaluateReviewGate(scope: Scope, candidate: Report, baseline: Report) returns (result: GateResult)
    ensures result == Gate(scope, candidate, baseline)
  {
    var b := RequiredReviewChecks(scope, baseline);
    var c := RequiredReviewChecks(scope, candidate);
    var known, newFailures := WalkCandidate(b.verdicts, c.verdicts);
    var missing, fixed := WalkBaseline(b.verdicts, c.verdicts);
    NothingListed(NewFailures(b.verdicts, c.verdicts));
    NothingListed(MissingChecks(b.verdicts, c.verdicts));
    result := GateResult(b.problems == [] && c.problems == [] && newFailures == [] && missing == [],
                         b.problems, c.problems, known, newFailures, missing, fixed);
  }

  lemma NothingListed(s: set<Identity>)
    ensures Sorted(s) == [] <==> s == {}
  {
    OrdersAreTotal();
    EmptyListing(s, IdentityLe);
  }

  /** No check disappeared and none that passed, or was unknown, now fails. */
  ghost predicate Preserves(b: Verdicts, c: Verdicts) {
    && (forall i :: i in b ==> i in c)
    && (forall i :: i in c && !c[i] ==> i in b && !b[i])
  }

  lemma GatePasses(scope: Scope, candidate: Report, baseline: Report)
    ensures Gate(scope, candidate, baseline).success <==>
            && Read(scope, baseline).problems == [] && Read(scope, candidate).problems == []
            && Preserves(Read(scope, baseline).verdicts, Read(scope, candidate).verdicts)
  {
    PreservesMeansNoLists(Read(scope, baseline).verdicts, Read(scope, candidate).verdicts);
  }

  lemma PreservesMeansNoLists(b: Verdicts, c: Verdicts)
    ensures Preserves(b, c) <==> NewFailures(b, c) == {} && MissingChecks(b, c) == {}
  {
    if NewFailures(b, c) == {} && MissingChecks(b, c) == {} {
      forall i
        ensures i in b ==> i in c
        ensures i in c && !c[i] ==> i in b && !b[i]
      {
        assert i !in NewFailures(b, c) && i !in MissingChecks(b, c);
      }
    }
  }

  lemma GateReflexive(scope: Scope, r: Report)
    ensures Gate(scope, r, r).success <==> Read(scope, r).problems == []
  {
    GatePasses(scope, r, r);
  }

  lemma GateTransitive(scope: Scope, a: Report, b: Report, c: Report)
    requires Gate(scope, b, a).success && Gate(scope, c, b).success
    ensures Gate(scope, c, a).success
  {
    GatePasses(scope, b, a);
    GatePasses(scope, c, b);
    GatePasses(scope, c, a);
  }

  /** Gating against a stored baseline is gating against the report it came from. */
  lemma CompactionRefines(scope: Scope, baseline: Report, candidate: Report)
    requires Compact(scope, baseline).Written?
    ensures Gate(scope, candidate, Compact(scope, baseline).report) == Gate(scope, candidate, baseline)
  {
    CompactIsLossless(scope, baseline);
  }

  /** A check that passed in the baseline passes in any candidate the gate lets through. */
  lemma PassingStaysPassing(scope: Scope, candidate: Report, baseline: Report, i: Identity)
    requires Gate(scope, candidate, baseline).success
    requires i in Read(scope, baseline).verdicts && Read(scope, baseline).verdicts[i]
    ensures i in Read(scope, candidate).verdicts && Read(scope, candidate).verdicts[i]
  {
    GatePasses(scope, candidate, baseline);
  }

  /**
   Every failing candidate check is new or known, never both; every baseline check is missing, fixed, or judged
   as before.
   */
  lemma GateAccounts(b: Reading, c: Reading, i: Identity)
    ensures var g := GateOf(b, c);
            && (i in c.verdicts && !c.verdicts[i] <==> i in g.newFailures || i in g.known)
            && !(i in g.newFailures && i in g.known)
            && (i in g.known ==> i in b.verdicts && !b.verdicts[i])
            && (i in b.verdicts && i !in g.missing ==>
                  i in c.verdicts && (i in g.fixed || i in g.newFailures || b.verdicts[i] == c.verdicts[i]))
            && (i in g.missing <==> i in b.verdicts && i !in c.verdicts)
            && (i in g.fixed ==> i !in g.missing && !b.verdicts[i] && c.verdicts[i])
  {
  }
}
