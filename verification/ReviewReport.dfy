/** Reviewer regression reports and the validating reader with its recomputed totals. */
module ReviewReport {
  import opened JsonFields
  import opened Sequences
  import opened Sorting
  import opened TextOrder

  type CaseKey = (string, string)

  datatype Identity = Identity(mode: string, transport: string, checkId: string)

  datatype CaseRef = CaseRef(mode: Raw<string>, transport: Raw<string>)
  datatype CheckRef = CheckRef(mode: Raw<string>, transport: Raw<string>, checkId: Raw<string>)
  datatype Buckets = Buckets(passing: Raw<seq<Raw<CheckRef>>>, failing: Raw<seq<Raw<CheckRef>>>)
  datatype Check = Check(name: Raw<string>, success: Raw<bool>)
  datatype Case = Case(mode: Raw<string>, transport: Raw<string>, success: Raw<bool>, checks: Raw<seq<Raw<Check>>>)
  datatype Summary = Summary(passed: Raw<int>, failed: Raw<int>, total: Raw<int>, casesPassed: Raw<int>,
                             casesTotal: Raw<int>)

  datatype Report = Report(schemaVersion: Raw<int>, reviewer: Raw<string>, baselineKind: Raw<string>,
                           requiredModes: Raw<seq<string>>, modes: Raw<seq<string>>,
                           requiredCases: Raw<seq<Raw<CaseRef>>>, checks: Raw<Buckets>,
                           cases: Raw<seq<Raw<Case>>>, summary: Raw<Summary>, success: Raw<bool>)

  /** What every report must cover: the protocol modes and the production cases. */
  datatype Scope = Scope(modes: seq<string>, cases: set<CaseKey>)

  const SCHEMA_VERSION := 1
  const REVIEWER := "codex-mcp-regression-suite"
  const BASELINE_KIND := "mcp-review-regression-baseline-v1"
  const CHECK_PREFIX := "review/"

  datatype Problem =
    | WrongSchema | WrongReviewer | WrongModes | UnsupportedBaseline
    | NoRequiredCases | NoCheckIdentities | NoBucket(passing: bool) | NoCases
    | MalformedCase | UnexpectedCase | DuplicateCase | NoChecks(key: CaseKey)
    | MalformedCheck | DuplicateCheck | InconsistentCase(key: CaseKey)
    | MissingRequired(key: CaseKey) | UnexpectedObserved(key: CaseKey)
    | InconsistentTotals | InconsistentSuccess

  type Verdicts = map<Identity, bool>

  datatype Progress = Progress(problems: seq<Problem>, observed: set<CaseKey>, verdicts: Verdicts)

  datatype Reading = Reading(problems: seq<Problem>, verdicts: Verdicts)

  // ---------------------------------------------------------------- orders

  predicate IdentityLe(a: Identity, b: Identity) {
    if a.mode != b.mode then TextLe(a.mode, b.mode)
    else if a.transport != b.transport then TextLe(a.transport, b.transport)
    else TextLe(a.checkId, b.checkId)
  }

  predicate KeyLe(a: CaseKey, b: CaseKey) {
    if a.0 != b.0 then TextLe(a.0, b.0) else TextLe(a.1, b.1)
  }

  lemma OrdersAreTotal()
    ensures TotalOrder(IdentityLe) && TotalOrder(KeyLe)
  {
    forall a: Identity, b: Identity, c: Identity
      ensures IdentityLe(a, a) && (IdentityLe(a, b) || IdentityLe(b, a))
      ensures IdentityLe(a, b) && IdentityLe(b, a) ==> a == b
      ensures IdentityLe(a, b) && IdentityLe(b, c) ==> IdentityLe(a, c)
    {
      TextLeLaws(a.mode, b.mode, c.mode);
      TextLeLaws(a.transport, b.transport, c.transport);
      TextLeLaws(a.checkId, b.checkId, c.checkId);
    }
    forall a: CaseKey, b: CaseKey, c: CaseKey
      ensures KeyLe(a, a) && (KeyLe(a, b) || KeyLe(b, a))
      ensures KeyLe(a, b) && KeyLe(b, a) ==> a == b
      ensures KeyLe(a, b) && KeyLe(b, c) ==> KeyLe(a, c)
    {
      TextLeLaws(a.0, b.0, c.0);
      TextLeLaws(a.1, b.1, c.1);
    }
  }

  function Sorted(s: set<Identity>): (r: seq<Identity>)
    ensures forall i :: i in r <==> i in s
    ensures Ascending(r, IdentityLe) && NoRepeats(r)
  {
    OrdersAreTotal();
    SortedSeq(s, IdentityLe)
  }

  function SortedKeys(s: set<CaseKey>): (r: seq<CaseKey>)
    ensures forall k :: k in r <==> k in s
    ensures NoRepeats(r)
  {
    OrdersAreTotal();
    SortedSeq(s, KeyLe)
  }

  // ---------------------------------------------------------------- full reports

  function KeyOf(mode: Raw<string>, transport: Raw<string>): Raw<CaseKey> {
    if mode.Is? && transport.Is? then Is((mode.value, transport.value)) else Wrong
  }

  predicate CheckName(name: Raw<string>) {
    name.Is? && CHECK_PREFIX <= name.value
  }

  predicate ReadableCheck(raw: Raw<Check>) {
    raw.Is? && CheckName(raw.value.name) && raw.value.success.Is?
  }

  /** One check of a case: it must be named, have a verdict, and not repeat. */
  function AddCheck(s: Progress, key: CaseKey, raw: Raw<Check>): Progress {
    if !ReadableCheck(raw) then s.(problems := s.problems + [MalformedCheck])
    else if Identity(key.0, key.1, raw.value.name.value) in s.verdicts
      then s.(problems := s.problems + [DuplicateCheck])
    else s.(verdicts := s.verdicts[Identity(key.0, key.1, raw.value.name.value) := raw.value.success.value])
  }

  function AddChecks(s: Progress, key: CaseKey, checks: seq<Raw<Check>>): Progress {
    if checks == [] then s else AddCheck(AddChecks(s, key, checks[..|checks| - 1]), key, checks[|checks| - 1])
  }

  /** Whether every check that was taken on passed. */
  predicate CaseSuccess(s: Progress, key: CaseKey, checks: seq<Raw<Check>>) {
    if checks == [] then true else
      var before, last := checks[..|checks| - 1], checks[|checks| - 1];
      && CaseSuccess(s, key, before)
      && (ReadableCheck(last)
          && Identity(key.0, key.1, last.value.name.value) !in AddChecks(s, key, before).verdicts ==>
            last.value.success.value)
  }

  function AddCase(scope: Scope, s: Progress, raw: Raw<Case>): Progress {
    if !raw.Is? then s.(problems := s.problems + [MalformedCase]) else
      var key := KeyOf(raw.value.mode, raw.value.transport);
      if !key.Is? || key.value !in scope.cases then s.(problems := s.problems + [UnexpectedCase])
      else if key.value in s.observed then s.(problems := s.problems + [DuplicateCase])
      else
        var t := s.(observed := s.observed + {key.value});
        if !raw.value.checks.Is? || raw.value.checks.value == [] then t.(problems := t.problems + [NoChecks(key.value)])
        else
          var u := AddChecks(t, key.value, raw.value.checks.value);
          if raw.value.success == Is(CaseSuccess(t, key.value, raw.value.checks.value)) then u
          else u.(problems := u.problems + [InconsistentCase(key.value)])
  }

  function AddCases(scope: Scope, s: Progress, cases: seq<Raw<Case>>): Progress {
    if cases == [] then s else AddCase(scope, AddCases(scope, s, cases[..|cases| - 1]), cases[|cases| - 1])
  }

  // ---------------------------------------------------------------- compact baselines

  function AddRef(s: Progress, raw: Raw<CaseRef>): Progress {
    if !raw.Is? || !KeyOf(raw.value.mode, raw.value.transport).Is? then s.(problems := s.problems + [MalformedCase])
    else if KeyOf(raw.value.mode, raw.value.transport).value in s.observed
      then s.(problems := s.problems + [DuplicateCase])
    else s.(observed := s.observed + {KeyOf(raw.value.mode, raw.value.transport).value})
  }

  function AddRefs(s: Progress, refs: seq<Raw<CaseRef>>): Progress {
    if refs == [] then s else AddRef(AddRefs(s, refs[..|refs| - 1]), refs[|refs| - 1])
  }

  function RefIdentity(scope: Scope, raw: Raw<CheckRef>): Raw<Identity> {
    if raw.Is? && KeyOf(raw.value.mode, raw.value.transport).Is? && CheckName(raw.value.checkId)
       && KeyOf(raw.value.mode, raw.value.transport).value in scope.cases
    then Is(Identity(raw.value.mode.value, raw.value.transport.value, raw.value.checkId.value)) else Wrong
  }

  function AddVerdict(scope: Scope, s: Progress, raw: Raw<CheckRef>, success: bool): Progress {
    var id := RefIdentity(scope, raw);
    if !id.Is? then s.(problems := s.problems + [MalformedCheck])
    else if id.value in s.verdicts then s.(problems := s.problems + [DuplicateCheck])
    else s.(verdicts := s.verdicts[id.value := success])
  }

  function AddBucket(scope: Scope, s: Progress, refs: seq<Raw<CheckRef>>, success: bool): Progress {
    if refs == [] then s
    else AddVerdict(scope, AddBucket(scope, s, refs[..|refs| - 1], success), refs[|refs| - 1], success)
  }

  function AddOptionalBucket(scope: Scope, s: Progress, refs: Raw<seq<Raw<CheckRef>>>, success: bool): Progress {
    if refs.Is? then AddBucket(scope, s, refs.value, success) else s.(problems := s.problems + [NoBucket(success)])
  }

  // ---------------------------------------------------------------- totals

  function Passing(v: Verdicts): set<Identity> {
    set i | i in v && v[i]
  }

  function Failing(v: Verdicts): set<Identity> {
    set i | i in v && !v[i]
  }

  function CaseOf(i: Identity): CaseKey {
    (i.mode, i.transport)
  }

  /** Observed cases with checks, all of them passing. */
  function CasesPassed(v: Verdicts, observed: set<CaseKey>): set<CaseKey> {
    set c | c in observed && (exists i :: i in v && CaseOf(i) == c) && (forall i :: i in v && CaseOf(i) == c ==> v[i])
  }

  function Totals(v: Verdicts, observed: set<CaseKey>): Summary {
    Summary(Is(|Passing(v)|), Is(|v| - |Passing(v)|), Is(|v|), Is(|CasesPassed(v, observed)|), Is(|observed|))
  }

  function KeyProblems(keys: seq<CaseKey>, required: bool): seq<Problem> {
    seq(|keys|, k requires 0 <= k < |keys| =>
      if required then MissingRequired(keys[k]) else UnexpectedObserved(keys[k]))
  }

  /** The checks made after the cases and checks were collected. */
  function FinalProblems(scope: Scope, r: Report, s: Progress): seq<Problem> {
    KeyProblems(SortedKeys(scope.cases - s.observed), true)
    + KeyProblems(SortedKeys(s.observed - scope.cases), false)
    + (if r.summary == Is(Totals(s.verdicts, s.observed)) then [] else [InconsistentTotals])
    + (if r.baselineKind.Missing? && r.success != Is(s.observed != {} && |s.verdicts| == |Passing(s.verdicts)|)
       then [InconsistentSuccess] else [])
  }

  function HeaderProblems(scope: Scope, r: Report): seq<Problem> {
    (if r.schemaVersion == Is(SCHEMA_VERSION) then [] else [WrongSchema])
    + (if r.reviewer == Is(REVIEWER) then [] else [WrongReviewer])
    + (if (if r.baselineKind.Missing? then r.modes else r.requiredModes) == Is(scope.modes) then [] else [WrongModes])
  }

  function Collected(scope: Scope, r: Report): Progress {
    var start := Progress(HeaderProblems(scope, r), {}, map[]);
    if r.baselineKind.Missing? then
      if r.cases.Is? then AddCases(scope, start, r.cases.value) else start.(problems := start.problems + [NoCases])
    else
      var kind := if r.baselineKind == Is(BASELINE_KIND) then start
                  else start.(problems := start.problems + [UnsupportedBaseline]);
      var refs := if r.requiredCases.Is? then AddRefs(kind, r.requiredCases.value)
                  else kind.(problems := kind.problems + [NoRequiredCases]);
      var named := if r.checks.Is? then refs else refs.(problems := refs.problems + [NoCheckIdentities]);
      var buckets := if r.checks.Is? then r.checks.value else Buckets(Missing, Missing);
      AddOptionalBucket(scope, AddOptionalBucket(scope, named, buckets.passing, true), buckets.failing, false)
  }

  /** `_required_review_checks`. */
  function Read(scope: Scope, r: Report): Reading {
    var s := Collected(scope, r);
    Reading(s.problems + FinalProblems(scope, r, s), s.verdicts)
  }
}
