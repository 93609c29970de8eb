/** The reviewer report producer: which cases a run visits, in which order, and the report made of them. */
module ReviewRun {
  import opened JsonFields
  import opened Sequences
  import opened ReviewReport

  const SHIPPING_VERSION := "2025-06-18"
  const LEGACY_VERSION := "2025-11-25"
  const MODERN_VERSION := "2026-07-28"
  const REVIEW_MODES: seq<string> := [SHIPPING_VERSION, LEGACY_VERSION, MODERN_VERSION]

  datatype Profile =
    | Review | RepeatedCursor | MismatchedId | NullId | CrComments | CommentFlood | CatalogMax | CatalogOverLimit

  datatype Wire = OverStdio | OverHttp

  /** One case of the matrix. */
  datatype Slot = Slot(mode: string, wire: Wire, profile: Profile)

  function ProfileText(p: Profile): string {
    match p
    case Review => "review-regressions"
    case RepeatedCursor => "repeated-cursor"
    case MismatchedId => "discovery-mismatched-id"
    case NullId => "discovery-null-id"
    case CrComments => "sse-cr-comments"
    case CommentFlood => "sse-comment-flood"
    case CatalogMax => "catalog-max"
    case CatalogOverLimit => "catalog-over-limit"
  }

  function WireText(w: Wire): string {
    match w case OverStdio => "stdio" case OverHttp => "http"
  }

  function TransportText(w: Wire, p: Profile): string {
    "review-" + WireText(w) + ":" + ProfileText(p)
  }

  function KeyOfSlot(s: Slot): CaseKey {
    (s.mode, TransportText(s.wire, s.profile))
  }

  const HTTP_PROFILES: seq<Profile> := [Review, RepeatedCursor, MismatchedId, NullId, CrComments, CommentFlood]
  const BOUNDARY_WIRES: seq<Wire> := [OverStdio, OverHttp]
  const BOUNDARY_PROFILES: seq<Profile> := [CatalogMax, CatalogOverLimit]

  /** `_required_review_cases`. */
  function RequiredSlots(): set<Slot> {
    (set m | m in REVIEW_MODES :: Slot(m, OverStdio, Review))
    + (set p | p in HTTP_PROFILES :: Slot(MODERN_VERSION, OverHttp, p))
    + (set m, w, p | m in REVIEW_MODES && w in BOUNDARY_WIRES && p in BOUNDARY_PROFILES :: Slot(m, w, p))
  }

  function RequiredCases(): set<CaseKey> {
    set s | s in RequiredSlots() :: KeyOfSlot(s)
  }

  function RequiredScope(): Scope {
    Scope(REVIEW_MODES, RequiredCases())
  }

  // ---------------------------------------------------------------- the run

  /** A recorded check: its name and whether it succeeded. */
  type Probe = (string, bool)

  function HttpSlots(mode: string): seq<Slot> {
    seq(|HTTP_PROFILES|, k requires 0 <= k < |HTTP_PROFILES| => Slot(mode, OverHttp, HTTP_PROFILES[k]))
  }

  function MainSlots(mode: string): seq<Slot> {
    [Slot(mode, OverStdio, Review)] + if mode == MODERN_VERSION then HttpSlots(mode) else []
  }

  function BoundarySlots(mode: string): seq<Slot> {
    [Slot(mode, OverStdio, CatalogMax), Slot(mode, OverStdio, CatalogOverLimit),
     Slot(mode, OverHttp, CatalogMax), Slot(mode, OverHttp, CatalogOverLimit)]
  }

  function Over(slots: string -> seq<Slot>, modes: seq<string>): seq<Slot> {
    if modes == [] then [] else Over(slots, modes[..|modes| - 1]) + slots(modes[|modes| - 1])
  }

  /** The cases of a run in the order they are visited. */
  function Slots(modes: seq<string>): seq<Slot> {
    Over(MainSlots, modes) + Over(BoundarySlots, modes)
  }

  function Failures(probes: seq<Probe>): nat {
    if probes == [] then 0 else Failures(probes[..|probes| - 1]) + if probes[|probes| - 1].1 then 0 else 1
  }

  predicate Succeeded(probes: seq<Probe>) {
    probes != [] && forall p :: p in probes ==> p.1
  }

  function CheckOf(p: Probe): Raw<Check> {
    Is(Check(Is(p.0), Is(p.1)))
  }

  function ChecksOf(probes: seq<Probe>): seq<Raw<Check>> {
    seq(|probes|, k requires 0 <= k < |probes| => CheckOf(probes[k]))
  }

  function CaseOfSlot(s: Slot, probes: seq<Probe>): Raw<Case> {
    Is(Case(Is(KeyOfSlot(s).0), Is(KeyOfSlot(s).1), Is(Succeeded(probes)), Is(ChecksOf(probes))))
  }

  /**
   What is recorded for the slots in turn; `outcomes(k)` is what the k-th one gave. This function and the
   loops below are generic in `record`, whose one instance is `CaseOfSlot`: the order of the cases is
   proved without looking into the records, which would only cost the proofs time.
   */
  function Recorded<T>(record: (Slot, seq<Probe>) -> T, slots: seq<Slot>, outcomes: nat -> seq<Probe>): (all: seq<T>)
    ensures |all| == |slots|
  {
    if slots == [] then [] else
      Recorded(record, slots[..|slots| - 1], outcomes) + [record(slots[|slots| - 1], outcomes(|slots| - 1))]
  }

  function RunCases(slots: seq<Slot>, outcomes: nat -> seq<Probe>): seq<Raw<Case>> {
    Recorded(CaseOfSlot, slots, outcomes)
  }

  function ChecksIn(outcomes: nat -> seq<Probe>, n: nat): nat {
    if n == 0 then 0 else ChecksIn(outcomes, n - 1) + |outcomes(n - 1)|
  }

  function FailuresIn(outcomes: nat -> seq<Probe>, n: nat): nat {
    if n == 0 then 0 else FailuresIn(outcomes, n - 1) + Failures(outcomes(n - 1))
  }

  function SuccessesIn(outcomes: nat -> seq<Probe>, n: nat): nat {
    if n == 0 then 0 else SuccessesIn(outcomes, n - 1) + if Succeeded(outcomes(n - 1)) then 1 else 0
  }

  function Assembled(modes: seq<string>, cases: seq<Raw<Case>>, total: int, failed: int, passed: int): Report {
    Report(Is(SCHEMA_VERSION), Is(REVIEWER), Missing, Missing, Is(modes), Missing, Missing, Is(cases),
           Is(Summary(Is(total - failed), Is(failed), Is(total), Is(passed), Is(|cases|))),
           Is(cases != [] && passed == |cases|))
  }

  function ReportOf(modes: seq<string>, slots: seq<Slot>, outcomes: nat -> seq<Probe>): Report {
    var n := |slots|;
    Assembled(modes, RunCases(slots, outcomes), ChecksIn(outcomes, n), FailuresIn(outcomes, n),
              SuccessesIn(outcomes, n))
  }

  function ProducedReport(modes: seq<string>, outcomes: nat -> seq<Probe>): Report {
    ReportOf(modes, Slots(modes), outcomes)
  }

  // ---------------------------------------------------------------- the loops

  lemma OneMore<T>(record: (Slot, seq<Probe>) -> T, done: seq<Slot>, s: Slot, outcomes: nat -> seq<Probe>)
    ensures Recorded(record, done + [s], outcomes) == Recorded(record, done, outcomes) + [record(s, outcomes(|done|))]
  {
    assert (done + [s])[..|done|] == done;
  }

  /** Runs consecutive cases; `done` is what was run before them. */
  method RunSlots<T>(record: (Slot, seq<Probe>) -> T, outcomes: nat -> seq<Probe>,
                     ghost done: seq<Slot>, cases: seq<T>, slots: seq<Slot>)
    returns (all: seq<T>)
    requires cases == Recorded(record, done, outcomes)
    ensures all == Recorded(record, done + slots, outcomes)
  {
    all := cases;
    NothingAfter(done);
    for k := 0 to |slots|
      invariant all == Recorded(record, done + slots[..k], outcomes)
    {
      ghost var now := done + slots[..k];
      OneMore(record, now, slots[k], outcomes);
      assert done + slots[..k + 1] == now + [slots[k]];
      all := all + [record(slots[k], outcomes(|all|))];
    }
    assert slots[..|slots|] == slots;
  }

  /** The main cases of one mode: the reviewer profile over stdio, and for the modern mode every HTTP profile. */
  method RunMain<T>(record: (Slot, seq<Probe>) -> T, outcomes: nat -> seq<Probe>,
                    ghost done: seq<Slot>, cases: seq<T>, mode: string)
    returns (all: seq<T>)
    requires cases == Recorded(record, done, outcomes)
    ensures all == Recorded(record, done + MainSlots(mode), outcomes)
  {
    var stdio := [Slot(mode, OverStdio, Review)];
    all := RunSlots(record, outcomes, done, cases, stdio);
    if mode == MODERN_VERSION {
      var profiles := HttpSlots(mode);
      all := RunSlots(record, outcomes, done + stdio, all, profiles);
      Associate(done, stdio, profiles);
    } else {
      NothingAfter(stdio);
    }
  }

  method RunAllMain<T>(record: (Slot, seq<Probe>) -> T, outcomes: nat -> seq<Probe>, modes: seq<string>)
    returns (cases: seq<T>)
    ensures cases == Recorded(record, Over(MainSlots, modes), outcomes)
  {
    cases := [];
    for k := 0 to |modes|
      invariant cases == Recorded(record, Over(MainSlots, modes[..k]), outcomes)
    {
      OverStep(MainSlots, modes, k);
      cases := RunMain(record, outcomes, Over(MainSlots, modes[..k]), cases, modes[k]);
    }
    assert modes[..|modes|] == modes;
  }

  method RunBoundaries<T>(record: (Slot, seq<Probe>) -> T, outcomes: nat -> seq<Probe>,
                          ghost done: seq<Slot>, cases: seq<T>, modes: seq<string>)
    returns (all: seq<T>)
    requires cases == Recorded(record, done, outcomes)
    ensures all == Recorded(record, done + Over(BoundarySlots, modes), outcomes)
  {
    all := cases;
    NothingAfter(done);
    for k := 0 to |modes|
      invariant all == Recorded(record, done + Over(BoundarySlots, modes[..k]), outcomes)
    {
      ghost var before := Over(BoundarySlots, modes[..k]);
      all := RunSlots(record, outcomes, done + before, all, BoundarySlots(modes[k]));
      Associate(done, before, BoundarySlots(modes[k]));
      OverStep(BoundarySlots, modes, k);
    }
    assert modes[..|modes|] == modes;
  }

  lemma OverStep(slots: string -> seq<Slot>, modes: seq<string>, k: nat)
    requires k < |modes|
    ensures Over(slots, modes[..k + 1]) == Over(slots, modes[..k]) + slots(modes[k])
  {
    assert modes[..k + 1][..k] == modes[..k];
  }

  /** `run_review_regressions`. */
  method RunReview(modes: seq<string>, outcomes: nat -> seq<Probe>) returns (report: Report)
    ensures report == ProducedReport(modes, outcomes)
  {
    var cases := RunAllMain(CaseOfSlot, outcomes, modes);
    cases := RunBoundaries(CaseOfSlot, outcomes, Over(MainSlots, modes), cases, modes);
    var total, failed, passed := CountChecks(outcomes, |cases|);
    report := Assembled(modes, cases, total, failed, passed);
  }

  method CountChecks(outcomes: nat -> seq<Probe>, n: nat) returns (total: nat, failed: nat, passed: nat)
    ensures total == ChecksIn(outcomes, n) && failed == FailuresIn(outcomes, n) && passed == SuccessesIn(outcomes, n)
  {
    total, failed, passed := 0, 0, 0;
    for k := 0 to n
      invariant total == ChecksIn(outcomes, k) && failed == FailuresIn(outcomes, k)
              && passed == SuccessesIn(outcomes, k)
    {
      total, failed := total + |outcomes(k)|, failed + Failures(outcomes(k));
      if Succeeded(outcomes(k)) {
        passed := passed + 1;
      }
    }
  }

  // ---------------------------------------------------------------- the matrix

  lemma ProfileTextInjective(a: Profile, b: Profile)
    ensures ProfileText(a) == ProfileText(b) ==> a == b
  {
    var s, t := ProfileText(a), ProfileText(b);
    assert s == t ==> |s| == |t| && s[0] == t[0];
  }

  lemma TransportTextInjective(w: Wire, p: Profile, x: Wire, q: Profile)
    ensures TransportText(w, p) == TransportText(x, q) ==> w == x && p == q
  {
    var s, t := TransportText(w, p), TransportText(x, q);
    assert s[7] == WireText(w)[0] && t[7] == WireText(x)[0];
    if s == t {
      assert w == x;
      var n := 8 + |WireText(w)|;
      assert s[n..] == ProfileText(p) && t[n..] == ProfileText(q);
      ProfileTextInjective(p, q);
    }
  }

  lemma KeyInjective(a: Slot, b: Slot)
    ensures KeyOfSlot(a) == KeyOfSlot(b) ==> a == b
  {
    TransportTextInjective(a.wire, a.profile, b.wire, b.profile);
  }

  ghost predicate OfMode(slots: string -> seq<Slot>, m: string) {
    NoRepeats(slots(m)) && forall s :: s in slots(m) ==> s.mode == m
  }

  lemma {:induction false} OverMeaning(slots: string -> seq<Slot>, modes: seq<string>)
    requires NoRepeats(modes) && forall m :: OfMode(slots, m)
    ensures NoRepeats(Over(slots, modes))
    ensures forall s :: s in Over(slots, modes) <==> s.mode in modes && s in slots(s.mode)
  {
    if modes != [] {
      var n := |modes| - 1;
      PrefixHasNoRepeats(modes);
      OverMeaning(slots, modes[..n]);
      assert OfMode(slots, modes[n]);
      NoRepeatsConcat(Over(slots, modes[..n]), slots(modes[n]));
    }
  }

  lemma MainOfMode(m: string)
    ensures OfMode(MainSlots, m)
  {
    var first, more := [Slot(m, OverStdio, Review)], HttpSlots(m);
    assert forall s :: s in more ==> s.mode == m && s.wire == OverHttp;
    assert NoRepeats(more) by {
      forall j, k | 0 <= j < k < |more| ensures more[j] != more[k] { assert HTTP_PROFILES[j] != HTTP_PROFILES[k]; }
    }
    NoRepeatsConcat(first, more);
  }

  lemma BoundaryOfMode(m: string)
    ensures OfMode(BoundarySlots, m)
  {
  }

  lemma ModesDiffer()
    ensures NoRepeats(REVIEW_MODES)
  {
    assert SHIPPING_VERSION[3] != MODERN_VERSION[3] && LEGACY_VERSION[3] != MODERN_VERSION[3];
    assert SHIPPING_VERSION[5] != LEGACY_VERSION[5];
  }

  lemma PartsDiffer(s: Slot)
    ensures !(s in MainSlots(s.mode) && s in BoundarySlots(s.mode))
  {
  }

  lemma SlotsMeaning()
    ensures NoRepeats(Slots(REVIEW_MODES))
    ensures forall s :: s in Slots(REVIEW_MODES) <==>
              s.mode in REVIEW_MODES && (s in MainSlots(s.mode) || s in BoundarySlots(s.mode))
  {
    ModesDiffer();
    forall m ensures OfMode(MainSlots, m) { MainOfMode(m); }
    forall m ensures OfMode(BoundarySlots, m) { BoundaryOfMode(m); }
    OverMeaning(MainSlots, REVIEW_MODES);
    OverMeaning(BoundarySlots, REVIEW_MODES);
    forall s | s in Over(MainSlots, REVIEW_MODES)
      ensures s !in Over(BoundarySlots, REVIEW_MODES)
    {
      PartsDiffer(s);
    }
    NoRepeatsConcat(Over(MainSlots, REVIEW_MODES), Over(BoundarySlots, REVIEW_MODES));
  }

  /** The required cases are those of the full matrix. */
  lemma RequiredIsVisited(s: Slot)
    ensures s in RequiredSlots() <==> s in Slots(REVIEW_MODES)
  {
    SlotsMeaning();
    HttpSlotsMeaning(s);
    assert s in BoundarySlots(s.mode) <==> s.profile in BOUNDARY_PROFILES;
    assert s.wire in BOUNDARY_WIRES;
    assert s in MainSlots(s.mode) <==>
           (s.wire == OverStdio && s.profile == Review) || (s.mode == MODERN_VERSION && s in HttpSlots(s.mode));
  }

  lemma HttpSlotsMeaning(s: Slot)
    ensures s in HttpSlots(s.mode) <==> s.wire == OverHttp && s.profile in HTTP_PROFILES
  {
    if s.wire == OverHttp && s.profile in HTTP_PROFILES {
      var k :| 0 <= k < |HTTP_PROFILES| && HTTP_PROFILES[k] == s.profile;
      assert HttpSlots(s.mode)[k] == s;
    }
  }
}
