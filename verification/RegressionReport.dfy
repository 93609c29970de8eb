/**
 Conformance reports and the validating reader that turns one into check
 identities. A report is untyped JSON, so every field the reader looks at is a
 `Raw` value. The reader accepts full reports and compact baselines.
 */
module RegressionReport {
  import opened DecimalDigits
  import opened JsonFields
  import opened Sorting
  import opened TextOrder

  datatype Mode = Shipping | Legacy | Modern
  datatype Transport = Stdio | OfficialHttp
  datatype Source = Official | Harness | Supplemental
  datatype Status = Pass | Fail | Skip

  /** The text of a transport field; `Unlisted` is any text naming neither transport. */
  datatype TransportText = Known(transport: Transport) | Unlisted(text: string)

  /** The pinned upstream suite: its source and its scenarios for each mode. */
  datatype Suite = Suite(repository: string, gitRef: string,
                         shipping: seq<string>, legacy: seq<string>, modern: seq<string>)
  {
    function Catalog(mode: Mode): seq<string> {
      match mode
      case Shipping => shipping
      case Legacy => legacy
      case Modern => modern
    }
  }

  datatype Identity = Identity(mode: Mode, transport: Transport, source: Source,
                               scenario: string, checkId: string)

  datatype CheckRecord = CheckRecord(name: Raw<string>, source: Raw<Source>, scenario: Raw<string>,
                                     checkId: Raw<string>, status: Raw<Status>, success: Raw<bool>)

  datatype CaseRecord = CaseRecord(mode: Raw<Mode>, transport: Raw<TransportText>,
                                   checks: Raw<seq<Raw<CheckRecord>>>)

  /** An identity as stored in a compact baseline. */
  datatype IdentityRecord = IdentityRecord(mode: Raw<Mode>, transport: Raw<TransportText>,
                                           source: Raw<Source>, scenario: Raw<string>, checkId: Raw<string>)

  datatype CompactChecks = CompactChecks(passing: Raw<seq<Raw<IdentityRecord>>>,
                                         failing: Raw<seq<Raw<IdentityRecord>>>)

  /** A scenario list holding anything but text is `Wrong`: it cannot equal a catalog. */
  datatype OfficialMetadata = OfficialMetadata(repository: Raw<string>, gitRef: Raw<string>,
                                               authenticationIncluded: Raw<bool>,
                                               scenarios: Raw<map<Mode, Raw<seq<string>>>>)

  datatype Report = Report(schemaVersion: Raw<int>, versionCheck: Raw<Raw<bool>>,
                           modernFeature: Raw<bool>, automaticAuth: Raw<bool>,
                           official: Raw<OfficialMetadata>, baselineKind: Raw<string>,
                           requiredModes: Raw<seq<Mode>>, transports: Raw<seq<TransportText>>,
                           checks: Raw<CompactChecks>, cases: Raw<seq<Raw<CaseRecord>>>)

  datatype Problem =
    | WrongSchema | NoVersionCheck | ModernFeatureOff
    | NoOfficialMetadata | OtherRepository | OtherRevision | AuthNotIncluded | NoScenarioCatalog
    | UnsupportedBaseline | WrongRequiredModes | WrongTransports | NoBaselineIdentities
    | NoBucket(bucket: Status) | MalformedIdentity(bucket: Status) | DuplicateIdentity(bucket: Status)
    | NoCases | MalformedCase | MalformedRequiredCase
    | DuplicateCase(text: TransportText, mode: Mode)
    | IncompleteCatalog(mode: Mode)
    | MissingCase(transport: Transport, mode: Mode) | NoChecks(transport: Transport, mode: Mode)
    | MalformedCheck(transport: Transport, mode: Mode)
    | UnobservedScenarios(mode: Mode, names: seq<string>)
    | UnexpectedScenarios(mode: Mode, names: seq<string>)

  type StatusMap = map<Identity, set<Status>>

  datatype Reading = Reading(problems: seq<Problem>, identities: StatusMap)

  const REPORT_SCHEMA_VERSION := 4
  const COMPACT_KIND := "mcp-conformance-regression-baseline-v1"
  const REQUIRED_MODES: seq<Mode> := [Shipping, Legacy, Modern]

  // ---------------------------------------------------------------- identity order

  function ModeRank(m: Mode): nat {
    match m case Shipping => 0 case Legacy => 1 case Modern => 2
  }

  // "official-http" sorts before "stdio".
  function TransportRank(t: Transport): nat {
    match t case OfficialHttp => 0 case Stdio => 1
  }

  // "harness" < "official" < "supplemental".
  function SourceRank(s: Source): nat {
    match s case Harness => 0 case Official => 1 case Supplemental => 2
  }

  predicate IdentityLe(a: Identity, b: Identity) {
    if a.mode != b.mode then ModeRank(a.mode) < ModeRank(b.mode)
    else if a.transport != b.transport then TransportRank(a.transport) < TransportRank(b.transport)
    else if a.source != b.source then SourceRank(a.source) < SourceRank(b.source)
    else if a.scenario != b.scenario then TextLe(a.scenario, b.scenario)
    else TextLe(a.checkId, b.checkId)
  }

  lemma IdentityOrderIsTotal()
    ensures TotalOrder(IdentityLe)
  {
    forall a, b, c
      ensures IdentityLe(a, a) && (IdentityLe(a, b) || IdentityLe(b, a))
      ensures IdentityLe(a, b) && IdentityLe(b, a) ==> a == b
      ensures IdentityLe(a, b) && IdentityLe(b, c) ==> IdentityLe(a, c)
    {
      TextLeLaws(a.scenario, b.scenario, c.scenario);
      TextLeLaws(a.checkId, b.checkId, c.checkId);
    }
  }

  function SortedIdentities(s: set<Identity>): (r: seq<Identity>)
    ensures forall i :: i in r <==> i in s
    ensures Ascending(r, IdentityLe)
  {
    IdentityOrderIsTotal();
    SortedSeq(s, IdentityLe)
  }

  // ---------------------------------------------------------------- stable check names

  /** Index of the last '#', or -1. */
  function LastHash(name: string): (k: int)
    ensures -1 <= k < |name|
    ensures k >= 0 ==> name[k] == '#'
    ensures forall i :: k < i < |name| ==> name[i] != '#'
  {
    if name == "" then -1
    else if name[|name| - 1] == '#' then |name| - 1
    else LastHash(name[..|name| - 1])
  }

  /** A check name without the arrival number the upstream runner appends to repeats. */
  function StableName(name: string): string {
    var k := LastHash(name);
    if k > 0 && IsDecimal(name[k + 1..]) then name[..k] else name
  }

  lemma NoHashInNumbers(number: string)
    requires IsDecimal(number)
    ensures '#' !in number
  {
    forall j | 0 <= j < |number| ensures number[j] != '#' { DigitsAreHigh(number[j]); }
  }

  /** Numbering a repeated check never changes its stable name. */
  lemma NumberedNamesAreStable(stem: string, number: string)
    requires stem != "" && IsDecimal(number)
    ensures StableName(stem + "#" + number) == stem
  {
    var name := stem + "#" + number;
    var k := LastHash(name);
    assert name[|stem|] == '#';
    NoHashInNumbers(number);
    assert forall j :: |stem| < j < |name| ==> name[j] == number[j - |stem| - 1];
    assert name[k + 1..] == number && name[..k] == stem;
  }

  // ---------------------------------------------------------------- single records

  predicate OptionalText(field: Raw<string>) {
    field.Missing? || (field.Is? && field.value != "")
  }

  /** The identity of a check, or nothing when its record is malformed. */
  function CheckIdentity(mode: Mode, transport: Transport, check: CheckRecord): Raw<Identity> {
    if !check.source.Is? || !check.name.Is? || check.name.value == ""
       || !OptionalText(check.scenario) || !OptionalText(check.checkId) then Wrong
    else Is(Identity(mode, transport, check.source.value,
                     if check.scenario.Is? then check.scenario.value else "",
                     if check.checkId.Is? then check.checkId.value else StableName(check.name.value)))
  }

  /** What one check record contributes: an identity with a status, or nothing. */
  function ReadCheck(mode: Mode, transport: Transport, raw: Raw<CheckRecord>): Raw<(Identity, Status)> {
    if !raw.Is? then Wrong else
      var identity := CheckIdentity(mode, transport, raw.value);
      var status := raw.value.status;
      var success := raw.value.success;
      if identity.Is? && status.Is? && success.Is? && success.value == (status.value != Fail)
      then Is((identity.value, status.value)) else Wrong
  }

  function ReadIdentityRecord(raw: Raw<IdentityRecord>): Raw<Identity> {
    if raw.Is? && raw.value.mode.Is? && raw.value.transport.Is? && raw.value.transport.value.Known?
       && raw.value.source.Is? && raw.value.scenario.Is? && raw.value.checkId.Is? && raw.value.checkId.value != ""
    then Is(Identity(raw.value.mode.value, raw.value.transport.value.transport, raw.value.source.value,
                     raw.value.scenario.value, raw.value.checkId.value))
    else Wrong
  }

  function AddStatus(m: StatusMap, i: Identity, st: Status): StatusMap {
    m[i := (if i in m then m[i] else {}) + {st}]
  }

  predicate Has(m: StatusMap, i: Identity, st: Status) {
    i in m && st in m[i]
  }

  // ---------------------------------------------------------------- header

  function HeaderProblems(suite: Suite, r: Report): seq<Problem> {
    (if r.schemaVersion != Is(REPORT_SCHEMA_VERSION) then [WrongSchema] else [])
    + (if r.versionCheck != Is(Is(true)) then [NoVersionCheck] else [])
    + (if r.modernFeature != Is(true) then [ModernFeatureOff] else [])
    + (if !r.official.Is? then [NoOfficialMetadata] else
         (if r.official.value.repository != Is(suite.repository) then [OtherRepository] else [])
         + (if r.official.value.gitRef != Is(suite.gitRef) then [OtherRevision] else [])
         + (if r.official.value.authenticationIncluded != Is(true) then [AuthNotIncluded] else [])
         + (if !r.official.value.scenarios.Is? then [NoScenarioCatalog] else []))
  }

  function Selected(r: Report): map<Mode, Raw<seq<string>>> {
    if r.official.Is? && r.official.value.scenarios.Is? then r.official.value.scenarios.value else map[]
  }

  function CatalogProblems(suite: Suite, r: Report, mode: Mode): seq<Problem> {
    if mode in Selected(r) && Selected(r)[mode] == Is(suite.Catalog(mode)) then [] else [IncompleteCatalog(mode)]
  }

  function TextSet(texts: seq<string>): set<string> {
    set t | t in texts
  }

  function ScenarioProblems(suite: Suite, mode: Mode, observed: set<string>): seq<Problem> {
    var expected := TextSet(suite.Catalog(mode));
    (if expected - observed != {} then [UnobservedScenarios(mode, SortedTexts(expected - observed))] else [])
    + (if observed - expected != {} then [UnexpectedScenarios(mode, SortedTexts(observed - expected))] else [])
  }

  // ---------------------------------------------------------------- compact baselines

  function BucketIds(records: seq<Raw<IdentityRecord>>): set<Identity> {
    set r | r in records && ReadIdentityRecord(r).Is? :: ReadIdentityRecord(r).value
  }

  function NewRecordProblems(seen: set<Identity>, record: Raw<IdentityRecord>, bucket: Status): seq<Problem> {
    var i := ReadIdentityRecord(record);
    if !i.Is? then [MalformedIdentity(bucket)]
    else if i.value in seen then [DuplicateIdentity(bucket)]
    else []
  }

  function BucketProblems(records: seq<Raw<IdentityRecord>>, bucket: Status): seq<Problem> {
    if records == [] then [] else
      BucketProblems(records[..|records| - 1], bucket)
      + NewRecordProblems(BucketIds(records[..|records| - 1]), records[|records| - 1], bucket)
  }

  function BucketReading(records: Raw<seq<Raw<IdentityRecord>>>, bucket: Status): (seq<Problem>, set<Identity>) {
    if records.Is? then (BucketProblems(records.value, bucket), BucketIds(records.value))
    else ([NoBucket(bucket)], {})
  }

  /** Every identity of `ids` recorded with one more status. */
  function AddBucket(m: StatusMap, ids: set<Identity>, bucket: Status): StatusMap {
    map i | i in m.Keys + ids :: (if i in m then m[i] else {}) + (if i in ids then {bucket} else {})
  }

  function BucketMap(passing: set<Identity>, failing: set<Identity>): StatusMap {
    AddBucket(AddBucket(map[], passing, Pass), failing, Fail)
  }

  function CompactObserved(ids: StatusMap, mode: Mode): set<string> {
    set i | i in ids && i.mode == mode && i.transport == OfficialHttp && i.source != Supplemental :: i.scenario
  }

  function CompactCaseProblems(ids: StatusMap, mode: Mode, transport: Transport): seq<Problem> {
    if exists i :: i in ids && i.mode == mode && i.transport == transport then [] else [MissingCase(transport, mode)]
  }

  function CompactModeProblems(suite: Suite, r: Report, ids: StatusMap, mode: Mode): seq<Problem> {
    CatalogProblems(suite, r, mode)
    + CompactCaseProblems(ids, mode, Stdio) + CompactCaseProblems(ids, mode, OfficialHttp)
    + ScenarioProblems(suite, mode, CompactObserved(ids, mode))
  }

  function CompactModesProblems(suite: Suite, r: Report, ids: StatusMap, modes: seq<Mode>): seq<Problem> {
    if modes == [] then []
    else CompactModesProblems(suite, r, ids, modes[..|modes| - 1])
         + CompactModeProblems(suite, r, ids, modes[|modes| - 1])
  }

  predicate BothTransports(ts: seq<TransportText>) {
    |ts| == 2 && (set t | t in ts) == {Known(Stdio), Known(OfficialHttp)}
  }

  function CompactHeaderProblems(r: Report): seq<Problem> {
    (if r.requiredModes != Is(REQUIRED_MODES) then [WrongRequiredModes] else [])
    + (if r.transports.Is? && BothTransports(r.transports.value) then [] else [WrongTransports])
  }

  function ReadCompact(suite: Suite, r: Report): Reading
    requires !r.baselineKind.Missing?
  {
    var header := HeaderProblems(suite, r);
    if r.baselineKind != Is(COMPACT_KIND) then Reading(header + [UnsupportedBaseline], map[])
    else if !r.checks.Is? then Reading(header + CompactHeaderProblems(r) + [NoBaselineIdentities], map[])
    else
      var passing := BucketReading(r.checks.value.passing, Pass);
      var failing := BucketReading(r.checks.value.failing, Fail);
      var ids := BucketMap(passing.1, failing.1);
      Reading(header + CompactHeaderProblems(r) + passing.0 + failing.0
              + CompactModesProblems(suite, r, ids, REQUIRED_MODES), ids)
  }

  // ---------------------------------------------------------------- full reports

  type CaseKey = (Mode, TransportText)

  function CaseKeyOf(raw: Raw<CaseRecord>): Raw<CaseKey> {
    if raw.Is? && raw.value.mode.Is? && raw.value.transport.Is?
    then Is((raw.value.mode.value, raw.value.transport.value)) else Wrong
  }

  /** The first case recorded for each mode and transport. */
  function CaseTable(cases: seq<Raw<CaseRecord>>): map<CaseKey, CaseRecord> {
    if cases == [] then map[] else
      var table := CaseTable(cases[..|cases| - 1]);
      var last := cases[|cases| - 1];
      if CaseKeyOf(last).Is? && CaseKeyOf(last).value !in table
      then table[CaseKeyOf(last).value := last.value] else table
  }

  function NewCaseProblems(table: map<CaseKey, CaseRecord>, c: Raw<CaseRecord>): seq<Problem> {
    if !c.Is? then [MalformedCase]
    else if !c.value.mode.Is? then []
    else if !c.value.transport.Is? then [MalformedRequiredCase]
    else if CaseKeyOf(c).value in table then [DuplicateCase(c.value.transport.value, c.value.mode.value)]
    else []
  }

  function CaseTableProblems(cases: seq<Raw<CaseRecord>>): seq<Problem> {
    if cases == [] then [] else
      CaseTableProblems(cases[..|cases| - 1]) + NewCaseProblems(CaseTable(cases[..|cases| - 1]), cases[|cases| - 1])
  }

  function AddChecks(ids: StatusMap, mode: Mode, transport: Transport, checks: seq<Raw<CheckRecord>>): StatusMap {
    if checks == [] then ids else
      var before := AddChecks(ids, mode, transport, checks[..|checks| - 1]);
      var last := ReadCheck(mode, transport, checks[|checks| - 1]);
      if last.Is? then AddStatus(before, last.value.0, last.value.1) else before
  }

  function MalformedChecks(mode: Mode, transport: Transport, checks: seq<Raw<CheckRecord>>): seq<Problem> {
    if checks == [] then [] else
      MalformedChecks(mode, transport, checks[..|checks| - 1])
      + (if ReadCheck(mode, transport, checks[|checks| - 1]).Is? then [] else [MalformedCheck(transport, mode)])
  }

  function ObservedScenarios(mode: Mode, checks: seq<Raw<CheckRecord>>): set<string> {
    set c | c in checks && ReadCheck(mode, OfficialHttp, c).Is?
            && ReadCheck(mode, OfficialHttp, c).value.0.source != Supplemental
      :: ReadCheck(mode, OfficialHttp, c).value.0.scenario
  }

  /** Reading one required case on top of the identities found so far. */
  function ReadCase(suite: Suite, table: map<CaseKey, CaseRecord>, mode: Mode, transport: Transport,
                    ids: StatusMap): Reading {
    var key := (mode, Known(transport));
    if key !in table then Reading([MissingCase(transport, mode)], ids)
    else if !table[key].checks.Is? || table[key].checks.value == [] then Reading([NoChecks(transport, mode)], ids)
    else
      var checks := table[key].checks.value;
      Reading(MalformedChecks(mode, transport, checks)
              + (if transport == OfficialHttp then ScenarioProblems(suite, mode, ObservedScenarios(mode, checks))
                 else []),
              AddChecks(ids, mode, transport, checks))
  }

  function ReadMode(suite: Suite, r: Report, table: map<CaseKey, CaseRecord>, mode: Mode, ids: StatusMap): Reading {
    var stdio := ReadCase(suite, table, mode, Stdio, ids);
    var http := ReadCase(suite, table, mode, OfficialHttp, stdio.identities);
    Reading(CatalogProblems(suite, r, mode) + stdio.problems + http.problems, http.identities)
  }

  function ReadModes(suite: Suite, r: Report, table: map<CaseKey, CaseRecord>, modes: seq<Mode>): Reading {
    if modes == [] then Reading([], map[]) else
      var before := ReadModes(suite, r, table, modes[..|modes| - 1]);
      var last := ReadMode(suite, r, table, modes[|modes| - 1], before.identities);
      Reading(before.problems + last.problems, last.identities)
  }

  function CaseList(r: Report): seq<Raw<CaseRecord>> {
    if r.cases.Is? then r.cases.value else []
  }

  function ReadFull(suite: Suite, r: Report): Reading
    requires r.baselineKind.Missing?
  {
    var modes := ReadModes(suite, r, CaseTable(CaseList(r)), REQUIRED_MODES);
    Reading(HeaderProblems(suite, r) + (if r.cases.Is? then [] else [NoCases]) + CaseTableProblems(CaseList(r))
            + modes.problems, modes.identities)
  }

  function Read(suite: Suite, r: Report): Reading {
    if r.baselineKind.Missing? then ReadFull(suite, r) else ReadCompact(suite, r)
  }
}
