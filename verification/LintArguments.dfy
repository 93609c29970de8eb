/** Argument handling of the lint wrapper: parsing a command line and completing it with the wrapper's defaults. */
module LintArguments {
  import opened Wrappers

  /** The properties of a command line the wrapper records. */
  datatype Flag = ManifestPath | PackageSelection | LibrarySelection | NoDeps | Fix | TargetSelection

  datatype Parsed = Parsed(lint: seq<string>, cargo: seq<string>, flags: set<Flag>)

  /** What a lint argument in flag position means: the next argument is its value, or it decides alone. */
  datatype Token = Takes(flag: Flag) | Sets(flag: Flag) | Other

  const SEPARATOR := "--"
  const MANIFEST_PATH := "--manifest-path"
  const WORKSPACE := "--workspace"
  const NO_DEPS := "--no-deps"
  const ALL_TARGETS := "--all-targets"

  function Classify(arg: string): Token {
    if arg == MANIFEST_PATH then Takes(ManifestPath)
    else if "--manifest-path=" <= arg then Sets(ManifestPath)
    else if arg == "-p" || arg == "--package" then Takes(PackageSelection)
    else if "--package=" <= arg then Sets(PackageSelection)
    else if arg == "--fix" then Sets(Fix)
    else if arg == WORKSPACE then Sets(PackageSelection)
    else if arg == NO_DEPS then Sets(NoDeps)
    else if arg == "--lib" || arg == "--lib-path" then Takes(LibrarySelection)
    else if "--lib=" <= arg || "--lib-path=" <= arg then Sets(LibrarySelection)
    else Other
  }

  predicate SelectsTarget(arg: string) {
    || arg == ALL_TARGETS || arg == "--lib" || arg == "--bins" || arg == "--tests"
    || arg == "--examples" || arg == "--benches" || arg == "--doc"
    || arg == "--bin" || arg == "--test" || arg == "--example" || arg == "--bench"
    || "--bin=" <= arg || "--test=" <= arg || "--example=" <= arg || "--bench=" <= arg
  }

  // ------------------------------------------------------------------
  // Parsing

  /** The flags found so far and the flag still waiting for its value. */
  datatype Scanner = Scanner(flags: set<Flag>, waiting: Option<Flag>)

  function ScanArg(s: Scanner, arg: string): Scanner {
    if s.waiting.Some? then Scanner(s.flags + {s.waiting.value}, None)
    else match Classify(arg)
      case Takes(f) => Scanner(s.flags, Some(f))
      case Sets(f) => Scanner(s.flags + {f}, None)
      case Other => s
  }

  function Scan(s: Scanner, lint: seq<string>): Scanner {
    if lint == [] then s else ScanArg(Scan(s, lint[..|lint| - 1]), lint[|lint| - 1])
  }

  /** The position of the first separator, or the end. */
  function Cut(argv: seq<string>): (k: nat)
    ensures k <= |argv| && SEPARATOR !in argv[..k] && (k < |argv| ==> argv[k] == SEPARATOR)
  {
    if argv == [] || argv[0] == SEPARATOR then 0 else 1 + Cut(argv[1..])
  }

  function LintPart(argv: seq<string>): seq<string> {
    argv[..Cut(argv)]
  }

  function CargoPart(argv: seq<string>): seq<string> {
    if Cut(argv) < |argv| then argv[Cut(argv) + 1..] else []
  }

  ghost predicate AnyTarget(cargo: seq<string>) {
    exists i :: 0 <= i < |cargo| && SelectsTarget(cargo[i])
  }

  ghost function TargetFlag(cargo: seq<string>): set<Flag> {
    if AnyTarget(cargo) then {TargetSelection} else {}
  }

  ghost function Parse(argv: seq<string>): Parsed {
    Parsed(LintPart(argv), CargoPart(argv), Scan(Scanner({}, None), LintPart(argv)).flags + TargetFlag(CargoPart(argv)))
  }

  lemma {:induction false} CutAt(argv: seq<string>, k: nat)
    requires k <= |argv| && SEPARATOR !in argv[..k] && (k < |argv| ==> argv[k] == SEPARATOR)
    ensures Cut(argv) == k
  {
    if k > 0 {
      assert argv[0] == argv[..k][0];
      assert argv[1..][..k - 1] == argv[..k][1..];
      CutAt(argv[1..], k - 1);
    }
  }

  lemma AnyTargetStep(cargo: seq<string>, arg: string)
    ensures AnyTarget(cargo + [arg]) <==> AnyTarget(cargo) || SelectsTarget(arg)
  {
    var c := cargo + [arg];
    assert c[|cargo|] == arg && forall i :: 0 <= i < |cargo| ==> c[i] == cargo[i];
  }

  lemma Assembled(argv: seq<string>, p: Parsed)
    requires |p.lint| <= |argv| && p.lint == argv[..|p.lint|] && SEPARATOR !in p.lint
    requires if |p.lint| < |argv| then argv[|p.lint|] == SEPARATOR && p.cargo == argv[|p.lint| + 1..] else p.cargo == []
    requires p.flags - {TargetSelection} == Scan(Scanner({}, None), p.lint).flags
    requires TargetSelection in p.flags <==> AnyTarget(p.cargo)
    ensures p == Parse(argv)
  {
    CutAt(argv, |p.lint|);
    assert p.flags == (p.flags - {TargetSelection}) + TargetFlag(p.cargo);
  }

  method ParseWrapperArgs(argv: seq<string>) returns (p: Parsed)
    ensures p == Parse(argv)
  {
    var lint, cargo: seq<string> := [], [];
    var flags: set<Flag> := {};
    var afterSeparator := false;
    var expected: Option<Flag> := None;
    for k := 0 to |argv|
      invariant |lint| <= k && lint == argv[..|lint|]
      invariant afterSeparator ==> |lint| < k && argv[|lint|] == SEPARATOR && cargo == argv[|lint| + 1..k]
      invariant !afterSeparator ==> |lint| == k && cargo == []
      invariant SEPARATOR !in lint
      invariant Scanner(flags - {TargetSelection}, expected) == Scan(Scanner({}, None), lint)
      invariant TargetSelection in flags <==> AnyTarget(cargo)
    {
      var arg := argv[k];
      if afterSeparator {
        AnyTargetStep(cargo, arg);
        cargo := cargo + [arg];
        if SelectsTarget(arg) {
          flags := flags + {TargetSelection};
        }
      } else if arg == SEPARATOR {
        afterSeparator := true;
      } else {
        ghost var before := lint;
        lint := lint + [arg];
        assert lint[..|lint| - 1] == before && lint == argv[..k + 1];
        ScanSetsNoTarget(Scanner({}, None), lint);
        if expected.Some? {
          flags := flags + {expected.value};
          expected := None;
        } else {
          var token := Classify(arg);
          match token
          case Takes(f) => expected := Some(f);
          case Sets(f) => flags := flags + {f};
          case Other =>
        }
      }
    }
    p := Parsed(lint, cargo, flags);
    assert lint == argv[..|lint|];
    assert |lint| < |argv| ==> cargo == argv[|lint| + 1..];
    Assembled(argv, p);
  }

  predicate NoTarget(s: Scanner) {
    TargetSelection !in s.flags && s.waiting != Some(TargetSelection)
  }

  lemma {:induction false} ScanSetsNoTarget(s: Scanner, lint: seq<string>)
    requires NoTarget(s)
    ensures NoTarget(Scan(s, lint))
  {
    if lint != [] {
      ScanSetsNoTarget(s, lint[..|lint| - 1]);
    }
  }

  // ------------------------------------------------------------------
  // Building

  /** What the wrapper puts before the user's lint arguments. */
  function Defaults(flags: set<Flag>, manifest: string): seq<string> {
    (if ManifestPath in flags then [] else [MANIFEST_PATH, manifest])
    + (if PackageSelection in flags || ManifestPath in flags then [] else [WORKSPACE])
    + (if NoDeps in flags then [] else [NO_DEPS])
  }

  /** The user's cargo arguments, with every target selected unless the user chose or fixes. */
  function CargoArgs(p: Parsed): seq<string> {
    p.cargo + (if Fix in p.flags || TargetSelection in p.flags then [] else [ALL_TARGETS])
  }

  function Separated(cargo: seq<string>): seq<string> {
    if cargo == [] then [] else [SEPARATOR] + cargo
  }

  function Build(p: Parsed, manifest: string): seq<string> {
    Defaults(p.flags, manifest) + p.lint + Separated(CargoArgs(p))
  }

  method BuildFinalArgs(p: Parsed, manifest: string) returns (final: seq<string>)
    ensures final == Build(p, manifest)
  {
    final := [];
    var cargo := p.cargo;
    if ManifestPath !in p.flags {
      final := final + [MANIFEST_PATH, manifest];
    }
    if PackageSelection !in p.flags && ManifestPath !in p.flags {
      final := final + [WORKSPACE];
    }
    if NoDeps !in p.flags {
      final := final + [NO_DEPS];
    }
    assert final == Defaults(p.flags, manifest);
    if Fix !in p.flags && TargetSelection !in p.flags {
      cargo := cargo + [ALL_TARGETS];
    }
    assert cargo == CargoArgs(p);
    final := final + p.lint;
    if cargo != [] {
      final := final + ([SEPARATOR] + cargo);
    }
  }

  // ------------------------------------------------------------------
  // Scanning in pieces

  lemma {:induction false} ScanJoins(s: Scanner, a: seq<string>, b: seq<string>)
    ensures Scan(s, a + b) == Scan(Scan(s, a), b)
  {
    if b == [] {
      assert a + b == a;
    } else {
      var n := |b| - 1;
      assert (a + b)[..|a + b| - 1] == a + b[..n];
      ScanJoins(s, a, b[..n]);
    }
  }

  /** Flags already found neither help nor hinder what is found next. */
  lemma {:induction false} ScanAdds(flags: set<Flag>, waiting: Option<Flag>, lint: seq<string>)
    ensures Scan(Scanner(flags, waiting), lint)
         == Scanner(flags + Scan(Scanner({}, waiting), lint).flags, Scan(Scanner({}, waiting), lint).waiting)
  {
    if lint == [] {
      assert flags + {} == flags;
    } else {
      ScanAdds(flags, waiting, lint[..|lint| - 1]);
    }
  }

  lemma WrapperTokens()
    ensures Classify(MANIFEST_PATH) == Takes(ManifestPath)
    ensures Classify(WORKSPACE) == Sets(PackageSelection)
    ensures Classify(NO_DEPS) == Sets(NoDeps)
    ensures SelectsTarget(ALL_TARGETS)
  {
    assert WORKSPACE[2] == 'w' && NO_DEPS[2] == 'n';
  }

  lemma ScanOne(s: Scanner, arg: string)
    ensures Scan(s, [arg]) == ScanArg(s, arg)
  {
    assert [arg][..0] == [];
  }

  lemma ScanTwo(s: Scanner, a: string, b: string)
    ensures Scan(s, [a, b]) == ScanArg(ScanArg(s, a), b)
  {
    ScanOne(s, a);
    assert [a, b][..1] == [a];
  }

  /** The flags the wrapper's own arguments add. */
  function DefaultFlags(flags: set<Flag>): set<Flag> {
    (if ManifestPath in flags then {} else {ManifestPath})
    + (if PackageSelection in flags || ManifestPath in flags then {} else {PackageSelection})
    + (if NoDeps in flags then {} else {NoDeps})
  }

  lemma ScanDefaults(flags: set<Flag>, manifest: string)
    ensures Scan(Scanner({}, None), Defaults(flags, manifest)) == Scanner(DefaultFlags(flags), None)
  {
    WrapperTokens();
    var a := if ManifestPath in flags then [] else [MANIFEST_PATH, manifest];
    var b := if PackageSelection in flags || ManifestPath in flags then [] else [WORKSPACE];
    var c := if NoDeps in flags then [] else [NO_DEPS];
    var s := Scanner({}, None);
    ScanJoins(s, a + b, c);
    ScanJoins(s, a, b);
    ScanTwo(s, MANIFEST_PATH, manifest);
    ScanOne(Scan(s, a), WORKSPACE);
    ScanOne(Scan(s, a + b), NO_DEPS);
  }

  // ------------------------------------------------------------------
  // Parsing what was built

  predicate Safe(p: Parsed, manifest: string) {
    manifest != SEPARATOR || ManifestPath in p.flags
  }

  lemma BuiltSplit(p: Parsed, manifest: string)
    requires SEPARATOR !in p.lint && Safe(p, manifest)
    ensures LintPart(Build(p, manifest)) == Defaults(p.flags, manifest) + p.lint
    ensures CargoPart(Build(p, manifest)) == CargoArgs(p)
  {
    DefaultsDoNotSeparate(p, manifest);
    SplitBack(Defaults(p.flags, manifest) + p.lint, CargoArgs(p));
  }

  lemma DefaultsDoNotSeparate(p: Parsed, manifest: string)
    requires Safe(p, manifest)
    ensures SEPARATOR !in Defaults(p.flags, manifest)
  {
    assert |SEPARATOR| == 2 && |MANIFEST_PATH| > 2 && |WORKSPACE| > 2 && |NO_DEPS| > 2;
  }

  lemma SplitBack(front: seq<string>, cargo: seq<string>)
    requires SEPARATOR !in front
    ensures LintPart(front + Separated(cargo)) == front && CargoPart(front + Separated(cargo)) == cargo
  {
    var final := front + Separated(cargo);
    assert final[..|front|] == front;
    CutAt(final, |front|);
    assert cargo != [] ==> final[|front| + 1..] == cargo;
  }

  lemma BuiltTargets(p: Parsed)
    requires TargetSelection in p.flags <==> AnyTarget(p.cargo)
    ensures AnyTarget(CargoArgs(p)) <==> AnyTarget(p.cargo) || Fix !in p.flags
  {
    WrapperTokens();
    var c := CargoArgs(p);
    assert forall i :: 0 <= i < |p.cargo| ==> c[i] == p.cargo[i];
    if Fix !in p.flags && TargetSelection !in p.flags {
      assert c[|p.cargo|] == ALL_TARGETS;
    }
  }

  /**
   Parsing the built arguments gives the user's arguments back in order, with the defaults in front and the
   flags complete.
   */
  lemma ParseBuilt(argv: seq<string>, manifest: string)
    requires Safe(Parse(argv), manifest)
    ensures var p, q := Parse(argv), Parse(Build(Parse(argv), manifest));
            && q.lint == Defaults(p.flags, manifest) + p.lint
            && q.cargo == CargoArgs(p)
            && q.flags == p.flags + DefaultFlags(p.flags) + (if Fix in p.flags then {} else {TargetSelection})
  {
    var p := Parse(argv);
    var s := Scanner({}, None);
    BuiltSplit(p, manifest);
    ScanJoins(s, Defaults(p.flags, manifest), p.lint);
    ScanDefaults(p.flags, manifest);
    ScanAdds(DefaultFlags(p.flags), None, p.lint);
    ScanSetsNoTarget(s, p.lint);
    BuiltTargets(p);
  }

  lemma CompleteAddsNothing(q: Parsed, manifest: string)
    requires {ManifestPath, NoDeps} <= q.flags && (Fix in q.flags || TargetSelection in q.flags)
    ensures Build(q, manifest) == q.lint + Separated(q.cargo)
  {
    assert CargoArgs(q) == q.cargo;
    assert Defaults(q.flags, manifest) == [];
  }

  lemma BuildGrows(q: Parsed, manifest: string)
    ensures |Build(q, manifest)| >= |Defaults(q.flags, manifest)| + |q.lint| + |q.cargo|
  {
  }

  /** A manifest path that is itself the separator is parsed as one. */
  lemma SeparatorAsManifest(p: Parsed)
    requires ManifestPath !in p.flags
    ensures var q := Parse(Build(p, SEPARATOR));
            q.lint == [MANIFEST_PATH] && |q.cargo| == |Build(p, SEPARATOR)| - 2 && q.flags <= {TargetSelection}
  {
    WrapperTokens();
    var final := Build(p, SEPARATOR);
    assert final[..2] == [MANIFEST_PATH, SEPARATOR];
    assert |MANIFEST_PATH| != |SEPARATOR|;
    assert final[..1] == [MANIFEST_PATH] && final[1] == SEPARATOR;
    CutAt(final, 1);
    ScanOne(Scanner({}, None), MANIFEST_PATH);
  }

  /** Rebuilding changes nothing exactly when the manifest path is not the separator or was already given. */
  lemma RebuildIsIdempotent(argv: seq<string>, manifest: string, other: string)
    ensures var final := Build(Parse(argv), manifest);
            Build(Parse(final), other) == final <==> manifest != SEPARATOR || ManifestPath in Parse(argv).flags
  {
    var p := Parse(argv);
    var final := Build(p, manifest);
    if Safe(p, manifest) {
      ParseBuilt(argv, manifest);
      CompleteAddsNothing(Parse(final), other);
    } else {
      SeparatorAsManifest(p);
      BuildGrows(Parse(final), other);
    }
  }

  // ------------------------------------------------------------------
  // What the flags mean

  /** The argument is not the value of the one before it. */
  predicate InFlagPosition(lint: seq<string>, i: nat)
    requires i < |lint|
  {
    i == 0 || !InFlagPosition(lint, i - 1) || !Classify(lint[i - 1]).Takes?
  }

  /** The argument decides the flag: as a flag that needs no value, or as the value of one that does. */
  predicate Decides(lint: seq<string>, i: nat, f: Flag)
    requires i < |lint|
  {
    || (InFlagPosition(lint, i) && Classify(lint[i]) == Sets(f))
    || (i > 0 && InFlagPosition(lint, i - 1) && Classify(lint[i - 1]) == Takes(f))
  }

  ghost predicate Decided(lint: seq<string>, f: Flag) {
    exists i :: 0 <= i < |lint| && Decides(lint, i, f)
  }

  lemma {:induction false} PositionsArePrefixed(lint: seq<string>, n: nat, i: nat)
    requires i < n <= |lint|
    ensures InFlagPosition(lint[..n], i) == InFlagPosition(lint, i)
  {
    if i > 0 {
      PositionsArePrefixed(lint, n, i - 1);
    }
  }

  lemma DecidesIsPrefixed(lint: seq<string>, n: nat, i: nat, f: Flag)
    requires i < n <= |lint|
    ensures Decides(lint[..n], i, f) == Decides(lint, i, f)
  {
    PositionsArePrefixed(lint, n, i);
    if i > 0 {
      PositionsArePrefixed(lint, n, i - 1);
    }
  }

  lemma DecidedStep(lint: seq<string>, f: Flag)
    requires lint != []
    ensures Decided(lint, f) <==> Decided(lint[..|lint| - 1], f) || Decides(lint, |lint| - 1, f)
  {
    var n := |lint| - 1;
    forall i | 0 <= i < n
      ensures Decides(lint[..n], i, f) == Decides(lint, i, f)
    {
      DecidesIsPrefixed(lint, n, i, f);
    }
  }

  /** The scanner waits exactly after an argument that takes a value. */
  lemma {:induction false} WaitingMeaning(lint: seq<string>)
    ensures Scan(Scanner({}, None), lint).waiting ==
            if lint != [] && InFlagPosition(lint, |lint| - 1) && Classify(lint[|lint| - 1]).Takes?
            then Some(Classify(lint[|lint| - 1]).flag) else None
  {
    if lint != [] {
      var n := |lint| - 1;
      WaitingMeaning(lint[..n]);
      if n > 0 {
        PositionsArePrefixed(lint, n, n - 1);
        assert lint[..n][n - 1] == lint[n - 1];
      }
    }
  }

  lemma {:induction false} ScanMeaning(lint: seq<string>, f: Flag)
    ensures f in Scan(Scanner({}, None), lint).flags <==> Decided(lint, f)
  {
    if lint != [] {
      var n := |lint| - 1;
      ScanMeaning(lint[..n], f);
      DecidedStep(lint, f);
      WaitingMeaning(lint[..n]);
      if n > 0 {
        PositionsArePrefixed(lint, n, n - 1);
        assert lint[..n][n - 1] == lint[n - 1];
      }
    }
  }

  /**
   A parsed command line is the command line: its parts around the first separator, and each flag decided by
   some argument.
   */
  lemma ParseMeaning(argv: seq<string>)
    ensures var p := Parse(argv);
            && SEPARATOR !in p.lint
            && (argv == p.lint + [SEPARATOR] + p.cargo || (argv == p.lint && p.cargo == []))
            && (forall f :: f != TargetSelection ==> (f in p.flags <==> Decided(p.lint, f)))
            && (TargetSelection in p.flags <==> AnyTarget(p.cargo))
  {
    var p := Parse(argv);
    var k := Cut(argv);
    assert k < |argv| ==> argv == argv[..k] + [SEPARATOR] + argv[k + 1..];
    forall f
      ensures f in Scan(Scanner({}, None), p.lint).flags <==> Decided(p.lint, f)
    {
      ScanMeaning(p.lint, f);
    }
    ScanSetsNoTarget(Scanner({}, None), p.lint);
  }
}
