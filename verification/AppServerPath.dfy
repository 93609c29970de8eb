/** Paths under the rules of the app server's host: joining segments and splitting into components. */
module AppServerPath {
  import opened Wrappers
  import opened Sequences

  predicate IsAlphabetic(c: char) {
    'a' <= c <= 'z' || 'A' <= c <= 'Z'
  }

  predicate IsSeparator(windows: bool, c: char) {
    c == '/' || (windows && c == '\\')
  }

  predicate IsWindows(path: string) {
    || (|path| >= 3 && IsAlphabetic(path[0]) && path[1] == ':' && IsSeparator(true, path[2]))
    || (|path| >= 2 && path[0] == '\\' && path[1] == '\\')
    || (|path| >= 2 && path[0] == '/' && path[1] == '/')
  }

  predicate IsAbsolute(path: string) {
    (path != "" && path[0] == '/') || IsWindows(path)
  }

  function FromAbsolute(raw: string): Option<string> {
    if IsAbsolute(raw) then Some(raw) else None
  }

  /** The stretches between separators, empty ones included. */
  function Split(windows: bool, s: string): (parts: seq<string>)
    ensures parts != []
  {
    if s == "" then [""]
    else if IsSeparator(windows, s[0]) then [""] + Split(windows, s[1..])
    else
      var rest := Split(windows, s[1..]);
      [[s[0]] + rest[0]] + rest[1..]
  }

  function NonEmpty(parts: seq<string>): seq<string> {
    if parts == [] then [] else (if parts[0] == "" then [] else [parts[0]]) + NonEmpty(parts[1..])
  }

  function Components(path: string): seq<string> {
    NonEmpty(Split(IsWindows(path), path))
  }

  function TrimEnd(windows: bool, s: string): (t: string)
    ensures t <= s && (t != "" ==> !IsSeparator(windows, t[|t| - 1]))
    ensures forall i :: |t| <= i < |s| ==> IsSeparator(windows, s[i])
  {
    if s != "" && IsSeparator(windows, s[|s| - 1]) then TrimEnd(windows, s[..|s| - 1]) else s
  }

  function Join(path: string, segment: string): string {
    if IsWindows(path) then TrimEnd(true, path) + "\\" + segment else TrimEnd(false, path) + "/" + segment
  }

  function JoinAll(path: string, segments: seq<string>): string
    decreases |segments|
  {
    if segments == [] then path else JoinAll(Join(path, segments[0]), segments[1..])
  }

  predicate IsSegment(s: string) {
    s != "" && forall i :: 0 <= i < |s| ==> !IsSeparator(true, s[i])
  }

  /** A Windows root with nothing but separators, such as "//". */
  predicate OnlySeparators(path: string) {
    IsWindows(path) && forall i :: 0 <= i < |path| ==> IsSeparator(true, path[i])
  }

  /** A drive letter and a colon, nothing more. */
  predicate BareDrive(path: string) {
    |path| == 2 && IsAlphabetic(path[0]) && path[1] == ':'
  }

  // ------------------------------------------------------------------
  // Splitting

  lemma {:induction false} SplitJoins(w: bool, x: string, sep: char, y: string)
    requires IsSeparator(w, sep)
    ensures Split(w, x + [sep] + y) == Split(w, x) + Split(w, y)
  {
    var s := x + [sep] + y;
    if x == "" {
      assert s[1..] == y;
    } else {
      assert s[1..] == x[1..] + [sep] + y;
      SplitJoins(w, x[1..], sep, y);
      var rest, more := Split(w, x[1..]), Split(w, y);
      assert (rest + more)[0] == rest[0] && (rest + more)[1..] == rest[1..] + more;
      if IsSeparator(w, x[0]) {
        Associate([""], rest, more);
      } else {
        Associate([[x[0]] + rest[0]], rest[1..], more);
      }
    }
  }

  lemma {:induction false} SplitWhole(w: bool, s: string)
    requires forall i :: 0 <= i < |s| ==> !IsSeparator(w, s[i])
    ensures Split(w, s) == [s]
  {
    if s != "" {
      SplitWhole(w, s[1..]);
      assert [s[0]] + s[1..] == s;
    }
  }

  lemma {:induction false} NonEmptyJoins(a: seq<string>, b: seq<string>)
    ensures NonEmpty(a + b) == NonEmpty(a) + NonEmpty(b)
  {
    if a == [] {
      assert a + b == b;
    } else {
      assert (a + b)[1..] == a[1..] + b;
      NonEmptyJoins(a[1..], b);
    }
  }

  function Parts(w: bool, s: string): seq<string> {
    NonEmpty(Split(w, s))
  }

  lemma PartsJoin(w: bool, x: string, sep: char, y: string)
    requires IsSeparator(w, sep)
    ensures Parts(w, x + [sep] + y) == Parts(w, x) + Parts(w, y)
  {
    SplitJoins(w, x, sep, y);
    NonEmptyJoins(Split(w, x), Split(w, y));
  }

  lemma PartsWhole(w: bool, s: string)
    requires s != "" && forall i :: 0 <= i < |s| ==> !IsSeparator(w, s[i])
    ensures Parts(w, s) == [s]
  {
    SplitWhole(w, s);
    NonEmptyOne(s);
  }

  lemma NonEmptyOne(s: string)
    ensures NonEmpty([s]) == if s == "" then [] else [s]
  {
    assert [s][1..] == [];
  }

  lemma PartsOfNothing(w: bool)
    ensures Parts(w, "") == []
  {
    NonEmptyOne("");
  }

  lemma {:induction false} TrimKeepsParts(w: bool, s: string)
    ensures Parts(w, TrimEnd(w, s)) == Parts(w, s)
  {
    if s != "" && IsSeparator(w, s[|s| - 1]) {
      var t := s[..|s| - 1];
      TrimKeepsParts(w, t);
      PartsJoin(w, t, s[|s| - 1], "");
      assert t + [s[|s| - 1]] + "" == s;
      PartsOfNothing(w);
    }
  }

  lemma {:induction false} SplitIsClean(w: bool, s: string)
    ensures forall p :: p in Split(w, s) ==> forall i :: 0 <= i < |p| ==> !IsSeparator(w, p[i])
  {
    if s != "" {
      SplitIsClean(w, s[1..]);
      var rest := Split(w, s[1..]);
      assert rest[0] in rest;
      assert forall p :: p in rest[1..] ==> p in rest;
    }
  }

  lemma {:induction false} NonEmptyMembers(parts: seq<string>, p: string)
    ensures p in NonEmpty(parts) <==> p in parts && p != ""
  {
    if parts != [] {
      NonEmptyMembers(parts[1..], p);
      assert p in parts <==> p == parts[0] || p in parts[1..];
    }
  }

  /** Components are non-empty and hold no separator of the path's kind. */
  lemma ComponentsAreClean(path: string, p: string)
    requires p in Components(path)
    ensures p != "" && forall i :: 0 <= i < |p| ==> !IsSeparator(IsWindows(path), p[i])
  {
    NonEmptyMembers(Split(IsWindows(path), path), p);
    SplitIsClean(IsWindows(path), path);
  }

  // ------------------------------------------------------------------
  // Joining one segment

  function Separator(windows: bool): char {
    if windows then '\\' else '/'
  }

  lemma JoinShape(path: string, segment: string)
    ensures var w := IsWindows(path); Join(path, segment) == TrimEnd(w, path) + [Separator(w)] + segment
  {
  }

  lemma JoinKindWindows(path: string, segment: string)
    requires IsSegment(segment) && IsWindows(path)
    ensures IsWindows(Join(path, segment)) <==> !OnlySeparators(path)
  {
    var q := TrimEnd(true, path);
    if OnlySeparators(path) {
      assert q == "";
      assert Join(path, segment)[0] == '\\' && Join(path, segment)[1] == segment[0];
    } else {
      var i :| 0 <= i < |path| && !IsSeparator(true, path[i]);
      assert i < |q|;
      assert forall j :: 0 <= j < |q| ==> Join(path, segment)[j] == path[j];
    }
  }

  lemma JoinKindPosix(path: string, segment: string)
    requires IsSegment(segment) && !IsWindows(path)
    ensures IsWindows(Join(path, segment)) <==> BareDrive(path)
  {
    var q, r := TrimEnd(false, path), Join(path, segment);
    assert forall j :: 0 <= j < |q| ==> r[j] == path[j];
    assert r[|q|] == '/' && r[|q| + 1] == segment[0];
  }

  /** Joining keeps the path's kind exactly when the path is neither a bare separator root nor a bare drive. */
  lemma JoinKeepsKind(path: string, segment: string)
    requires IsSegment(segment)
    ensures IsWindows(Join(path, segment)) == IsWindows(path) <==> !OnlySeparators(path) && !BareDrive(path)
  {
    if IsWindows(path) {
      JoinKindWindows(path, segment);
    } else {
      JoinKindPosix(path, segment);
    }
  }

  lemma JoinParts(path: string, segment: string)
    requires IsSegment(segment)
    ensures Parts(IsWindows(path), Join(path, segment)) == Components(path) + [segment]
  {
    var w := IsWindows(path);
    JoinShape(path, segment);
    PartsJoin(w, TrimEnd(w, path), Separator(w), segment);
    TrimKeepsParts(w, path);
    PartsWhole(w, segment);
  }

  lemma BareDriveParts(path: string, segment: string)
    requires IsSegment(segment) && BareDrive(path)
    ensures Components(Join(path, segment)) == Components(path) + [segment]
  {
    JoinKindPosix(path, segment);
    assert TrimEnd(false, path) == path;
    assert Join(path, segment) == path + ['/'] + segment;
    PartsJoin(true, path, '/', segment);
    PartsWhole(true, path);
    PartsWhole(false, path);
    PartsWhole(true, segment);
  }

  lemma RootParts(path: string, segment: string)
    requires IsSegment(segment) && OnlySeparators(path)
    ensures !IsWindows(Join(path, segment))
    ensures Components(path) == [] && Components(Join(path, segment)) == ["\\" + segment]
  {
    JoinKindWindows(path, segment);
    TrimKeepsParts(true, path);
    PartsOfNothing(true);
    assert TrimEnd(true, path) == "";
    assert Join(path, segment) == "\\" + segment;
    PartsWhole(false, "\\" + segment);
  }

  /** Joining adds exactly the segment to the components, unless the path is a bare separator root. */
  lemma JoinAddsSegment(path: string, segment: string)
    requires IsSegment(segment)
    ensures Components(Join(path, segment)) == Components(path) + [segment] <==> !OnlySeparators(path)
  {
    if OnlySeparators(path) {
      RootParts(path, segment);
      assert ["\\" + segment][0][0] == '\\';
    } else if BareDrive(path) {
      BareDriveParts(path, segment);
    } else {
      JoinKeepsKind(path, segment);
      JoinParts(path, segment);
    }
  }

  // ------------------------------------------------------------------
  // Joining any number of segments

  ghost predicate AreSegments(segments: seq<string>) {
    forall s :: s in segments ==> IsSegment(s)
  }

  lemma JoinIsSolid(path: string, segment: string)
    requires IsSegment(segment)
    ensures !OnlySeparators(Join(path, segment)) && !BareDrive(Join(path, segment))
  {
    var r := Join(path, segment);
    JoinShape(path, segment);
    assert r[|r| - 1] == segment[|segment| - 1];
    assert r[|r| - |segment| - 1] == Separator(IsWindows(path));
  }

  lemma {:induction false} JoinAllAdds(path: string, segments: seq<string>)
    requires AreSegments(segments) && !OnlySeparators(path)
    ensures Components(JoinAll(path, segments)) == Components(path) + segments
    decreases |segments|
  {
    if segments == [] {
      assert Components(path) + segments == Components(path);
    } else {
      var s, rest := segments[0], segments[1..];
      var next := Join(path, s);
      JoinAddsSegment(path, s);
      JoinIsSolid(path, s);
      JoinAllAdds(next, rest);
      OneMore(Components(path), segments);
    }
  }

  lemma OneMore(front: seq<string>, segments: seq<string>)
    requires segments != []
    ensures front + [segments[0]] + segments[1..] == front + segments
  {
  }

  lemma {:induction false} JoinAllKeepsKind(path: string, segments: seq<string>)
    requires AreSegments(segments) && !OnlySeparators(path) && !BareDrive(path)
    ensures IsWindows(JoinAll(path, segments)) == IsWindows(path)
    decreases |segments|
  {
    if segments != [] {
      JoinKeepsKind(path, segments[0]);
      JoinIsSolid(path, segments[0]);
      JoinAllKeepsKind(Join(path, segments[0]), segments[1..]);
    }
  }

  /** Folding join over any list of segments appends the list, exactly when the path is not a bare separator root. */
  lemma JoinAllIsExact(path: string, segments: seq<string>)
    requires AreSegments(segments) && segments != []
    ensures Components(JoinAll(path, segments)) == Components(path) + segments <==> !OnlySeparators(path)
  {
    if OnlySeparators(path) {
      var s, rest := segments[0], segments[1..];
      RootParts(path, s);
      JoinIsSolid(path, s);
      JoinAllAdds(Join(path, s), rest);
      assert (["\\" + s] + rest)[0][0] == '\\' && (Components(path) + segments)[0] == s;
    } else {
      JoinAllAdds(path, segments);
    }
  }

  /** From an absolute path, every fold of joins stays absolute, of the same kind, and spells out the segments. */
  lemma AbsoluteJoins(path: string, segments: seq<string>)
    requires FromAbsolute(path).Some? && AreSegments(segments) && !OnlySeparators(path)
    ensures FromAbsolute(JoinAll(path, segments)) == Some(JoinAll(path, segments))
    ensures IsWindows(JoinAll(path, segments)) == IsWindows(path)
    ensures Components(JoinAll(path, segments)) == Components(path) + segments
  {
    JoinAllAdds(path, segments);
    JoinAllKeepsKind(path, segments);
    if !IsWindows(path) {
      StaysRooted(path, segments);
    }
  }

  lemma {:induction false} StaysRooted(path: string, segments: seq<string>)
    requires AreSegments(segments)
    requires path != "" && path[0] == '/' && !IsWindows(path)
    ensures JoinAll(path, segments) != "" && JoinAll(path, segments)[0] == '/'
    decreases |segments|
  {
    if segments != [] {
      var r := Join(path, segments[0]);
      assert r[0] == '/';
      JoinKindPosix(path, segments[0]);
      StaysRooted(r, segments[1..]);
    }
  }
}
