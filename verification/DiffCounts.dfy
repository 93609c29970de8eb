/** Counting the accepted lines of a unified diff, against printing one. */
module DiffCounts {
  import opened Sequences
  import opened Wrappers

  datatype Counts = Counts(added: nat, deleted: nat)

  /** The counter between two lines. */
  datatype Tally = Tally(inHunk: bool, added: nat, deleted: nat)

  const FILE_HEADER := "diff --git "
  const HUNK_HEADER := "@@ "
  const NEW_HEADER := "+++ "
  const OLD_HEADER := "--- "

  function Step(t: Tally, line: string): Tally {
    if FILE_HEADER <= line then t.(inHunk := false)
    else if HUNK_HEADER <= line then t.(inHunk := true)
    else if !t.inHunk && (NEW_HEADER <= line || OLD_HEADER <= line) then t
    else if "+" <= line then t.(added := t.added + 1)
    else if "-" <= line then t.(deleted := t.deleted + 1)
    else t
  }

  function Run(t: Tally, lines: seq<string>): Tally {
    if lines == [] then t else Step(Run(t, lines[..|lines| - 1]), lines[|lines| - 1])
  }

  const START := Tally(false, 0, 0)

  // ------------------------------------------------------------------
  // Lines of a text

  function LineEnd(text: string): (n: nat)
    ensures n <= |text| && '\n' !in text[..n] && (n < |text| ==> text[n] == '\n')
  {
    if text == "" || text[0] == '\n' then 0 else 1 + LineEnd(text[1..])
  }

  function Trimmed(line: string): string {
    if line != "" && line[|line| - 1] == '\r' then line[..|line| - 1] else line
  }

  /** Terminated lines lose their line feed and one carriage return before it; a last unterminated line is kept. */
  function Lines(text: string): seq<string> {
    if text == "" then []
    else if LineEnd(text) == |text| then [text]
    else [Trimmed(text[..LineEnd(text)])] + Lines(text[LineEnd(text) + 1..])
  }

  function CountText(text: string): Counts {
    var t := Run(START, Lines(text));
    Counts(t.added, t.deleted)
  }

  method AcceptedLineCounts(text: string) returns (c: Counts)
    ensures c == CountText(text)
  {
    var inHunk, added, deleted := false, 0, 0;
    var lines := Lines(text);
    for k := 0 to |lines|
      invariant Tally(inHunk, added, deleted) == Run(START, lines[..k])
    {
      var line := lines[k];
      assert lines[..k + 1][..k] == lines[..k];
      if FILE_HEADER <= line {
        inHunk := false;
        continue;
      }
      if HUNK_HEADER <= line {
        inHunk := true;
        continue;
      }
      if !inHunk && (NEW_HEADER <= line || OLD_HEADER <= line) {
        continue;
      }
      if "+" <= line {
        added := added + 1;
        continue;
      }
      if "-" <= line {
        deleted := deleted + 1;
      }
    }
    assert lines[..|lines|] == lines;
    c := Counts(added, deleted);
  }

  // ------------------------------------------------------------------
  // Printing

  datatype BodyLine = Added(text: string) | Deleted(text: string) | Context(text: string) | NoNewline

  datatype Hunk = Hunk(range: string, body: seq<BodyLine>)

  /** One file: the paths of its header line, metadata, the optional old and new paths, and its hunks. */
  datatype File = File(paths: string, metadata: seq<string>, names: Option<(string, string)>, hunks: seq<Hunk>)

  function PrintBodyLine(b: BodyLine): string {
    match b
    case Added(s) => "+" + s
    case Deleted(s) => "-" + s
    case Context(s) => " " + s
    case NoNewline => "\\ No newline at end of file"
  }

  function PrintBody(body: seq<BodyLine>): seq<string> {
    if body == [] then [] else PrintBody(body[..|body| - 1]) + [PrintBodyLine(body[|body| - 1])]
  }

  function PrintHunk(h: Hunk): seq<string> {
    [HUNK_HEADER + h.range] + PrintBody(h.body)
  }

  function PrintHunks(hunks: seq<Hunk>): seq<string> {
    if hunks == [] then [] else PrintHunks(hunks[..|hunks| - 1]) + PrintHunk(hunks[|hunks| - 1])
  }

  function PrintNames(names: Option<(string, string)>): seq<string> {
    if names.None? then [] else [OLD_HEADER + names.value.0, NEW_HEADER + names.value.1]
  }

  function PrintFile(f: File): seq<string> {
    [FILE_HEADER + f.paths] + f.metadata + PrintNames(f.names) + PrintHunks(f.hunks)
  }

  function PrintFiles(files: seq<File>): seq<string> {
    if files == [] then [] else PrintFiles(files[..|files| - 1]) + PrintFile(files[|files| - 1])
  }

  /** Metadata is neither a hunk header nor looks like a change. */
  predicate Quiet(line: string) {
    !(HUNK_HEADER <= line) && !("+" <= line) && !("-" <= line)
  }

  ghost predicate Printable(f: File) {
    forall i :: 0 <= i < |f.metadata| ==> Quiet(f.metadata[i])
  }

  function Plus(a: Counts, b: Counts): Counts {
    Counts(a.added + b.added, a.deleted + b.deleted)
  }

  function OfBodyLine(b: BodyLine): Counts {
    Counts(if b.Added? then 1 else 0, if b.Deleted? then 1 else 0)
  }

  function OfBody(body: seq<BodyLine>): Counts {
    if body == [] then Counts(0, 0) else Plus(OfBody(body[..|body| - 1]), OfBodyLine(body[|body| - 1]))
  }

  function OfHunks(hunks: seq<Hunk>): Counts {
    if hunks == [] then Counts(0, 0) else Plus(OfHunks(hunks[..|hunks| - 1]), OfBody(hunks[|hunks| - 1].body))
  }

  /** The added and deleted lines of the files. */
  function OfFiles(files: seq<File>): Counts {
    if files == [] then Counts(0, 0) else Plus(OfFiles(files[..|files| - 1]), OfHunks(files[|files| - 1].hunks))
  }

  // ------------------------------------------------------------------
  // Counting what was printed

  function Bump(t: Tally, c: Counts): Tally {
    Tally(t.inHunk, t.added + c.added, t.deleted + c.deleted)
  }

  lemma {:induction false} RunJoins(t: Tally, a: seq<string>, b: seq<string>)
    ensures Run(t, a + b) == Run(Run(t, a), b)
  {
    if b == [] {
      assert a + b == a;
    } else {
      var n := |b| - 1;
      assert (a + b)[..|a + b| - 1] == a + b[..n];
      RunJoins(t, a, b[..n]);
    }
  }

  lemma RunOne(t: Tally, line: string)
    ensures Run(t, [line]) == Step(t, line)
  {
    assert [line][..0] == [];
  }

  /** In a hunk every body line counts for what it is, whatever its text looks like. */
  lemma StepBodyLine(t: Tally, b: BodyLine)
    requires t.inHunk
    ensures Step(t, PrintBodyLine(b)) == Bump(t, OfBodyLine(b))
  {
    var line := PrintBodyLine(b);
    assert FILE_HEADER[0] == 'd' && HUNK_HEADER[0] == '@';
    assert line[0] == match b case Added(_) => '+' case Deleted(_) => '-' case Context(_) => ' ' case NoNewline => '\\';
  }

  lemma {:induction false} RunBody(t: Tally, body: seq<BodyLine>)
    requires t.inHunk
    ensures Run(t, PrintBody(body)) == Bump(t, OfBody(body))
  {
    if body != [] {
      var n := |body| - 1;
      RunBody(t, body[..n]);
      RunJoins(t, PrintBody(body[..n]), [PrintBodyLine(body[n])]);
      RunOne(Run(t, PrintBody(body[..n])), PrintBodyLine(body[n]));
      StepBodyLine(Run(t, PrintBody(body[..n])), body[n]);
    }
  }

  lemma StepHunkHeader(t: Tally, range: string)
    ensures Step(t, HUNK_HEADER + range) == t.(inHunk := true)
  {
    assert FILE_HEADER[0] == 'd' && (HUNK_HEADER + range)[0] == '@';
  }

  lemma {:induction false} RunHunks(t: Tally, hunks: seq<Hunk>)
    ensures Run(t, PrintHunks(hunks)) == Bump(t.(inHunk := t.inHunk || hunks != []), OfHunks(hunks))
  {
    if hunks != [] {
      var n := |hunks| - 1;
      var h, before := hunks[n], PrintHunks(hunks[..n]);
      var u := Run(t, before);
      RunHunks(t, hunks[..n]);
      RunJoins(t, before, [HUNK_HEADER + h.range] + PrintBody(h.body));
      RunJoins(u, [HUNK_HEADER + h.range], PrintBody(h.body));
      RunOne(u, HUNK_HEADER + h.range);
      StepHunkHeader(u, h.range);
      RunBody(u.(inHunk := true), h.body);
    }
  }

  lemma {:induction false} RunQuiet(t: Tally, lines: seq<string>)
    requires !t.inHunk && forall i :: 0 <= i < |lines| ==> Quiet(lines[i])
    ensures Run(t, lines) == t
  {
    if lines != [] {
      RunQuiet(t, lines[..|lines| - 1]);
      assert Quiet(lines[|lines| - 1]);
    }
  }

  lemma RunNames(t: Tally, names: Option<(string, string)>)
    requires !t.inHunk
    ensures Run(t, PrintNames(names)) == t
  {
    if names.Some? {
      var a, b := OLD_HEADER + names.value.0, NEW_HEADER + names.value.1;
      assert FILE_HEADER[0] == 'd' && HUNK_HEADER[0] == '@' && a[0] == '-' && b[0] == '+';
      assert PrintNames(names) == [a] + [b];
      RunJoins(t, [a], [b]);
      RunOne(t, a);
      RunOne(t, b);
    }
  }

  /** Counting a printed file adds its changes, whatever came before it. */
  lemma RunFile(t: Tally, f: File)
    requires Printable(f)
    ensures Run(t, PrintFile(f)) == Bump(t.(inHunk := f.hunks != []), OfHunks(f.hunks))
  {
    var head := [FILE_HEADER + f.paths];
    var u := t.(inHunk := false);
    RunJoins(t, head + f.metadata + PrintNames(f.names), PrintHunks(f.hunks));
    RunJoins(t, head + f.metadata, PrintNames(f.names));
    RunJoins(t, head, f.metadata);
    RunOne(t, FILE_HEADER + f.paths);
    RunQuiet(u, f.metadata);
    RunNames(u, f.names);
    RunHunks(u, f.hunks);
  }

  ghost predicate AllPrintable(files: seq<File>) {
    forall i :: 0 <= i < |files| ==> Printable(files[i])
  }

  function CountsOf(t: Tally): Counts {
    Counts(t.added, t.deleted)
  }

  lemma RunMore(t: Tally, lines: seq<string>, f: File)
    requires Printable(f)
    ensures CountsOf(Run(t, lines + PrintFile(f))) == Plus(CountsOf(Run(t, lines)), OfHunks(f.hunks))
  {
    RunJoins(t, lines, PrintFile(f));
    RunFile(Run(t, lines), f);
  }

  lemma {:induction false} RunFiles(t: Tally, files: seq<File>)
    requires AllPrintable(files)
    ensures CountsOf(Run(t, PrintFiles(files))) == Plus(CountsOf(t), OfFiles(files))
  {
    if files != [] {
      var n := |files| - 1;
      RunFiles(t, files[..n]);
      RunMore(t, PrintFiles(files[..n]), files[n]);
    }
  }

  // ------------------------------------------------------------------
  // Text and lines

  function Text(lines: seq<string>): string {
    if lines == [] then "" else lines[0] + "\n" + Text(lines[1..])
  }

  function AllTrimmed(lines: seq<string>): seq<string> {
    if lines == [] then [] else [Trimmed(lines[0])] + AllTrimmed(lines[1..])
  }

  ghost predicate OneLineEach(lines: seq<string>) {
    forall i :: 0 <= i < |lines| ==> '\n' !in lines[i]
  }

  lemma {:induction false} LineEndOf(line: string, rest: string)
    requires '\n' !in line
    ensures LineEnd(line + "\n" + rest) == |line|
  {
    var s := line + "\n" + rest;
    if line != "" {
      assert s[1..] == line[1..] + "\n" + rest;
      LineEndOf(line[1..], rest);
    }
  }

  lemma FirstLine(line: string, rest: string)
    requires '\n' !in line
    ensures Lines(line + "\n" + rest) == [Trimmed(line)] + Lines(rest)
  {
    var s := line + "\n" + rest;
    LineEndOf(line, rest);
    assert s[..|line|] == line && s[|line| + 1..] == rest;
  }

  lemma {:induction false} LinesOfText(lines: seq<string>, last: string)
    requires OneLineEach(lines) && '\n' !in last
    ensures Lines(Text(lines) + last) == AllTrimmed(lines) + Lines(last)
  {
    if lines == [] {
      assert Text(lines) + last == last;
    } else {
      var rest := Text(lines[1..]);
      LinesOfText(lines[1..], last);
      FirstLine(lines[0], rest + last);
      Associate(lines[0] + "\n", rest, last);
    }
  }

  lemma LinesOfLast(last: string)
    requires '\n' !in last
    ensures Lines(last) == if last == "" then [] else [last]
  {
    assert forall i :: 0 <= i < |last| ==> last[i] != '\n';
  }

  lemma TrimKeepsPrefix(p: string, line: string)
    requires '\r' !in p
    ensures p <= Trimmed(line) <==> p <= line
  {
    if p <= line && p != "" {
      assert p[|p| - 1] == line[|p| - 1];
      assert p[|p| - 1] in p;
    }
  }

  lemma StepTrimmed(t: Tally, line: string)
    ensures Step(t, Trimmed(line)) == Step(t, line)
  {
    TrimKeepsPrefix(FILE_HEADER, line);
    TrimKeepsPrefix(HUNK_HEADER, line);
    TrimKeepsPrefix(NEW_HEADER, line);
    TrimKeepsPrefix(OLD_HEADER, line);
    TrimKeepsPrefix("+", line);
    TrimKeepsPrefix("-", line);
  }

  lemma {:induction false} RunTrimmed(t: Tally, lines: seq<string>)
    ensures Run(t, AllTrimmed(lines)) == Run(t, lines)
    decreases |lines|
  {
    if lines != [] {
      var first, rest := lines[0], lines[1..];
      RunJoins(t, [Trimmed(first)], AllTrimmed(rest));
      RunJoins(t, [first], rest);
      assert [first] + rest == lines;
      RunOne(t, Trimmed(first));
      RunOne(t, first);
      StepTrimmed(t, first);
      RunTrimmed(Step(t, first), rest);
    }
  }

  /** Counting a text counts its lines, however they and the last of them end. */
  lemma CountOfText(lines: seq<string>, last: string)
    requires OneLineEach(lines) && '\n' !in last
    ensures CountText(Text(lines) + last) == CountsOf(Run(START, if last == "" then lines else lines + [last]))
  {
    LinesOfText(lines, last);
    LinesOfLast(last);
    RunJoins(START, AllTrimmed(lines), Lines(last));
    RunJoins(START, lines, Lines(last));
    RunTrimmed(START, lines);
    assert lines + [] == lines;
  }

  lemma CountOfWholeLines(lines: seq<string>)
    requires OneLineEach(lines)
    ensures CountText(Text(lines)) == CountsOf(Run(START, lines))
  {
    CountOfText(lines, "");
    assert Text(lines) + "" == Text(lines);
  }

  /** Counting a printed diff gives exactly the added and deleted lines of its files. */
  lemma CountingInvertsPrinting(files: seq<File>)
    requires AllPrintable(files) && OneLineEach(PrintFiles(files))
    ensures CountText(Text(PrintFiles(files))) == OfFiles(files)
  {
    RunFiles(START, files);
    CountOfWholeLines(PrintFiles(files));
  }

  // ------------------------------------------------------------------
  // Any diff

  /** What lines add does not depend on what was counted before them. */
  lemma {:induction false} RunShifts(t: Tally, c: Counts, lines: seq<string>)
    ensures Run(Bump(t, c), lines) == Bump(Run(t, lines), c)
  {
    if lines != [] {
      RunShifts(t, c, lines[..|lines| - 1]);
    }
  }

  lemma RunAfter(t: Tally, lines: seq<string>)
    requires lines != [] && FILE_HEADER <= lines[0]
    ensures CountsOf(Run(t, lines)) == Plus(CountsOf(t), CountsOf(Run(START, lines)))
  {
    var rest := lines[1..];
    RunFromHeader(t, lines);
    RunFromHeader(START, lines);
    RunShifts(START, CountsOf(t), rest);
    assert t.(inHunk := false) == Bump(START, CountsOf(t));
  }

  lemma RunFromHeader(t: Tally, lines: seq<string>)
    requires lines != [] && FILE_HEADER <= lines[0]
    ensures Run(t, lines) == Run(t.(inHunk := false), lines[1..])
  {
    assert lines == [lines[0]] + lines[1..];
    RunJoins(t, [lines[0]], lines[1..]);
    RunOne(t, lines[0]);
  }

  lemma {:induction false} TextJoins(a: seq<string>, b: seq<string>)
    ensures Text(a + b) == Text(a) + Text(b)
  {
    if a == [] {
      assert a + b == b;
    } else {
      assert (a + b)[1..] == a[1..] + b;
      TextJoins(a[1..], b);
      Associate(a[0] + "\n", Text(a[1..]), Text(b));
    }
  }

  /** The counts of any two diffs put together add up when the second starts with a file header. */
  lemma CountsAddUp(a: seq<string>, b: seq<string>)
    requires OneLineEach(a) && OneLineEach(b) && b != [] && FILE_HEADER <= b[0]
    ensures CountText(Text(a) + Text(b)) == Plus(CountText(Text(a)), CountText(Text(b)))
  {
    TextJoins(a, b);
    OneLineJoins(a, b);
    CountOfWholeLines(a);
    CountOfWholeLines(b);
    CountOfWholeLines(a + b);
    CountsOfBoth(a, b);
  }

  lemma OneLineJoins(a: seq<string>, b: seq<string>)
    requires OneLineEach(a) && OneLineEach(b)
    ensures OneLineEach(a + b)
  {
  }

  lemma CountsOfBoth(a: seq<string>, b: seq<string>)
    requires b != [] && FILE_HEADER <= b[0]
    ensures CountsOf(Run(START, a + b)) == Plus(CountsOf(Run(START, a)), CountsOf(Run(START, b)))
  {
    RunJoins(START, a, b);
    RunAfter(Run(START, a), b);
  }

  /** Some hunk header precedes the position with no file header after it. */
  ghost predicate InsideHunk(lines: seq<string>, k: nat)
    requires k <= |lines|
  {
    exists j :: 0 <= j < k && Opens(lines, j, k)
  }

  ghost predicate Opens(lines: seq<string>, j: nat, k: nat)
    requires j < k <= |lines|
  {
    HUNK_HEADER <= lines[j] && forall i :: j < i < k ==> !(FILE_HEADER <= lines[i])
  }

  lemma InsideHunkStep(lines: seq<string>, k: nat)
    requires 0 < k <= |lines|
    ensures InsideHunk(lines, k) <==>
            HUNK_HEADER <= lines[k - 1] || (InsideHunk(lines, k - 1) && !(FILE_HEADER <= lines[k - 1]))
  {
    if HUNK_HEADER <= lines[k - 1] {
      assert Opens(lines, k - 1, k);
    }
    var m := k - 1;
    if j :| 0 <= j < m && Opens(lines, j, m) {
      assert !(FILE_HEADER <= lines[m]) ==> Opens(lines, j, k);
    }
    if j :| 0 <= j < k && Opens(lines, j, k) {
      assert j < k - 1 ==> Opens(lines, j, k - 1);
    }
  }

  lemma {:induction false} HunkStateMeaning(lines: seq<string>, k: nat)
    requires k <= |lines|
    ensures Run(START, lines[..k]).inHunk <==> InsideHunk(lines, k)
  {
    if k > 0 {
      HunkStateMeaning(lines, k - 1);
      InsideHunkStep(lines, k);
      assert lines[..k][..k - 1] == lines[..k - 1];
      assert FILE_HEADER[0] == 'd' && HUNK_HEADER[0] == '@';
    }
  }

  /** The lines that count: additions, other than a new-path header outside a hunk. */
  ghost predicate IsAddition(lines: seq<string>, i: nat)
    requires i < |lines|
  {
    "+" <= lines[i] && (InsideHunk(lines, i) || !(NEW_HEADER <= lines[i]))
  }

  ghost predicate IsDeletion(lines: seq<string>, i: nat)
    requires i < |lines|
  {
    "-" <= lines[i] && (InsideHunk(lines, i) || !(OLD_HEADER <= lines[i]))
  }

  ghost function Additions(lines: seq<string>, k: nat): set<nat>
    requires k <= |lines|
  {
    set i | 0 <= i < k && IsAddition(lines, i)
  }

  ghost function Deletions(lines: seq<string>, k: nat): set<nat>
    requires k <= |lines|
  {
    set i | 0 <= i < k && IsDeletion(lines, i)
  }

  lemma AdditionsStep(lines: seq<string>, k: nat)
    requires 0 < k <= |lines|
    ensures |Additions(lines, k)| == |Additions(lines, k - 1)| + (if IsAddition(lines, k - 1) then 1 else 0)
  {
    var a := Additions(lines, k - 1);
    assert Additions(lines, k) == if IsAddition(lines, k - 1) then a + {k - 1} else a;
  }

  lemma DeletionsStep(lines: seq<string>, k: nat)
    requires 0 < k <= |lines|
    ensures |Deletions(lines, k)| == |Deletions(lines, k - 1)| + (if IsDeletion(lines, k - 1) then 1 else 0)
  {
    var d := Deletions(lines, k - 1);
    assert Deletions(lines, k) == if IsDeletion(lines, k - 1) then d + {k - 1} else d;
  }

  /** Counting any lines counts the additions and the deletions among them. */
  lemma {:induction false} CountMeaning(lines: seq<string>, k: nat)
    requires k <= |lines|
    ensures var t := Run(START, lines[..k]);
            t.added == |Additions(lines, k)| && t.deleted == |Deletions(lines, k)|
  {
    if k > 0 {
      CountMeaning(lines, k - 1);
      HunkStateMeaning(lines, k - 1);
      assert lines[..k][..k - 1] == lines[..k - 1];
      AdditionsStep(lines, k);
      DeletionsStep(lines, k);
      StepMeaning(lines, k - 1, Run(START, lines[..k - 1]));
    }
  }

  lemma StepMeaning(lines: seq<string>, i: nat, t: Tally)
    requires i < |lines| && (t.inHunk <==> InsideHunk(lines, i))
    ensures var u := Step(t, lines[i]);
            && u.added == t.added + (if IsAddition(lines, i) then 1 else 0)
            && u.deleted == t.deleted + (if IsDeletion(lines, i) then 1 else 0)
  {
    var line := lines[i];
    assert FILE_HEADER[0] == 'd' && HUNK_HEADER[0] == '@' && NEW_HEADER[0] == '+' && OLD_HEADER[0] == '-';
    assert "+" <= line <==> line != "" && line[0] == '+';
    assert "-" <= line <==> line != "" && line[0] == '-';
  }
}
