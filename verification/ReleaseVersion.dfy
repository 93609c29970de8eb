/**
 Release versions: Codex tags and PEP 440 versions, and the rewriting between
 them. Normalising is characterised exactly, undoes tagging and is idempotent.
 */
module ReleaseVersion {
  import opened Wrappers
  import opened Sequences

  datatype Kind = Alpha | Beta | Candidate

  /** A normalised version, its numbers kept as digit strings. */
  datatype Version = Version(base: seq<string>, pre: Option<(Kind, string)>, post: Option<string>)

  datatype Result<+T> = Ok(value: T) | Failed

  predicate IsDigit(c: char) {
    '0' <= c <= '9'
  }

  predicate Digits(s: string) {
    s != "" && forall i :: 0 <= i < |s| ==> IsDigit(s[i])
  }

  predicate Valid(v: Version) {
    && v.base != [] && (forall i :: 0 <= i < |v.base| ==> Digits(v.base[i]))
    && (v.pre.Some? ==> Digits(v.pre.value.1))
    && (v.post.Some? ==> Digits(v.post.value))
  }

  // ------------------------------------------------------------------
  // The normalised form as text

  function Letter(k: Kind): string {
    match k case Alpha => "a" case Beta => "b" case Candidate => "rc"
  }

  function Name(k: Kind): string {
    match k case Alpha => "alpha" case Beta => "beta" case Candidate => "rc"
  }

  function Dotted(parts: seq<string>): string
    requires parts != []
  {
    if |parts| == 1 then parts[0] else parts[0] + "." + Dotted(parts[1..])
  }

  function PreText(pre: Option<(Kind, string)>): string {
    if pre.None? then "" else Letter(pre.value.0) + pre.value.1
  }

  function PostText(post: Option<string>): string {
    if post.None? then "" else ".post" + post.value
  }

  function Print(v: Version): string
    requires v.base != []
  {
    Dotted(v.base) + PreText(v.pre) + PostText(v.post)
  }

  // ------------------------------------------------------------------
  // The pattern of normalised versions

  function DigitRun(s: string): (n: nat)
    ensures n <= |s| && (forall i :: 0 <= i < n ==> IsDigit(s[i])) && (n < |s| ==> !IsDigit(s[n]))
  {
    if s == "" || !IsDigit(s[0]) then 0 else 1 + DigitRun(s[1..])
  }

  /** The longest dotted run of digit groups and what follows it. */
  function TakeBase(s: string): (r: (seq<string>, string))
    ensures |r.1| <= |s| && r.0 != []
    decreases |s|
  {
    var n := DigitRun(s);
    var rest := s[n..];
    if |rest| >= 2 && rest[0] == '.' && IsDigit(rest[1]) then
      var r := TakeBase(rest[1..]);
      ([s[..n]] + r.0, r.1)
    else
      ([s[..n]], rest)
  }

  predicate Numbered(k: Kind, s: string) {
    Letter(k) <= s && DigitRun(s[|Letter(k)|..]) > 0
  }

  function TakeNumbered(k: Kind, s: string): (Option<(Kind, string)>, string)
    requires Numbered(k, s)
  {
    var t := s[|Letter(k)|..];
    (Some((k, t[..DigitRun(t)])), t[DigitRun(t)..])
  }

  function TakePre(s: string): (Option<(Kind, string)>, string) {
    if Numbered(Alpha, s) then TakeNumbered(Alpha, s)
    else if Numbered(Beta, s) then TakeNumbered(Beta, s)
    else if Numbered(Candidate, s) then TakeNumbered(Candidate, s)
    else (None, s)
  }

  function TakePost(s: string): (Option<string>, string) {
    if ".post" <= s && Digits(s[5..]) then (Some(s[5..]), "") else (None, s)
  }

  /** A full match of the pattern of normalised versions, as the groups matched. */
  function Parse(s: string): (v: Option<Version>)
    ensures v.Some? ==> v.value.base != []
  {
    if DigitRun(s) == 0 then None else
      var (base, afterBase) := TakeBase(s);
      var (pre, afterPre) := TakePre(afterBase);
      var (post, rest) := TakePost(afterPre);
      if rest == "" then Some(Version(base, pre, post)) else None
  }

  // ------------------------------------------------------------------
  // Normalising

  predicate IsSpace(c: char) {
    var n := c as int;
    9 <= n <= 13 || 28 <= n <= 32 || n == 0x85 || n == 0xA0 || n == 0x1680 || 0x2000 <= n <= 0x200A
    || n == 0x2028 || n == 0x2029 || n == 0x202F || n == 0x205F || n == 0x3000
  }

  function StripLeft(s: string): (t: string)
    ensures |t| <= |s|
  {
    if s != "" && IsSpace(s[0]) then StripLeft(s[1..]) else s
  }

  function StripRight(s: string): (t: string)
    ensures |t| <= |s|
  {
    if s != "" && IsSpace(s[|s| - 1]) then StripRight(s[..|s| - 1]) else s
  }

  const RUST_V := "rust-v"

  function Unprefixed(s: string): string {
    if RUST_V <= s then s[6..] else if "v" <= s then s[1..] else s
  }

  function Core(s: string): string {
    Unprefixed(StripRight(StripLeft(s)))
  }

  datatype Rule = Hotfix | Plain(kind: Kind)

  function Mark(r: Rule): string {
    "-" + Name(if r.Hotfix? then Alpha else r.kind)
  }

  function AfterMark(r: Rule, s: string): string
    requires Mark(r) <= s
  {
    var t := s[|Mark(r)|..];
    if "." <= t then t[1..] else t
  }

  function HotfixText(n: string, m: string): string {
    PreText(Some((Alpha, n))) + PostText(Some(m))
  }

  function RewriteHotfix(t: string): Option<string> {
    var n := DigitRun(t);
    if 0 < n < |t| && t[n] == '.' && Digits(t[n + 1..]) then Some(HotfixText(t[..n], t[n + 1..])) else None
  }

  function RewritePlain(k: Kind, t: string): Option<string> {
    if Digits(t) then Some(PreText(Some((k, t)))) else None
  }

  /** What the rule's pattern, anchored at both ends, rewrites this text to. */
  function Rewrite(r: Rule, s: string): Option<string> {
    if !(Mark(r) <= s) then None else
      match r
      case Plain(k) => RewritePlain(k, AfterMark(r, s))
      case Hotfix => RewriteHotfix(AfterMark(r, s))
  }

  /** Substitution of the leftmost match that reaches the end of the text. */
  function Substitute(r: Rule, s: string): string {
    if s == "" then "" else
      match Rewrite(r, s)
      case Some(t) => t
      case None => [s[0]] + Substitute(r, s[1..])
  }

  function Substituted(s: string): string {
    Substitute(Plain(Candidate), Substitute(Plain(Beta), Substitute(Plain(Alpha), Substitute(Hotfix, s))))
  }

  function Normalize(s: string): (n: Result<string>)
    ensures n.Ok? ==> Parse(n.value).Some?
  {
    var t := Substituted(Core(s));
    if Parse(t).Some? then Ok(t) else Failed
  }

  // ------------------------------------------------------------------
  // Tags

  function Spelled(v: Version): string
    requires v.base != []
  {
    if v.pre.Some? && v.pre.value.0.Alpha? && v.post.Some? then
      Dotted(v.base) + "-alpha." + v.pre.value.1 + "." + v.post.value
    else if v.pre.Some? && v.post.None? then
      Dotted(v.base) + "-" + Name(v.pre.value.0) + "." + v.pre.value.1
    else
      Print(v)
  }

  function ReleaseOf(s: string): Result<string> {
    match Normalize(s)
    case Failed => Failed
    case Ok(n) => Ok(Spelled(Parse(n).value))
  }

  function Tag(s: string): Result<string> {
    match ReleaseOf(s) case Failed => Failed case Ok(r) => Ok(RUST_V + r)
  }

  predicate RuntimeShape(v: Version) {
    |v.base| == 3 && (v.pre.Some? ==> v.pre.value.0.Alpha?) && (v.post.Some? ==> v.pre.Some?)
  }

  /** The resolver: the pattern of runtime versions first, then the tag. */
  function Resolve(s: string): Result<(string, string)> {
    var v := Parse(s);
    if v.Some? && RuntimeShape(v.value) then
      match Tag(s) case Failed => Failed case Ok(t) => Ok((s, t))
    else Failed
  }

  // ------------------------------------------------------------------
  // Parsing and printing undo each other

  lemma {:induction false} RunOf(d: string, rest: string)
    requires forall i :: 0 <= i < |d| ==> IsDigit(d[i])
    requires rest == "" || !IsDigit(rest[0])
    ensures DigitRun(d + rest) == |d|
  {
    if d == "" {
      assert d + rest == rest;
    } else {
      assert (d + rest)[1..] == d[1..] + rest;
      RunOf(d[1..], rest);
    }
  }

  /** What may follow the dotted numbers. */
  predicate Closes(rest: string) {
    rest == "" || (!IsDigit(rest[0]) && (rest[0] == '.' ==> |rest| >= 2 && !IsDigit(rest[1])))
  }

  lemma LastPart(d: string, rest: string)
    requires Digits(d) && Closes(rest)
    ensures TakeBase(d + rest) == ([d], rest) && DigitRun(d + rest) > 0
  {
    RunOf(d, rest);
    assert (d + rest)[..|d|] == d && (d + rest)[|d|..] == rest;
  }

  lemma OnePart(d: string, inner: string)
    requires Digits(d) && DigitRun(inner) > 0
    ensures TakeBase(d + ("." + inner)) == ([d] + TakeBase(inner).0, TakeBase(inner).1)
            && DigitRun(d + ("." + inner)) > 0
  {
    var s, rest := d + ("." + inner), "." + inner;
    RunOf(d, rest);
    assert s[..|d|] == d && s[|d|..] == rest;
    assert rest[1..] == inner && rest[0] == '.' && rest[1] == inner[0];
  }

  lemma {:induction false} BaseOf(parts: seq<string>, rest: string)
    requires parts != [] && (forall i :: 0 <= i < |parts| ==> Digits(parts[i])) && Closes(rest)
    ensures TakeBase(Dotted(parts) + rest) == (parts, rest)
    ensures DigitRun(Dotted(parts) + rest) > 0
  {
    var d := parts[0];
    if |parts| == 1 {
      LastPart(d, rest);
      assert parts == [d];
    } else {
      var inner := Dotted(parts[1..]);
      BaseOf(parts[1..], rest);
      OnePart(d, inner + rest);
      Associate(d, ".", inner);
      Associate(d, "." + inner, rest);
      Associate(".", inner, rest);
      assert parts == [d] + parts[1..];
    }
  }

  lemma NumberedOf(k: Kind, d: string, rest: string)
    requires Digits(d) && (rest == "" || !IsDigit(rest[0]))
    ensures var s := Letter(k) + d + rest;
            Numbered(k, s) && TakeNumbered(k, s) == (Some((k, d)), rest)
  {
    var s := Letter(k) + d + rest;
    var t := s[|Letter(k)|..];
    RunOf(d, rest);
    assert t == d + rest;
    assert t[..|d|] == d && t[|d|..] == rest;
  }

  lemma LettersDiffer(j: Kind, k: Kind, t: string)
    ensures Letter(j) <= Letter(k) + t ==> j == k
  {
    assert (Letter(k) + t)[0] == Letter(k)[0];
  }

  lemma PreOf(pre: Option<(Kind, string)>, rest: string)
    requires pre.Some? ==> Digits(pre.value.1)
    requires rest == "" || rest[0] == '.'
    ensures TakePre(PreText(pre) + rest) == (pre, rest)
  {
    if pre.None? {
      NothingBefore(rest);
      NoLetter(rest);
    } else {
      var k, d := pre.value.0, pre.value.1;
      NumberedOf(k, d, rest);
      Associate(Letter(k), d, rest);
      forall j | Numbered(j, PreText(pre) + rest)
        ensures j == k
      {
        LettersDiffer(j, k, d + rest);
      }
      FirstNumbered(k, PreText(pre) + rest);
    }
  }

  lemma NoLetter(rest: string)
    requires rest == "" || rest[0] == '.'
    ensures TakePre(rest) == (None, rest)
  {
    assert forall k: Kind :: Letter(k)[0] != '.';
  }

  lemma FirstNumbered(k: Kind, s: string)
    requires Numbered(k, s) && forall j :: Numbered(j, s) ==> j == k
    ensures TakePre(s) == TakeNumbered(k, s)
  {
    assert !Numbered(Alpha, s) || k == Alpha;
    assert !Numbered(Beta, s) || k == Beta;
  }

  lemma PostOf(post: Option<string>)
    requires post.Some? ==> Digits(post.value)
    ensures TakePost(PostText(post)) == (post, "")
  {
    if post.Some? {
      assert PostText(post)[5..] == post.value;
    }
  }

  lemma ParsePrint(v: Version)
    requires Valid(v)
    ensures Parse(Print(v)) == Some(v)
  {
    var rest := PreText(v.pre) + PostText(v.post);
    Associate(Dotted(v.base), PreText(v.pre), PostText(v.post));
    BaseOf(v.base, rest);
    PreOf(v.pre, PostText(v.post));
    PostOf(v.post);
  }

  lemma {:induction false} BaseBack(s: string)
    requires DigitRun(s) > 0
    ensures var r := TakeBase(s); s == Dotted(r.0) + r.1 && forall i :: 0 <= i < |r.0| ==> Digits(r.0[i])
    decreases |s|
  {
    var n := DigitRun(s);
    var rest := s[n..];
    if |rest| >= 2 && rest[0] == '.' && IsDigit(rest[1]) {
      var tail := rest[1..];
      BaseBack(tail);
      var r := TakeBase(tail);
      DottedStep(s[..n], r.0);
      AroundDot(s, n, tail, Dotted(r.0), r.1);
    } else {
      assert s == s[..n] + rest;
    }
  }

  lemma DottedStep(d: string, parts: seq<string>)
    requires parts != []
    ensures Dotted([d] + parts) == d + "." + Dotted(parts)
  {
    assert ([d] + parts)[1..] == parts;
  }

  lemma AroundDot(s: string, n: nat, tail: string, x: string, y: string)
    requires n < |s| && s[n] == '.' && tail == s[n + 1..] && tail == x + y
    ensures s == s[..n] + "." + x + y
  {
  }

  lemma NumberedBack(k: Kind, s: string)
    requires Numbered(k, s)
    ensures var r := TakeNumbered(k, s); s == PreText(r.0) + r.1 && r.0.Some? && Digits(r.0.value.1)
  {
    var t := s[|Letter(k)|..];
    var n := DigitRun(t);
    assert t == t[..n] + t[n..];
    assert s == Letter(k) + t;
    Associate(Letter(k), t[..n], t[n..]);
  }

  lemma PreBack(s: string)
    ensures var r := TakePre(s); s == PreText(r.0) + r.1 && (r.0.Some? ==> Digits(r.0.value.1))
  {
    if Numbered(Alpha, s) {
      NumberedBack(Alpha, s);
    } else if Numbered(Beta, s) {
      NumberedBack(Beta, s);
    } else if Numbered(Candidate, s) {
      NumberedBack(Candidate, s);
    } else {
      NothingBefore(s);
    }
  }

  lemma PostBack(s: string)
    requires TakePost(s).1 == ""
    ensures s == PostText(TakePost(s).0) && (TakePost(s).0.Some? ==> Digits(TakePost(s).0.value))
  {
  }

  lemma PrintParse(s: string)
    requires Parse(s).Some?
    ensures Valid(Parse(s).value) && Print(Parse(s).value) == s
  {
    BaseBack(s);
    var b := TakeBase(s);
    PreBack(b.1);
    var p := TakePre(b.1);
    PostBack(p.1);
    var q := TakePost(p.1);
    Associate(Dotted(b.0), PreText(p.0), PostText(q.0));
  }

  /** The pattern matches exactly the printed versions, each in one way. */
  lemma PatternIsPrinted(s: string, v: Version)
    ensures Parse(s) == Some(v) <==> Valid(v) && Print(v) == s
  {
    if Parse(s) == Some(v) {
      PrintParse(s);
    }
    if Valid(v) && Print(v) == s {
      ParsePrint(v);
    }
  }
}
