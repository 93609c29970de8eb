/** What the anchored substitutions of version normalising do to any text. */
module ReleaseRewriting {
  import opened Wrappers
  import opened Sequences
  import opened ReleaseVersion

  function Dot(dotted: bool): string {
    if dotted then "." else ""
  }

  /** The text a rule matches, and what replaces it. */
  function Tail(r: Rule, dotted: bool, n: string, m: string): string {
    Mark(r) + (Dot(dotted) + (if r.Hotfix? then n + ("." + m) else n))
  }

  function Replacement(r: Rule, n: string, m: string): string {
    match r case Plain(k) => PreText(Some((k, n))) case Hotfix => HotfixText(n, m)
  }

  predicate Numbers(r: Rule, n: string, m: string) {
    Digits(n) && (r.Hotfix? ==> Digits(m))
  }

  lemma AfterMarkOf(r: Rule, dotted: bool, rest: string)
    requires rest != "" && rest[0] != '.'
    ensures var s := Mark(r) + (Dot(dotted) + rest); Mark(r) <= s && AfterMark(r, s) == rest
  {
    var s := Mark(r) + (Dot(dotted) + rest);
    assert s[|Mark(r)|..] == Dot(dotted) + rest;
    assert dotted ==> ("." + rest)[1..] == rest;
    assert !dotted ==> "" + rest == rest;
  }

  lemma HotfixOf(n: string, m: string)
    requires Digits(n) && Digits(m)
    ensures RewriteHotfix(n + ("." + m)) == Some(HotfixText(n, m))
  {
    var rest := n + ("." + m);
    RunOf(n, "." + m);
    assert rest[..|n|] == n && rest[|n| + 1..] == m;
  }

  lemma HotfixBack(t: string) returns (n: string, m: string)
    requires RewriteHotfix(t).Some?
    ensures Digits(n) && Digits(m) && t == n + ("." + m) && RewriteHotfix(t) == Some(HotfixText(n, m))
  {
    n, m := t[..DigitRun(t)], t[DigitRun(t) + 1..];
    CutAt(t, DigitRun(t));
  }

  lemma CutAt(t: string, k: nat)
    requires k < |t| && t[k] == '.'
    ensures t == t[..k] + ("." + t[k + 1..])
  {
  }

  lemma RewriteOf(r: Rule, dotted: bool, n: string, m: string)
    requires Numbers(r, n, m)
    ensures Rewrite(r, Tail(r, dotted, n, m)) == Some(Replacement(r, n, m))
  {
    if r.Hotfix? {
      AfterMarkOf(r, dotted, n + ("." + m));
      HotfixOf(n, m);
    } else {
      AfterMarkOf(r, dotted, n);
    }
  }

  lemma AfterMarkBack(r: Rule, s: string) returns (dotted: bool)
    requires Mark(r) <= s
    ensures s == Mark(r) + (Dot(dotted) + AfterMark(r, s))
  {
    var t := s[|Mark(r)|..];
    dotted := "." <= t;
    DotBack(t);
    assert s == Mark(r) + t;
  }

  lemma DotBack(t: string)
    ensures t == Dot("." <= t) + (if "." <= t then t[1..] else t)
  {
    NothingBefore(t);
  }

  lemma RewriteBack(r: Rule, s: string) returns (dotted: bool, n: string, m: string)
    requires Rewrite(r, s).Some?
    ensures Numbers(r, n, m) && s == Tail(r, dotted, n, m) && Rewrite(r, s) == Some(Replacement(r, n, m))
  {
    dotted := AfterMarkBack(r, s);
    var t := AfterMark(r, s);
    if r.Hotfix? {
      n, m := HotfixBack(t);
    } else {
      n, m := t, "";
    }
  }

  predicate DashFree(s: string) {
    forall i :: 0 <= i < |s| ==> s[i] != '-'
  }

  lemma RewritesStartWithDash(r: Rule, s: string)
    requires s != "" && s[0] != '-'
    ensures Rewrite(r, s).None?
  {
    assert Mark(r)[0] == '-';
  }

  lemma StepOver(r: Rule, s: string)
    requires s != "" && Rewrite(r, s).None?
    ensures Substitute(r, s) == [s[0]] + Substitute(r, s[1..])
  {
  }

  lemma SkipOne(r: Rule, c: char, rest: string)
    requires c != '-'
    ensures Substitute(r, [c] + rest) == [c] + Substitute(r, rest)
  {
    var s := [c] + rest;
    RewritesStartWithDash(r, s);
    StepOver(r, s);
    assert s[1..] == rest;
  }

  lemma {:induction false} SubstituteSkips(r: Rule, x: string, t: string)
    requires DashFree(x)
    ensures Substitute(r, x + t) == x + Substitute(r, t)
  {
    if x == "" {
      NothingBefore(t);
      NothingBefore(Substitute(r, t));
    } else {
      var first, rest := [x[0]], x[1..];
      assert x == first + rest;
      SubstituteSkips(r, rest, t);
      SkipOne(r, x[0], rest + t);
      Associate(first, rest, t);
      Associate(first, rest, Substitute(r, t));
    }
  }

  lemma Untouched(r: Rule, x: string)
    requires DashFree(x)
    ensures Substitute(r, x) == x
  {
    SubstituteSkips(r, x, "");
    assert x + "" == x;
  }

  lemma Replaced(r: Rule, x: string, dotted: bool, n: string, m: string)
    requires DashFree(x) && Numbers(r, n, m)
    ensures Substitute(r, x + Tail(r, dotted, n, m)) == x + Replacement(r, n, m)
  {
    SubstituteSkips(r, x, Tail(r, dotted, n, m));
    RewriteOf(r, dotted, n, m);
  }

  lemma Kept(r: Rule, x: string, t: string)
    requires DashFree(x) && t != "" && DashFree(t[1..]) && Rewrite(r, t).None?
    ensures Substitute(r, x + t) == x + t
  {
    SubstituteSkips(r, x, t);
    Untouched(r, t[1..]);
    assert t == [t[0]] + t[1..];
  }

  lemma OneBefore(first: string, y: string, tail: string, replacement: string, rest: string, result: string)
    requires rest == y + tail && result == y + replacement
    ensures first + rest == first + y + tail && first + result == first + y + replacement
  {
    Associate(first, y, tail);
    Associate(first, y, replacement);
  }

  /** A substitution changes nothing, or one final match. */
  lemma {:induction false} SubstituteBack(r: Rule, s: string) returns (x: string, dotted: bool, n: string, m: string)
    ensures Substitute(r, s) == s
            || (Numbers(r, n, m) && s == x + Tail(r, dotted, n, m) && Substitute(r, s) == x + Replacement(r, n, m))
  {
    x, dotted, n, m := "", false, "", "";
    if s != "" {
      if Rewrite(r, s).Some? {
        dotted, n, m := RewriteBack(r, s);
        NothingBefore(s);
        NothingBefore(Replacement(r, n, m));
      } else {
        var first, rest := [s[0]], s[1..];
        var y, d, k, l := SubstituteBack(r, rest);
        assert s == first + rest;
        if Substitute(r, rest) != rest {
          x, dotted, n, m := first + y, d, k, l;
          OneBefore(first, y, Tail(r, d, k, l), Replacement(r, k, l), rest, Substitute(r, rest));
        }
      }
    }
  }

  // ------------------------------------------------------------------
  // The last character before the final digits

  function Last(s: string): Option<char> {
    if s == "" then None else if IsDigit(s[|s| - 1]) then Last(s[..|s| - 1]) else Some(s[|s| - 1])
  }

  lemma {:induction false} LastOf(x: string, c: char, d: string)
    requires !IsDigit(c) && forall i :: 0 <= i < |d| ==> IsDigit(d[i])
    ensures Last(x + [c] + d) == Some(c)
  {
    var s := x + [c] + d;
    if d == "" {
      assert s == x + [c];
    } else {
      assert s[..|s| - 1] == x + [c] + d[..|d| - 1];
      LastOf(x, c, d[..|d| - 1]);
    }
  }

  lemma EndsUnique(x: string, c: char, d: string, y: string, e: string)
    requires !IsDigit(c) && Digits(d) && Digits(e) && x + [c] + d == y + [c] + e
    ensures x == y && d == e
  {
    var s, t := x + [c] + d, y + [c] + e;
    assert s[|x|] == c && t[|y|] == c;
    assert forall i :: |x| < i < |s| ==> IsDigit(s[i]);
    assert forall i :: |y| < i < |t| ==> IsDigit(t[i]);
    assert |x| == |y|;
    assert x == s[..|x|] == t[..|y|] == y;
    assert d == s[|x| + 1..] == t[|y| + 1..] == e;
  }
}
