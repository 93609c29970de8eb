/**
 The exact set of texts that normalise to a version, and what follows from it:
 normalising is idempotent and undoes tagging, and runtime versions resolve.
 */
module ReleaseLaws {
  import opened Wrappers
  import opened Sequences
  import opened ReleaseVersion
  import opened ReleaseRewriting

  /** Versions whose suffix also has a dashed spelling. */
  predicate HasDashed(v: Version) {
    v.pre.Some? && (v.post.None? || v.pre.value.0.Alpha?)
  }

  function RuleOf(v: Version): Rule
    requires HasDashed(v)
  {
    if v.post.Some? then Hotfix else Plain(v.pre.value.0)
  }

  function PostNumber(v: Version): string {
    if v.post.Some? then v.post.value else ""
  }

  function Dashed(v: Version, dotted: bool): string
    requires v.base != [] && HasDashed(v)
  {
    Dotted(v.base) + Tail(RuleOf(v), dotted, v.pre.value.1, PostNumber(v))
  }

  /** The alpha rule runs before the beta rule, so its output can complete a beta mark. */
  function Completed(v: Version, dotted: bool): string
    requires v.base != [] && HasDashed(v)
  {
    Dotted(v.base) + ("-bet" + Tail(Plain(Alpha), dotted, v.pre.value.1, ""))
  }

  predicate Spells(v: Version, t: string)
    requires v.base != []
  {
    || t == Print(v)
    || (HasDashed(v) && (t == Dashed(v, true) || t == Dashed(v, false)))
    || (HasDashed(v) && RuleOf(v) == Plain(Beta) && (t == Completed(v, true) || t == Completed(v, false)))
  }

  // ------------------------------------------------------------------
  // Every spelling normalises

  lemma {:induction false} DottedIsDashFree(parts: seq<string>)
    requires parts != [] && forall i :: 0 <= i < |parts| ==> Digits(parts[i])
    ensures DashFree(Dotted(parts))
  {
    if |parts| > 1 {
      DottedIsDashFree(parts[1..]);
    }
  }

  lemma ReplacementIsDashFree(r: Rule, n: string, m: string)
    requires Numbers(r, n, m)
    ensures DashFree(Replacement(r, n, m))
  {
  }

  lemma PrintIsDashFree(v: Version)
    requires Valid(v)
    ensures DashFree(Print(v))
  {
    DottedIsDashFree(v.base);
    assert DashFree(PreText(v.pre)) && DashFree(PostText(v.post));
  }

  lemma PrintIsReplaced(v: Version)
    requires Valid(v) && HasDashed(v)
    ensures Numbers(RuleOf(v), v.pre.value.1, PostNumber(v))
    ensures Print(v) == Dotted(v.base) + Replacement(RuleOf(v), v.pre.value.1, PostNumber(v))
  {
    Associate(Dotted(v.base), PreText(v.pre), PostText(v.post));
    assert PreText(v.pre) + "" == PreText(v.pre);
  }

  lemma UntouchedByAll(x: string)
    requires DashFree(x)
    ensures Substituted(x) == x
  {
    Untouched(Hotfix, x);
    Untouched(Plain(Alpha), x);
    Untouched(Plain(Beta), x);
    Untouched(Plain(Candidate), x);
  }

  predicate Before(q: Rule, r: Rule) {
    match r
    case Hotfix => false
    case Plain(Alpha) => q.Hotfix?
    case Plain(Beta) => q == Hotfix || q == Plain(Alpha)
    case Plain(Candidate) => q != r
  }

  lemma MarksDiffer(q: Rule, r: Rule, t: string)
    requires Before(q, r) && r != Plain(Alpha)
    ensures !(Mark(q) <= Mark(r) + t)
  {
    assert Mark(q)[1] != Mark(r)[1];
    assert (Mark(r) + t)[1] == Mark(r)[1];
  }

  lemma EarlierRuleKeeps(q: Rule, r: Rule, x: string, dotted: bool, n: string, m: string)
    requires Before(q, r) && DashFree(x) && Numbers(r, n, m)
    ensures Substitute(q, x + Tail(r, dotted, n, m)) == x + Tail(r, dotted, n, m)
  {
    if r == Plain(Alpha) {
      AfterMarkOf(r, dotted, n);
      RunOf(n, "");
      assert n + "" == n;
    } else {
      MarksDiffer(q, r, Dot(dotted) + n);
    }
    TailHasOneDash(r, dotted, n, m);
    Kept(q, x, Tail(r, dotted, n, m));
  }

  lemma TailHasOneDash(r: Rule, dotted: bool, n: string, m: string)
    requires Numbers(r, n, m)
    ensures Tail(r, dotted, n, m) != "" && DashFree(Tail(r, dotted, n, m)[1..])
  {
    var rest := Dot(dotted) + (if r.Hotfix? then n + ("." + m) else n);
    assert DashFree(rest);
    assert DashFree(Mark(r)[1..]);
    assert Tail(r, dotted, n, m)[1..] == Mark(r)[1..] + rest;
  }

  lemma Chain(t: string, a: string, b: string, c: string, d: string)
    requires Substitute(Hotfix, t) == a && Substitute(Plain(Alpha), a) == b
    requires Substitute(Plain(Beta), b) == c && Substitute(Plain(Candidate), c) == d
    ensures Substituted(t) == d
  {
  }

  lemma OneRuleActs(r: Rule, t: string, y: string)
    requires Substitute(r, t) == y && DashFree(y)
    requires forall q :: Before(q, r) ==> Substitute(q, t) == t
    ensures Substituted(t) == y
  {
    forall q
      ensures Substitute(q, y) == y
    {
      Untouched(q, y);
    }
    match r
    case Hotfix => Chain(t, y, y, y, y);
    case Plain(Alpha) => Chain(t, t, y, y, y);
    case Plain(Beta) => Chain(t, t, t, y, y);
    case Plain(Candidate) => Chain(t, t, t, t, y);
  }

  lemma DashedNormalises(x: string, r: Rule, dotted: bool, n: string, m: string)
    requires DashFree(x) && Numbers(r, n, m)
    ensures Substituted(x + Tail(r, dotted, n, m)) == x + Replacement(r, n, m)
  {
    Replaced(r, x, dotted, n, m);
    ReplacementIsDashFree(r, n, m);
    forall q | Before(q, r)
      ensures Substitute(q, x + Tail(r, dotted, n, m)) == x + Tail(r, dotted, n, m)
    {
      EarlierRuleKeeps(q, r, x, dotted, n, m);
    }
    OneRuleActs(r, x + Tail(r, dotted, n, m), x + Replacement(r, n, m));
  }

  lemma SkipMark(r: Rule, s: string, mid: string, u: string)
    requires s != "" && s[0] == '-' && s[1..] == mid + u && DashFree(mid) && Rewrite(r, s).None?
    ensures Substitute(r, s) == ['-'] + mid + Substitute(r, u)
  {
    SubstituteSkips(r, mid, u);
    Associate(['-'], mid, Substitute(r, u));
  }

  lemma BetStep(r: Rule, u: string)
    requires r == Hotfix || r == Plain(Alpha)
    ensures Substitute(r, "-bet" + u) == "-bet" + Substitute(r, u)
  {
    var s, mid := "-bet" + u, "bet";
    BetIsNoMark(r, u);
    SkipMark(r, s, mid, u);
    assert ['-'] + mid == "-bet";
  }

  lemma BetSkips(r: Rule, x: string, u: string)
    requires r == Hotfix || r == Plain(Alpha)
    requires DashFree(x)
    ensures Substitute(r, x + ("-bet" + u)) == x + ("-bet" + Substitute(r, u))
  {
    BetStep(r, u);
    SubstituteSkips(r, x, "-bet" + u);
  }

  lemma BetIsNoMark(r: Rule, u: string)
    requires r == Hotfix || r == Plain(Alpha)
    ensures Rewrite(r, "-bet" + u).None? && "-bet" + u != "" && ("-bet" + u)[1..] == "bet" + u && ("-bet" + u)[0] == '-'
  {
    assert Mark(r)[1] == 'a' && ("-bet" + u)[1] == 'b';
  }

  lemma AlphaCompletesBeta(dotted: bool, n: string)
    requires Digits(n)
    ensures var u := Tail(Plain(Alpha), dotted, n, "");
            Substitute(Hotfix, u) == u && "-bet" + Substitute(Plain(Alpha), u) == Tail(Plain(Beta), false, n, "")
  {
    var u := Tail(Plain(Alpha), dotted, n, "");
    var alpha := Replacement(Plain(Alpha), n, "");
    EarlierRuleKeeps(Hotfix, Plain(Alpha), "", dotted, n, "");
    Replaced(Plain(Alpha), "", dotted, n, "");
    NothingBefore(u);
    NothingBefore(alpha);
    BetaMark(n);
  }

  lemma BetaMark(n: string)
    ensures "-bet" + Replacement(Plain(Alpha), n, "") == Tail(Plain(Beta), false, n, "")
  {
    assert "-bet" + ("a" + n) == "-beta" + n;
    assert Dot(false) + n == n;
  }

  lemma CompletedNormalises(x: string, dotted: bool, n: string)
    requires DashFree(x) && Digits(n)
    ensures Substituted(x + ("-bet" + Tail(Plain(Alpha), dotted, n, ""))) == x + Replacement(Plain(Beta), n, "")
  {
    var u := Tail(Plain(Alpha), dotted, n, "");
    var t, b, y := x + ("-bet" + u), x + Tail(Plain(Beta), false, n, ""), x + Replacement(Plain(Beta), n, "");
    AlphaCompletesBeta(dotted, n);
    BetSkips(Hotfix, x, u);
    BetSkips(Plain(Alpha), x, u);
    Replaced(Plain(Beta), x, false, n, "");
    ReplacementIsDashFree(Plain(Beta), n, "");
    Untouched(Plain(Candidate), y);
    Chain(t, t, b, y, y);
  }

  lemma SpellingsNormalise(v: Version, t: string)
    requires Valid(v) && Spells(v, t)
    ensures Substituted(t) == Print(v)
  {
    DottedIsDashFree(v.base);
    PrintIsDashFree(v);
    UntouchedByAll(Print(v));
    if HasDashed(v) {
      PrintIsReplaced(v);
      var n, m := v.pre.value.1, PostNumber(v);
      DashedNormalises(Dotted(v.base), RuleOf(v), true, n, m);
      DashedNormalises(Dotted(v.base), RuleOf(v), false, n, m);
      CompletedNormalises(Dotted(v.base), true, n);
      CompletedNormalises(Dotted(v.base), false, n);
    }
  }

  // ------------------------------------------------------------------
  // Nothing else normalises

  /** The last character of what a rule writes before its final number. */
  function Stem(r: Rule): char {
    match r
    case Hotfix => 't'
    case Plain(Alpha) => 'a'
    case Plain(Beta) => 'b'
    case Plain(Candidate) => 'c'
  }

  lemma {:induction false} DottedCharacters(parts: seq<string>)
    requires parts != [] && forall i :: 0 <= i < |parts| ==> Digits(parts[i])
    ensures forall i :: 0 <= i < |Dotted(parts)| ==> IsDigit(Dotted(parts)[i]) || Dotted(parts)[i] == '.'
  {
    if |parts| > 1 {
      DottedCharacters(parts[1..]);
    }
  }

  lemma {:induction false} LastOfNumbers(s: string)
    requires forall i :: 0 <= i < |s| ==> IsDigit(s[i]) || s[i] == '.'
    ensures Last(s) == None || Last(s) == Some('.')
  {
    if s != "" && IsDigit(s[|s| - 1]) {
      LastOfNumbers(s[..|s| - 1]);
    }
  }

  lemma LastOfDotted(parts: seq<string>)
    requires parts != [] && forall i :: 0 <= i < |parts| ==> Digits(parts[i])
    ensures Last(Dotted(parts)) == None || Last(Dotted(parts)) == Some('.')
  {
    DottedCharacters(parts);
    LastOfNumbers(Dotted(parts));
  }

  /** The written letters without the last one. */
  function Onset(k: Kind): string {
    if k == Candidate then "r" else ""
  }

  lemma LetterSplit(k: Kind, x: string, n: string)
    ensures x + PreText(Some((k, n))) == (x + Onset(k)) + [Stem(Plain(k))] + n
  {
    assert Letter(k) == Onset(k) + [Stem(Plain(k))];
    Associate(Onset(k), [Stem(Plain(k))], n);
    Associate(x, Onset(k), [Stem(Plain(k))] + n);
    Associate(x + Onset(k), [Stem(Plain(k))], n);
  }

  lemma PostSplit(x: string, m: string)
    ensures x + PostText(Some(m)) == (x + ".pos") + ['t'] + m
  {
    assert ".post" == ".pos" + ['t'];
  }

  lemma LastOfPre(k: Kind, x: string, n: string)
    requires Digits(n)
    ensures Last(x + PreText(Some((k, n)))) == Some(Stem(Plain(k)))
  {
    LetterSplit(k, x, n);
    LastOf(x + Onset(k), Stem(Plain(k)), n);
  }

  lemma LastOfPost(x: string, m: string)
    requires Digits(m)
    ensures Last(x + PostText(Some(m))) == Some('t')
  {
    PostSplit(x, m);
    LastOf(x + ".pos", 't', m);
  }

  lemma LastOfReplacement(r: Rule, x: string, n: string, m: string)
    requires Numbers(r, n, m)
    ensures Last(x + Replacement(r, n, m)) == Some(Stem(r))
  {
    if r.Hotfix? {
      Associate(x, PreText(Some((Alpha, n))), PostText(Some(m)));
      LastOfPost(x + PreText(Some((Alpha, n))), m);
    } else {
      LastOfPre(r.kind, x, n);
    }
  }

  lemma PreIsUnique(v: Version, x: string, k: Kind, n: string)
    requires Valid(v) && Digits(n) && x + PreText(Some((k, n))) == Dotted(v.base) + PreText(v.pre)
    ensures v.pre == Some((k, n)) && x == Dotted(v.base)
  {
    var b := Dotted(v.base);
    LastOfPre(k, x, n);
    LastOfDotted(v.base);
    assert v.pre.None? ==> b + PreText(v.pre) == b;
    if v.pre.Some? {
      var l, e := v.pre.value.0, v.pre.value.1;
      LastOfPre(l, b, e);
      LetterSplit(k, x, n);
      LetterSplit(l, b, e);
      EndsUnique(x + Onset(k), Stem(Plain(k)), n, b + Onset(l), e);
      SameOnset(x, b, Onset(k));
    }
  }

  lemma SameOnset(x: string, y: string, z: string)
    requires x + z == y + z
    ensures x == y
  {
    assert |x| == |y|;
    assert x == (x + z)[..|x|] && y == (y + z)[..|y|];
  }

  lemma PostIsUnique(x: string, m: string, y: string, l: string)
    requires Digits(m) && Digits(l) && x + PostText(Some(m)) == y + PostText(Some(l))
    ensures x == y && m == l
  {
    PostSplit(x, m);
    PostSplit(y, l);
    EndsUnique(x + ".pos", 't', m, y + ".pos", l);
    SameOnset(x, y, ".pos");
  }

  lemma LastOfUnposted(v: Version)
    requires Valid(v)
    ensures Last(Dotted(v.base) + PreText(v.pre)) != Some('t')
  {
    LastOfDotted(v.base);
    assert v.pre.None? ==> Dotted(v.base) + PreText(v.pre) == Dotted(v.base);
    if v.pre.Some? {
      LastOfPre(v.pre.value.0, Dotted(v.base), v.pre.value.1);
    }
  }

  /** A printed version that ends in a replacement is that rule's version. */
  lemma ReplacementIsUnique(v: Version, r: Rule, x: string, n: string, m: string)
    requires Valid(v) && Numbers(r, n, m) && x + Replacement(r, n, m) == Print(v)
    ensures HasDashed(v) && RuleOf(v) == r && x == Dotted(v.base) && n == v.pre.value.1
            && (r.Hotfix? ==> m == PostNumber(v))
  {
    LastOfReplacement(r, x, n, m);
    var front := Dotted(v.base) + PreText(v.pre);
    LastOfUnposted(v);
    if v.post.Some? {
      LastOfPost(front, v.post.value);
      assert r.Hotfix?;
      Associate(x, PreText(Some((Alpha, n))), PostText(Some(m)));
      PostIsUnique(x + PreText(Some((Alpha, n))), m, front, v.post.value);
      PreIsUnique(v, x, Alpha, n);
    } else {
      assert Print(v) == front;
      assert r.Plain?;
      PreIsUnique(v, x, r.kind, n);
    }
  }

  lemma Undo(r: Rule, s: string, v: Version)
    requires Valid(v) && Substitute(r, s) == Print(v)
    ensures s == Print(v) || (HasDashed(v) && RuleOf(v) == r && (s == Dashed(v, true) || s == Dashed(v, false)))
  {
    var x, dotted, n, m := SubstituteBack(r, s);
    if s != Print(v) {
      ReplacementIsUnique(v, r, x, n, m);
      assert Tail(r, dotted, n, m) == Tail(r, dotted, n, PostNumber(v));
    }
  }

  /** The last character of a mark. */
  function MarkEnd(r: Rule): char {
    if r == Plain(Candidate) then 'c' else 'a'
  }

  lemma LastOfTail(k: Kind, x: string, dotted: bool, n: string)
    requires Digits(n)
    ensures Last(x + Tail(Plain(k), dotted, n, "")) == Some(if dotted then '.' else MarkEnd(Plain(k)))
  {
    var mark := Mark(Plain(k));
    var t := x + Tail(Plain(k), dotted, n, "");
    if dotted {
      assert t == (x + mark) + ['.'] + n;
      LastOf(x + mark, '.', n);
    } else {
      MarkSplit(k);
      assert t == (x + mark[..|mark| - 1]) + [MarkEnd(Plain(k))] + n;
      LastOf(x + mark[..|mark| - 1], MarkEnd(Plain(k)), n);
    }
  }

  lemma MarkSplit(k: Kind)
    ensures Mark(Plain(k)) == Mark(Plain(k))[..|Mark(Plain(k))| - 1] + [MarkEnd(Plain(k))]
  {
  }

  lemma OnlyAlphaInBeta(r: Rule, x: string, n: string, m: string, k: Kind, y: string, dotted: bool, e: string)
    requires Before(r, Plain(k)) && Numbers(r, n, m) && Digits(e)
    requires x + Replacement(r, n, m) == y + Tail(Plain(k), dotted, e, "")
    ensures r == Plain(Alpha) && k == Beta && x == y + "-bet" && n == e
  {
    LastOfReplacement(r, x, n, m);
    LastOfTail(k, y, dotted, e);
    SameEnd(r, k, dotted);
    AlphaInBeta(x, n, y, e);
  }

  lemma SameEnd(r: Rule, k: Kind, dotted: bool)
    requires Before(r, Plain(k)) && Stem(r) == if dotted then '.' else MarkEnd(Plain(k))
    ensures r == Plain(Alpha) && k == Beta && !dotted
  {
  }

  /** Only the alpha rule can have written a dashed spelling of a later rule, and only a beta one. */
  lemma Unmoved(r: Rule, s: string, v: Version, dotted: bool)
    requires Valid(v) && HasDashed(v) && Before(r, RuleOf(v)) && Substitute(r, s) == Dashed(v, dotted)
    ensures s == Dashed(v, dotted)
            || (r == Plain(Alpha) && RuleOf(v) == Plain(Beta) && (s == Completed(v, true) || s == Completed(v, false)))
  {
    var x, d, n, m := SubstituteBack(r, s);
    if s != Dashed(v, dotted) {
      var y := Dotted(v.base);
      OnlyAlphaInBeta(r, x, n, m, v.pre.value.0, y, dotted, v.pre.value.1);
      assert Tail(r, d, n, m) == Tail(Plain(Alpha), d, n, "");
      Associate(y, "-bet", Tail(Plain(Alpha), d, n, ""));
    }
  }

  lemma AlphaInBeta(x: string, n: string, y: string, e: string)
    requires Digits(n) && Digits(e)
    requires x + Replacement(Plain(Alpha), n, "") == y + Tail(Plain(Beta), false, e, "")
    ensures x == y + "-bet" && n == e
  {
    BetaMark(e);
    Associate(y, "-bet", Replacement(Plain(Alpha), e, ""));
    LetterSplit(Alpha, x, n);
    LetterSplit(Alpha, y + "-bet", e);
    EndsUnique(x + Onset(Alpha), 'a', n, y + "-bet" + Onset(Alpha), e);
    SameOnset(x, y + "-bet", Onset(Alpha));
  }

  lemma UnmovedCompleted(s: string, v: Version, dotted: bool)
    requires Valid(v) && HasDashed(v) && Substitute(Hotfix, s) == Completed(v, dotted)
    ensures s == Completed(v, dotted)
  {
    var x, d, n, m := SubstituteBack(Hotfix, s);
    if s != Completed(v, dotted) {
      LastOfReplacement(Hotfix, x, n, m);
      Associate(Dotted(v.base), "-bet", Tail(Plain(Alpha), dotted, v.pre.value.1, ""));
      LastOfTail(Alpha, Dotted(v.base) + "-bet", dotted, v.pre.value.1);
      assert false;
    }
  }

  lemma OnlySpellingsNormalise(v: Version, t: string)
    requires Valid(v) && Substituted(t) == Print(v)
    ensures Spells(v, t)
  {
    var a := Substitute(Hotfix, t);
    var b := Substitute(Plain(Alpha), a);
    var c := Substitute(Plain(Beta), b);
    Undo(Plain(Candidate), c, v);
    if c != Print(v) {
      var dotted := c == Dashed(v, true);
      Unmoved(Plain(Beta), b, v, dotted);
      Unmoved(Plain(Alpha), a, v, dotted);
      Unmoved(Hotfix, t, v, dotted);
    } else {
      Undo(Plain(Beta), b, v);
      if b != Print(v) {
        BehindBeta(t, v, b == Dashed(v, true));
      } else {
        BehindAlpha(t, v);
      }
    }
  }

  lemma BehindBeta(t: string, v: Version, dotted: bool)
    requires Valid(v) && HasDashed(v) && RuleOf(v) == Plain(Beta)
    requires Substitute(Plain(Alpha), Substitute(Hotfix, t)) == Dashed(v, dotted)
    ensures Spells(v, t)
  {
    var a := Substitute(Hotfix, t);
    Unmoved(Plain(Alpha), a, v, dotted);
    if a == Dashed(v, dotted) {
      Unmoved(Hotfix, t, v, dotted);
    } else {
      UnmovedCompleted(t, v, a == Completed(v, true));
    }
  }

  lemma BehindAlpha(t: string, v: Version)
    requires Valid(v) && Substitute(Plain(Alpha), Substitute(Hotfix, t)) == Print(v)
    ensures Spells(v, t)
  {
    var a := Substitute(Hotfix, t);
    Undo(Plain(Alpha), a, v);
    if a == Print(v) {
      Undo(Hotfix, t, v);
    } else {
      Unmoved(Hotfix, t, v, a == Dashed(v, true));
    }
  }

  /** Exactly the spellings of a version normalise to it. */
  lemma NormalizeIsExact(s: string, v: Version)
    requires Valid(v)
    ensures Normalize(s) == Ok(Print(v)) <==> Spells(v, Core(s))
  {
    ParsePrint(v);
    if Spells(v, Core(s)) {
      SpellingsNormalise(v, Core(s));
    }
    if Normalize(s) == Ok(Print(v)) {
      OnlySpellingsNormalise(v, Core(s));
    }
  }

  // ------------------------------------------------------------------
  // Spaces and prefixes around a spelling

  lemma {:induction false} StripLeftOf(left: string, t: string)
    requires (forall i :: 0 <= i < |left| ==> IsSpace(left[i])) && t != "" && !IsSpace(t[0])
    ensures StripLeft(left + t) == t
  {
    if left == "" {
      NothingBefore(t);
    } else {
      assert (left + t)[1..] == left[1..] + t;
      StripLeftOf(left[1..], t);
    }
  }

  lemma {:induction false} StripRightOf(t: string, right: string)
    requires (forall i :: 0 <= i < |right| ==> IsSpace(right[i])) && t != "" && !IsSpace(t[|t| - 1])
    ensures StripRight(t + right) == t
  {
    var s := t + right;
    if right == "" {
      assert s == t;
    } else {
      assert s[..|s| - 1] == t + right[..|right| - 1];
      StripRightOf(t, right[..|right| - 1]);
    }
  }

  predicate Spaces(s: string) {
    forall i :: 0 <= i < |s| ==> IsSpace(s[i])
  }

  /** The text between surrounding spaces is what is left, whatever the prefix. */
  lemma CoreOf(left: string, prefix: string, t: string, right: string)
    requires Spaces(left) && Spaces(right) && prefix in {"", "v", RUST_V}
    requires t != "" && IsDigit(t[0]) && IsDigit(t[|t| - 1])
    ensures Core(left + (prefix + t + right)) == t
  {
    var p := prefix + t;
    StripLeftOf(left, p + right);
    StripRightOf(p, right);
    assert p[|p| - 1] == t[|t| - 1];
    UnprefixedOf(prefix, t);
  }

  lemma UnprefixedOf(prefix: string, t: string)
    requires prefix in {"", "v", RUST_V} && t != "" && IsDigit(t[0])
    ensures Unprefixed(prefix + t) == t
  {
    if prefix == "" {
      NothingBefore(t);
    } else if prefix == "v" {
      assert ("v" + t)[1..] == t && ("v" + t)[0] == 'v';
    } else {
      assert (RUST_V + t)[6..] == t;
    }
  }

  predicate DigitEnds(s: string) {
    s != "" && IsDigit(s[0]) && IsDigit(s[|s| - 1])
  }

  lemma {:induction false} DottedEnds(parts: seq<string>)
    requires parts != [] && forall i :: 0 <= i < |parts| ==> Digits(parts[i])
    ensures DigitEnds(Dotted(parts))
  {
    if |parts| > 1 {
      DottedEnds(parts[1..]);
      var rest := Dotted(parts[1..]);
      assert Dotted(parts)[|Dotted(parts)| - 1] == rest[|rest| - 1];
    }
  }

  lemma EndsJoin(x: string, y: string)
    requires DigitEnds(x) && (y == "" || IsDigit(y[|y| - 1]))
    ensures DigitEnds(x + y)
  {
  }

  lemma SpellingEnds(v: Version, t: string)
    requires Valid(v) && Spells(v, t)
    ensures DigitEnds(t)
  {
    var b := Dotted(v.base);
    DottedEnds(v.base);
    EndsJoin(b, PreText(v.pre));
    EndsJoin(b + PreText(v.pre), PostText(v.post));
    if HasDashed(v) {
      var n, m := v.pre.value.1, PostNumber(v);
      TailEnds(RuleOf(v), true, n, m);
      TailEnds(RuleOf(v), false, n, m);
      TailEnds(Plain(Alpha), true, n, "");
      TailEnds(Plain(Alpha), false, n, "");
    }
  }

  lemma TailEnds(r: Rule, dotted: bool, n: string, m: string)
    requires Numbers(r, n, m)
    ensures Tail(r, dotted, n, m) != "" && IsDigit(Tail(r, dotted, n, m)[|Tail(r, dotted, n, m)| - 1])
  {
  }

  /** A spelling normalises between any spaces and after either prefix. */
  lemma WrittenNormalises(left: string, prefix: string, v: Version, t: string, right: string)
    requires Spaces(left) && Spaces(right) && prefix in {"", "v", RUST_V} && Valid(v) && Spells(v, t)
    ensures Normalize(left + (prefix + t + right)) == Ok(Print(v))
  {
    SpellingEnds(v, t);
    CoreOf(left, prefix, t, right);
    NormalizeIsExact(left + (prefix + t + right), v);
  }

  lemma PlainNormalises(prefix: string, v: Version, t: string)
    requires prefix in {"", "v", RUST_V} && Valid(v) && Spells(v, t)
    ensures Normalize(prefix + t) == Ok(Print(v))
  {
    WrittenNormalises("", prefix, v, t, "");
    assert "" + (prefix + t + "") == prefix + t;
  }

  // ------------------------------------------------------------------
  // The laws

  lemma NormalizeIsIdempotent(s: string)
    requires Normalize(s).Ok?
    ensures Normalize(Normalize(s).value) == Normalize(s)
  {
    var n := Normalize(s).value;
    PrintParse(n);
    PlainNormalises("", Parse(n).value, n);
    NothingBefore(n);
  }

  lemma SpelledSpells(v: Version)
    requires Valid(v)
    ensures Spells(v, Spelled(v))
  {
    if HasDashed(v) {
      var b, n := Dotted(v.base), v.pre.value.1;
      if v.post.Some? {
        assert Spelled(v) == b + ("-alpha" + ("." + (n + ("." + v.post.value))));
      } else {
        var name := Name(v.pre.value.0);
        assert Spelled(v) == b + (("-" + name) + ("." + n));
      }
      assert Spelled(v) == Dashed(v, true);
    }
  }

  /** A text has a tag exactly when it normalises, and normalising the tag gives the same version. */
  lemma NormalizeUndoesTag(s: string)
    ensures Tag(s).Ok? <==> Normalize(s).Ok?
    ensures Tag(s).Ok? ==> Normalize(Tag(s).value) == Normalize(s)
  {
    if Normalize(s).Ok? {
      var n := Normalize(s).value;
      var v := Parse(n).value;
      PrintParse(n);
      SpelledSpells(v);
      PlainNormalises(RUST_V, v, Spelled(v));
    }
  }

  /** Two texts share a tag exactly when they share a normal form. */
  lemma TagsAreInjective(s: string, t: string)
    requires Tag(s).Ok? && Tag(t).Ok?
    ensures Tag(s) == Tag(t) <==> Normalize(s) == Normalize(t)
  {
    NormalizeUndoesTag(s);
    NormalizeUndoesTag(t);
  }

  lemma TagIsIdempotent(s: string)
    requires Tag(s).Ok?
    ensures Tag(Tag(s).value) == Tag(s)
  {
    NormalizeUndoesTag(s);
  }

  /** The resolver accepts exactly the runtime-shaped versions; each is its own normal form and has a tag. */
  lemma ResolveIsExact(s: string)
    ensures Resolve(s).Ok? <==> exists v :: Valid(v) && RuntimeShape(v) && Print(v) == s
    ensures Resolve(s).Ok? ==> Normalize(s) == Ok(s) && Tag(s).Ok? && Resolve(s).value == (s, Tag(s).value)
  {
    if v :| Valid(v) && RuntimeShape(v) && Print(v) == s {
      ParsePrint(v);
    }
    if Parse(s).Some? && RuntimeShape(Parse(s).value) {
      PrintParse(s);
      var v := Parse(s).value;
      PlainNormalises("", v, s);
      NothingBefore(s);
      NormalizeUndoesTag(s);
    }
  }
}
