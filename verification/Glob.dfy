/** The glob matcher of callpolicy.cpp:10-33. */
module Glob {

  /** The language of a pattern: '*' stands for any run of characters, any other character for
      itself. */
  ghost predicate InLanguage(pattern: string, text: string)
    decreases |pattern|
  {
    if pattern == "" then text == ""
    else if pattern[0] == '*' then exists k | 0 <= k <= |text| :: InLanguage(pattern[1..], text[k..])
    else text != "" && text[0] == pattern[0] && InLanguage(pattern[1..], text[1..])
  }

  /** A match of the pattern behind a star can still be sought from `from` on. */
  ghost predicate Later(pattern: string, text: string, from: nat) {
    exists j | from <= j <= |text| :: InLanguage(pattern, text[j..])
  }

  ghost predicate StarFree(s: string) {
    forall i | 0 <= i < |s| :: s[i] != '*'
  }

  lemma {:induction false} LiteralPrefix(literal: string, pattern: string, text: string)
    requires StarFree(literal)
    ensures InLanguage(literal + pattern, text) <==>
            |literal| <= |text| && text[..|literal|] == literal && InLanguage(pattern, text[|literal|..])
    decreases |literal|
  {
    if literal == "" {
      assert literal + pattern == pattern && text[0..] == text;
    } else {
      assert (literal + pattern)[1..] == literal[1..] + pattern;
      if text != "" {
        LiteralPrefix(literal[1..], pattern, text[1..]);
        if |literal| <= |text| {
          assert text[1..][|literal| - 1..] == text[|literal|..];
          assert text[1..][..|literal| - 1] == text[..|literal|][1..];
          assert text[..|literal|] == [text[0]] + text[..|literal|][1..];
          assert literal == [literal[0]] + literal[1..];
        }
      }
    }
  }

  lemma StarMatch(pattern: string, text: string, t: nat)
    requires t <= |text|
    ensures InLanguage("*" + pattern, text[t..]) <==> Later(pattern, text, t)
  {
    assert ("*" + pattern)[1..] == pattern;
    var tail := text[t..];
    if InLanguage("*" + pattern, tail) {
      var k :| 0 <= k <= |tail| && InLanguage(pattern, tail[k..]);
      assert tail[k..] == text[t + k..];
    }
    if Later(pattern, text, t) {
      var j :| t <= j <= |text| && InLanguage(pattern, text[j..]);
      assert tail[j - t..] == text[j..];
    }
  }

  /** Only the last star matters: a match from an earlier star's later position, which has to read
      the same literal again, still leaves a match for the new star. */
  lemma EarlierStarLosesNothing(literal: string, pattern: string, text: string, resume: nat, t: nat)
    requires StarFree(literal) && t == resume + |literal| && t <= |text|
    requires Later(literal + ("*" + pattern), text, resume + 1)
    ensures Later(pattern, text, t)
  {
    var j :| resume + 1 <= j <= |text| && InLanguage(literal + ("*" + pattern), text[j..]);
    LiteralPrefix(literal, "*" + pattern, text[j..]);
    assert text[j..][|literal|..] == text[j + |literal|..];
    StarMatch(pattern, text, j + |literal|);
    var k :| j + |literal| <= k <= |text| && InLanguage(pattern, text[k..]);
  }

  /** At the end of the text no later position has room for the literal read since the star. */
  lemma NoRoom(literal: string, pattern: string, text: string, resume: nat)
    requires StarFree(literal) && resume + |literal| == |text|
    ensures !Later(literal + pattern, text, resume + 1)
  {
    forall j | resume + 1 <= j <= |text| ensures !InLanguage(literal + pattern, text[j..]) {
      LiteralPrefix(literal, pattern, text[j..]);
    }
  }

  lemma OnlyStars(pattern: string, p: nat)
    requires p <= |pattern|
    ensures InLanguage(pattern[p..], "") <==> forall i | p <= i < |pattern| :: pattern[i] == '*'
    decreases |pattern| - p
  {
    if p < |pattern| {
      OnlyStars(pattern, p + 1);
      assert pattern[p..][1..] == pattern[p + 1..];
      assert ""[0..] == "";
    }
  }

  /** What the loop still has to decide: the rest from here, or a later try for the last star. */
  ghost predicate Pending(pattern: string, text: string, p: nat, t: nat, star: int, resume: nat)
    requires p <= |pattern| && t <= |text| && -1 <= star < |pattern|
  {
    InLanguage(pattern[p..], text[t..]) || (star >= 0 && Later(pattern[star + 1..], text, resume + 1))
  }

  /** The bookkeeping of the loop: since the last star, the literal up to `p` has been read. */
  ghost predicate Tracked(pattern: string, text: string, p: nat, t: nat, star: int, resume: nat) {
    && p <= |pattern| && t <= |text| && -1 <= star < p
    && (star < 0 ==> resume == 0)
    && (star >= 0 ==> resume <= t && p - (star + 1) == t - resume && StarFree(pattern[star + 1..p]))
  }

  lemma AtStar(pattern: string, text: string, p: nat, t: nat, star: int, resume: nat)
    requires Tracked(pattern, text, p, t, star, resume) && p < |pattern| && pattern[p] == '*' && t < |text|
    ensures Tracked(pattern, text, p + 1, t, p, t)
    ensures Pending(pattern, text, p, t, star, resume) == Pending(pattern, text, p + 1, t, p, t)
  {
    var rest := pattern[p + 1..];
    assert pattern[p..] == "*" + rest;
    StarMatch(rest, text, t);
    if star >= 0 && Later(pattern[star + 1..], text, resume + 1) {
      assert pattern[star + 1..] == pattern[star + 1..p] + ("*" + rest);
      EarlierStarLosesNothing(pattern[star + 1..p], rest, text, resume, t);
    }
    assert Later(rest, text, t) <==> InLanguage(rest, text[t..]) || Later(rest, text, t + 1);
  }

  lemma AtLiteral(pattern: string, text: string, p: nat, t: nat, star: int, resume: nat)
    requires Tracked(pattern, text, p, t, star, resume) && p < |pattern| && pattern[p] != '*' && t < |text|
    requires pattern[p] == text[t]
    ensures Tracked(pattern, text, p + 1, t + 1, star, resume)
    ensures Pending(pattern, text, p, t, star, resume) == Pending(pattern, text, p + 1, t + 1, star, resume)
  {
    assert pattern[p..][1..] == pattern[p + 1..] && text[t..][1..] == text[t + 1..];
    if star >= 0 { assert pattern[star + 1..p + 1] == pattern[star + 1..p] + [pattern[p]]; }
  }

  lemma AtMismatch(pattern: string, text: string, p: nat, t: nat, star: int, resume: nat)
    requires Tracked(pattern, text, p, t, star, resume) && t < |text|
    requires p == |pattern| || (pattern[p] != '*' && pattern[p] != text[t])
    ensures star < 0 ==> !Pending(pattern, text, p, t, star, resume)
    ensures star >= 0 ==>
              && Tracked(pattern, text, star + 1, resume + 1, star, resume + 1)
              && Pending(pattern, text, p, t, star, resume) ==
                 Pending(pattern, text, star + 1, resume + 1, star, resume + 1)
  {
    if star >= 0 {
      var rest := pattern[star + 1..];
      assert Later(rest, text, resume + 1) <==> InLanguage(rest, text[resume + 1..]) || Later(rest, text, resume + 2);
    }
  }

  lemma AtEnd(pattern: string, text: string, p: nat, star: int, resume: nat)
    requires Tracked(pattern, text, p, |text|, star, resume)
    ensures Pending(pattern, text, p, |text|, star, resume) <==> forall i | p <= i < |pattern| :: pattern[i] == '*'
  {
    assert text[|text|..] == "";
    OnlyStars(pattern, p);
    if star >= 0 {
      assert pattern[star + 1..] == pattern[star + 1..p] + pattern[p..];
      NoRoom(pattern[star + 1..p], pattern[p..], text, resume);
    }
  }

  /** globMatch(): greedy, with the last star as its only backtracking point. */
  method GlobMatch(pattern: string, text: string) returns (matched: bool)
    ensures matched == InLanguage(pattern, text)
  {
    var p, t, star, resume := 0, 0, -1, 0;
    assert pattern[0..] == pattern && text[0..] == text;
    assert InLanguage(pattern, text) == Pending(pattern, text, p, t, star, resume);
    hide InLanguage, Later, StarFree, Pending;
    while t < |text|
      invariant Tracked(pattern, text, p, t, star, resume)
      invariant InLanguage(pattern, text) == Pending(pattern, text, p, t, star, resume)
      decreases |text| - resume, |pattern| - star, |text| - t
    {
      if p < |pattern| && pattern[p] == '*' {
        AtStar(pattern, text, p, t, star, resume);
        star, p := p, p + 1;
        resume := t;
      } else if p < |pattern| && pattern[p] == text[t] {
        AtLiteral(pattern, text, p, t, star, resume);
        p, t := p + 1, t + 1;
      } else if star >= 0 {
        AtMismatch(pattern, text, p, t, star, resume);
        p := star + 1;
        resume := resume + 1;
        t := resume;
      } else {
        AtMismatch(pattern, text, p, t, star, resume);
        return false;
      }
    }
    AtEnd(pattern, text, p, star, resume);
    ghost var trailing := p;
    while p < |pattern| && pattern[p] == '*'
      invariant trailing <= p <= |pattern| && forall i | trailing <= i < p :: pattern[i] == '*'
    {
      p := p + 1;
    }
    matched := p == |pattern|;
  }

  /** Without a star a pattern matches itself only. */
  lemma LiteralPattern(pattern: string, text: string)
    requires StarFree(pattern)
    ensures InLanguage(pattern, text) <==> pattern == text
  {
    LiteralPrefix(pattern, "", text);
    assert pattern + "" == pattern;
    if |pattern| <= |text| && text[|pattern|..] == "" { assert text[..|pattern|] == text; }
  }

  lemma StarMatchesAll(text: string)
    ensures InLanguage("*", text)
  {
    assert "*"[1..] == "" && text[|text|..] == "";
    assert InLanguage("*"[1..], text[|text|..]);
  }
}
