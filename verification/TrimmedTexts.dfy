/** What trimming, blank texts and currency codes mean (`str.strip`, `_clean` and `_currency` across the billing and
    advisory code). */
module TrimmedTexts {
  import opened Core
  import opened FxRate

  predicate White(c: char) {
    c in {' ', '\t', '\n', '\r'}
  }

  predicate AllWhite(s: string) {
    forall i :: 0 <= i < |s| ==> White(s[i])
  }

  predicate NoWhiteEnds(t: string) {
    t != "" ==> !White(t[0]) && !White(t[|t| - 1])
  }

  /** `t` is what remains of `s` between whitespace. */
  predicate Inside(s: string, t: string, before: string, after: string) {
    s == before + t + after && AllWhite(before) && AllWhite(after) && NoWhiteEnds(t)
  }

  lemma {:induction false} LeftMeaning(s: string) returns (before: string)
    ensures s == before + StripLeft(s) && AllWhite(before)
    ensures StripLeft(s) != "" ==> !White(StripLeft(s)[0])
  {
    if s != [] && IsSpace(s[0]) {
      var rest := LeftMeaning(s[1..]);
      before := [s[0]] + rest;
      assert s == [s[0]] + s[1..];
    } else {
      before := "";
    }
  }

  lemma {:induction false} RightMeaning(s: string) returns (after: string)
    ensures s == StripRight(s) + after && AllWhite(after)
    ensures StripRight(s) != "" ==> !White(StripRight(s)[|StripRight(s)| - 1]) && StripRight(s)[0] == s[0]
  {
    if s != [] && IsSpace(s[|s| - 1]) {
      var rest := RightMeaning(s[..|s| - 1]);
      after := rest + [s[|s| - 1]];
      assert s == s[..|s| - 1] + [s[|s| - 1]];
    } else {
      after := "";
      assert s == s + "";
    }
  }

  lemma Trimmed(s: string) returns (before: string, after: string)
    ensures Inside(s, Strip(s), before, after)
  {
    before := LeftMeaning(s);
    after := RightMeaning(StripLeft(s));
  }

  lemma Edges(s: string, t: string, before: string, after: string)
    requires Inside(s, t, before, after)
    ensures var a := |before|;
      && a + |t| <= |s| && t == s[a..a + |t|]
      && (forall i :: 0 <= i < |s| && (i < a || i >= a + |t|) ==> White(s[i]))
      && (t != "" ==> !White(s[a]) && !White(s[a + |t| - 1]))
  {
    var a := |before|;
    assert forall i :: 0 <= i < a ==> s[i] == before[i];
    assert forall i :: a + |t| <= i < |s| ==> s[i] == after[i - a - |t|];
  }

  lemma SameInside(s: string, t: string, a: string, b: string, u: string, c: string, d: string)
    requires Inside(s, t, a, b) && Inside(s, u, c, d)
    ensures t == u
  {
    Edges(s, t, a, b);
    Edges(s, u, c, d);
    hide White, Inside;
  }

  /** Trimming leaves exactly the text inside the surrounding whitespace. */
  lemma StripExactly(s: string, t: string)
    ensures Strip(s) == t <==> exists before, after :: Inside(s, t, before, after)
  {
    var b, a := Trimmed(s);
    if before, after :| Inside(s, t, before, after) {
      SameInside(s, t, before, after, Strip(s), b, a);
    }
  }

  /** A text is missing when it is absent or all whitespace; otherwise its trimmed form is used. */
  lemma CleanExactly(s: Option<string>)
    ensures Blank(s) <==> s.None? || AllWhite(s.value)
    ensures Clean(s) == if s.None? || AllWhite(s.value) then None else Some(Strip(s.value))
  {
    if s.Some? {
      var before, after := Trimmed(s.value);
      if Strip(s.value) != "" {
        assert s.value[|before|] == Strip(s.value)[0];
      } else {
        assert s.value == before + after;
      }
    }
  }

  predicate Lower(c: char) {
    c in "abcdefghijklmnopqrstuvwxyz"
  }

  /** A currency code is its trimmed text with exactly the small letters made capital. */
  lemma CurrencyExactly(code: string, i: nat)
    requires i < |Strip(code)|
    ensures |Currency(code)| == |Strip(code)|
    ensures var from, to := Strip(code)[i], Currency(code)[i];
      if Lower(from) then 'A' <= to <= 'Z' && to as int - 65 == from as int - 97 else to == from
  {
    hide Strip;
    SmallLetters(Strip(code)[i]);
  }

  lemma SmallLetters(c: char)
    ensures Lower(c) <==> 97 <= c as int <= 122
  {
    var letters := "abcdefghijklmnopqrstuvwxyz";
    assert forall k :: 0 <= k < 26 ==> letters[k] as int == 97 + k;
    if 97 <= c as int <= 122 {
      assert letters[c as int - 97] == c;
    }
  }
}
