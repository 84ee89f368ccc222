/** Shared vocabulary: optional values, text trimming, sums, mapping and filtering. */
module Core {

  datatype Option<+T> = None | Some(value: T)

  /** Python truthiness of an optional text after `strip()`: absent, empty and blank all count as missing. */
  predicate IsSpace(c: char) {
    c == ' ' || c == '\t' || c == '\n' || c == '\r'
  }

  function StripLeft(s: string): string {
    if s == [] then [] else if IsSpace(s[0]) then StripLeft(s[1..]) else s
  }

  function StripRight(s: string): string {
    if s == [] then [] else if IsSpace(s[|s| - 1]) then StripRight(s[..|s| - 1]) else s
  }

  function Strip(s: string): string {
    StripRight(StripLeft(s))
  }

  predicate Blank(s: Option<string>) {
    s.None? || Strip(s.value) == ""
  }

  /** `_clean`: the stripped text, or nothing when it is blank. */
  function Clean(s: Option<string>): Option<string> {
    if Blank(s) then None else Some(Strip(s.value))
  }

  predicate PositiveId(id: Option<int>) {
    id.Some? && id.value > 0
  }

  function AbsR(x: real): real {
    if x < 0.0 then -x else x
  }

  function Max(a: int, b: int): int {
    if a < b then b else a
  }

  /** Python `sum(xs, Decimal("0"))`. */
  function Sum(xs: seq<real>): real {
    if xs == [] then 0.0 else Sum(xs[..|xs| - 1]) + xs[|xs| - 1]
  }

  lemma SumAppend(xs: seq<real>, x: real)
    ensures Sum(xs + [x]) == Sum(xs) + x
  {
  }

  function Times(d: real, n: nat): real {
    d * n as real
  }

  lemma TimesNext(d: real, n: nat)
    ensures Times(d, 0) == 0.0 && Times(d, n + 1) == Times(d, n) + d
  {
    assert (n + 1) as real == n as real + 1.0;
  }

  /** Two sums whose terms differ by at most `d` each differ by at most `d` per term. */
  lemma {:induction false} SumsClose(xs: seq<real>, ys: seq<real>, d: real)
    requires |xs| == |ys|
    requires forall i :: 0 <= i < |xs| ==> -d <= xs[i] - ys[i] <= d
    ensures -Times(d, |xs|) <= Sum(xs) - Sum(ys) <= Times(d, |xs|)
  {
    hide Times;
    if xs == [] {
      TimesNext(d, 0);
    } else {
      var n := |xs| - 1;
      SumsClose(xs[..n], ys[..n], d);
      TimesNext(d, n);
    }
  }

  /** A sum of absolute values bounds the absolute value of the sum, with equality when no sign disagrees. */
  lemma {:induction false} SumAbs(xs: seq<real>, ys: seq<real>)
    requires |xs| == |ys|
    requires forall i :: 0 <= i < |xs| ==> ys[i] == AbsR(xs[i])
    ensures AbsR(Sum(xs)) <= Sum(ys)
    ensures (forall i :: 0 <= i < |xs| ==> xs[i] >= 0.0) ==> Sum(xs) == Sum(ys) && 0.0 <= Sum(xs)
    ensures (forall i :: 0 <= i < |xs| ==> xs[i] <= 0.0) ==> Sum(xs) == -Sum(ys) && Sum(xs) <= 0.0
  {
    if xs != [] {
      var n := |xs| - 1;
      SumAbs(xs[..n], ys[..n]);
      assert forall i :: 0 <= i < n ==> xs[..n][i] == xs[i];
    }
  }

  function Map<A, B>(f: A -> B, xs: seq<A>): (ys: seq<B>)
    ensures |ys| == |xs|
    ensures forall i :: 0 <= i < |xs| ==> ys[i] == f(xs[i])
  {
    seq(|xs|, i requires 0 <= i < |xs| => f(xs[i]))
  }

  function Filter<A(!new)>(p: A -> bool, xs: seq<A>): (ys: seq<A>)
    ensures forall y :: y in ys <==> y in xs && p(y)
    ensures |ys| <= |xs|
  {
    if xs == [] then []
    else
      var rest := Filter(p, xs[1..]);
      if p(xs[0]) then [xs[0]] + rest else rest
  }

  lemma {:induction false} FilterConcat<A(!new)>(p: A -> bool, xs: seq<A>, ys: seq<A>)
    ensures Filter(p, xs + ys) == Filter(p, xs) + Filter(p, ys)
  {
    if xs == [] {
      assert xs + ys == ys;
    } else {
      assert (xs + ys)[1..] == xs[1..] + ys;
      FilterConcat(p, xs[1..], ys);
    }
  }

  predicate Distinct<T(==)>(xs: seq<T>) {
    forall i, j :: 0 <= i < j < |xs| ==> xs[i] != xs[j]
  }
}
