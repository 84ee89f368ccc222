/** Odoo stores the reciprocal of the invoice rate as a binary float. These lemmas say which rates survive the trip:
    the value read back is inverted, normalized to six decimals and compared with the rate the Hub sent. */
module RateRoundTrip {
  import opened Core
  import opened Money
  import opened FxRate

  /** Half a unit in the last place of a binary64 number, relative: 2^-53. */
  const HALF_ULP := 1.0 / 9007199254740992.0

  /** Bound on the relative error of one division at 40 significant digits. */
  const DIVISION_ERROR := 0.000000000000000000000000000000000000001

  /** A stored value within one rounding of the exact reciprocal. */
  predicate StoredReciprocal(stored: real, rate: real) {
    stored > 0.0 && -HALF_ULP <= stored * rate - 1.0 <= HALF_ULP
  }

  lemma MicrosBack(m: int)
    ensures Amount(m, RATE_PLACES) * Scale(RATE_PLACES) == m as real
  {
    QuantumInverse(RATE_PLACES);
    var q, s, x := Quantum(RATE_PLACES), Scale(RATE_PLACES), m as real;
    assert (x * q) * s == x * (q * s);
  }

  /** If the value read back is within half a micro-unit of the rate, normalizing recovers the rate. */
  lemma NormalizesTo(value: real, m: int)
    requires -0.5 < value * Scale(RATE_PLACES) - m as real < 0.5
    ensures NormalizedRate(value) == Amount(m, RATE_PLACES)
  {
    HalfEvenOf(value * Scale(RATE_PLACES), m);
  }

  lemma NormalizesAbove(value: real, m: int)
    requires value * Scale(RATE_PLACES) - m as real > 0.5
    ensures NormalizedRate(value) != Amount(m, RATE_PLACES)
  {
    var k := HalfEven(value * Scale(RATE_PLACES));
    HalfEvenAway(value * Scale(RATE_PLACES), m);
    if Amount(k, RATE_PLACES) == Amount(m, RATE_PLACES) {
      QuantaInjective(k, m, RATE_PLACES);
      assert false;
    }
  }

  /** Inverting `u / rate` gives `rate / u`. */
  lemma InverseInMicros(stored: real, rate: real, m: real, u: real)
    requires stored > 0.0 && stored * rate == u && u > 0.0 && rate * Scale(RATE_PLACES) == m
    ensures (1.0 / stored) * Scale(RATE_PLACES) == m / u
  {
    var inv, s := 1.0 / stored, Scale(RATE_PLACES);
    assert inv * stored == 1.0;
    var w := inv * s;
    assert w * u == m by {
      assert w * u == (inv * s) * (stored * rate);
      assert (inv * s) * (stored * rate) == (inv * stored) * (rate * s);
    }
    assert m / u == w;
  }

  lemma QuotientNear(m: real, u: real, e: real)
    requires m > 0.0 && 0.0 < e < 1.0 && 1.0 - e <= u <= 1.0 + e
    requires 2.0 * m * e < 1.0 - e
    ensures -0.5 < m / u - m < 0.5
  {
    var x := m / u;
    var d, mu, me := x - m, m * u, m * e;
    assert x * u == m;
    var du := d * u;
    assert du == m - mu;
    assert mu <= m + me by { MulLe(u, 1.0 + e, m); var c := (1.0 + e) * m; assert c == m + me; }
    assert m - me <= mu by { MulLe(1.0 - e, u, m); var c := (1.0 - e) * m; assert c == m - me; }
    assert 2.0 * me < 1.0 - e by { assert 2.0 * m * e == 2.0 * me; }
    HalfFromProduct(d, u, du);
  }

  lemma HalfFromProduct(d: real, u: real, du: real)
    requires u > 0.0 && du == d * u && -u < 2.0 * du < u
    ensures -0.5 < d < 0.5
  {
    CancelLt(d, 0.5, u);
    CancelLt(-0.5, d, u);
  }

  lemma QuotientFar(m: real, e: real)
    requires m > 0.0 && 0.0 < e < 1.0 && 2.0 * m * e > 1.0 - e
    ensures m / (1.0 - e) - m > 0.5
  {
    var u := 1.0 - e;
    var x := m / u;
    assert x * u == m;
    var me, d := m * e, x - m;
    var du := d * u;
    assert du == me by { assert d * u == x * u - m * u; assert m * u == m - m * e; }
    assert 2.0 * me > u by { assert 2.0 * m * e == 2.0 * me; }
    if d <= 0.5 {
      MulLe(d, 0.5, u);
      assert false;
    }
  }

  /** The exact reach of the round trip. A rate of `m` micro-units is recovered from every value within half an ulp
      of its reciprocal if and only if `m` is below 2^52. */
  lemma RoundTripExact(m: nat)
    requires m > 0
    ensures m < 4503599627370496 <==>
      forall stored: real :: StoredReciprocal(stored, Amount(m, RATE_PLACES)) ==>
        CompanyRateFromOdoo(Some(stored)) == Some(Amount(m, RATE_PLACES))
  {
    hide NormalizedRate, Amount, Scale;
    var rate := Amount(m, RATE_PLACES);
    MicrosBack(m);
    if m < 4503599627370496 {
      forall stored: real | StoredReciprocal(stored, rate)
        ensures CompanyRateFromOdoo(Some(stored)) == Some(rate)
      {
        RecoveredBelow(m, stored);
      }
    } else {
      var stored := LostAbove(m);
    }
  }

  lemma RecoveredBelow(m: nat, stored: real)
    requires 0 < m < 4503599627370496 && StoredReciprocal(stored, Amount(m, RATE_PLACES))
    ensures CompanyRateFromOdoo(Some(stored)) == Some(Amount(m, RATE_PLACES))
  {
    hide NormalizedRate, Amount, Scale;
    var rate := Amount(m, RATE_PLACES);
    var u := stored * rate;
    MicrosBack(m);
    InverseInMicros(stored, rate, m as real, u);
    QuotientNear(m as real, u, HALF_ULP);
    NormalizesTo(1.0 / stored, m);
  }

  lemma LostAbove(m: nat) returns (stored: real)
    requires m >= 4503599627370496
    ensures StoredReciprocal(stored, Amount(m, RATE_PLACES))
    ensures CompanyRateFromOdoo(Some(stored)) != Some(Amount(m, RATE_PLACES))
  {
    var rate, u := Amount(m, RATE_PLACES), 1.0 - HALF_ULP;
    assert rate > 0.0 by { MulLt(0.0, m as real, Quantum(RATE_PLACES)); }
    hide NormalizedRate, Amount, Scale;
    stored := u / rate;
    assert stored * rate == u;
    assert stored > 0.0;
    MicrosBack(m);
    InverseInMicros(stored, rate, m as real, u);
    QuotientFar(m as real, HALF_ULP);
    NormalizesAbove(1.0 / stored, m);
  }

  // ----- read back through the shortest decimal

  /** The stored float is read as its shortest decimal, which rounds to it: at most another half ulp away. */
  predicate ReadValue(read: real, stored: real) {
    read > 0.0 && -(HALF_ULP * stored) <= read - stored <= HALF_ULP * stored
  }

  /** The largest relative error of two roundings. */
  const TWO_ROUNDINGS := 2.0 * HALF_ULP + HALF_ULP * HALF_ULP

  lemma ProductNear(a: real, b: real, h: real)
    requires 0.0 < h < 1.0 && -h <= a - 1.0 <= h && -(h * a) <= b - a <= h * a
    ensures -(2.0 * h + h * h) <= b - 1.0 <= 2.0 * h + h * h
  {
    var ha, hh := h * a, h * h;
    assert ha <= h + hh by { MulLe(a, 1.0 + h, h); var c := (1.0 + h) * h; assert c == h + hh; }
  }

  /** `x` within `h` of `y`, relative to `y`, scales by a positive factor. */
  lemma ScaledGap(x: real, y: real, h: real, rate: real, xr: real, yr: real)
    requires rate > 0.0 && -(h * y) <= x - y <= h * y && xr == x * rate && yr == y * rate
    ensures -(h * yr) <= xr - yr <= h * yr
  {
    var e, hy := x - y, h * y;
    var er, hyr := e * rate, h * yr;
    assert er == xr - yr;
    assert hy * rate == hyr by { assert (h * y) * rate == h * (y * rate); }
    MulLe(e, hy, rate);
    MulLe(-hy, e, rate);
    assert (-hy) * rate == -hyr;
  }

  lemma TwoRoundings(stored: real, read: real, rate: real)
    requires rate > 0.0 && StoredReciprocal(stored, rate) && ReadValue(read, stored)
    ensures -TWO_ROUNDINGS <= read * rate - 1.0 <= TWO_ROUNDINGS
  {
    var h, a, b := HALF_ULP, stored * rate, read * rate;
    ScaledGap(read, stored, h, rate, b, a);
    ProductNear(a, b, h);
  }

  lemma ReadBelow(m: nat, stored: real, read: real)
    requires 0 < m < 2251799813685248
    requires StoredReciprocal(stored, Amount(m, RATE_PLACES)) && ReadValue(read, stored)
    ensures CompanyRateFromOdoo(Some(read)) == Some(Amount(m, RATE_PLACES))
  {
    var rate := Amount(m, RATE_PLACES);
    assert rate > 0.0 by { MulLt(0.0, m as real, Quantum(RATE_PLACES)); }
    hide NormalizedRate, Amount, Scale;
    var u := read * rate;
    TwoRoundings(stored, read, rate);
    MicrosBack(m);
    InverseInMicros(read, rate, m as real, u);
    QuotientNear(m as real, u, TWO_ROUNDINGS);
    NormalizesTo(1.0 / read, m);
  }

  lemma ReadLostAbove(m: nat) returns (stored: real, read: real)
    requires m >= 2251799813685248
    ensures StoredReciprocal(stored, Amount(m, RATE_PLACES)) && ReadValue(read, stored)
    ensures CompanyRateFromOdoo(Some(read)) != Some(Amount(m, RATE_PLACES))
  {
    var rate, u := Amount(m, RATE_PLACES), 1.0 - HALF_ULP;
    assert rate > 0.0 by { MulLt(0.0, m as real, Quantum(RATE_PLACES)); }
    hide NormalizedRate, Amount, Scale;
    stored := u / rate;
    assert stored * rate == u;
    assert stored > 0.0;
    read := u * stored;
    var uu := u * u;
    assert read * rate == uu by { assert (u * stored) * rate == u * (stored * rate); }
    MicrosBack(m);
    InverseInMicros(read, rate, m as real, uu);
    QuotientFar(m as real, 1.0 - uu);
    NormalizesAbove(1.0 / read, m);
  }

  /** The exact reach of storing and reading back: a rate of `m` micro-units is recovered from every stored float and
      every decimal it may be read as if and only if `m` is below 2^51. */
  lemma ReadBackExact(m: nat)
    requires m > 0
    ensures m < 2251799813685248 <==>
      forall stored: real, read: real ::
        StoredReciprocal(stored, Amount(m, RATE_PLACES)) && ReadValue(read, stored) ==>
          CompanyRateFromOdoo(Some(read)) == Some(Amount(m, RATE_PLACES))
  {
    hide CompanyRateFromOdoo, Amount, StoredReciprocal, ReadValue;
    if m < 2251799813685248 {
      forall stored: real, read: real | StoredReciprocal(stored, Amount(m, RATE_PLACES)) && ReadValue(read, stored)
        ensures CompanyRateFromOdoo(Some(read)) == Some(Amount(m, RATE_PLACES))
      {
        ReadBelow(m, stored, read);
      }
    } else {
      var stored, read := ReadLostAbove(m);
    }
  }

  /** A rate that is lost: 3128291761.202428 is stored as the float 3091593526174047 / 2^83, read as
      3.196632783432029e-10 and inverted to 3128291761.202427. */
  lemma LostRate()
    ensures var rate, stored, read := Amount(3128291761202428, RATE_PLACES),
        3091593526174047.0 / 9671406556917033397649408.0, 3196632783432029.0 / 10000000000000000000000000.0;
      && StoredReciprocal(stored, rate) && ReadValue(read, stored)
      && CompanyRateFromOdoo(Some(read)) == Some(Amount(3128291761202427, RATE_PLACES))
      && Amount(3128291761202427, RATE_PLACES) != rate
  {
    var read := 3196632783432029.0 / 10000000000000000000000000.0;
    assert Pow10(1) == 10 && Pow10(2) == 100 && Pow10(3) == 1000 && Pow10(4) == 10000 && Pow10(5) == 100000;
    assert Pow10(6) == 1000000;
    assert Scale(6) == 1000000.0 && Quantum(6) == 0.000001;
    var back := 1.0 / read;
    assert back * 3196632783432029.0 == 10000000000000000000000000.0;
    NormalizesTo(back, 3128291761202427);
  }

  // ----- rates with more than six decimals

  const LEAST := (1.0 - HALF_ULP) * (1.0 - HALF_ULP)
  const MOST := (1.0 + HALF_ULP) * (1.0 + HALF_ULP)

  /** The rounding tie above `k`, scaled. */
  function Tie(k: int, u: real): real {
    (k as real + 0.5) * u
  }

  /** `x` rounds to `k` between the two ties around it, and on a tie only if `k` is even. */
  predicate Between(below: real, x: real, above: real, k: int) {
    below <= x <= above && (k % 2 != 0 ==> below < x < above)
  }

  /** An amount `x` of micro-units keeps its distance from the ties around it: `1 - LEAST` from the one above and
      `MOST - 1` from the one below, relative to the tie. */
  predicate ClearOfTies(x: real) {
    var k := HalfEven(x);
    Between(Tie(k - 1, MOST), x, Tie(k, LEAST), k)
  }

  /** Rounding a quotient, without the division. */
  lemma QuotientRounds(x: real, u: real, k: int)
    requires u > 0.0
    ensures HalfEven(x / u) == k <==> Between(Tie(k - 1, u), x, Tie(k, u), k)
  {
    var y, low, high := x / u, k as real - 0.5, k as real + 0.5;
    assert y * u == x;
    HalfEvenMeaning(y, k);
    assert Tie(k - 1, u) == low * u && Tie(k, u) == high * u;
    hide Tie, HalfEven;
    Ordered(low, y, u, low * u, x);
    Ordered(y, high, u, x, high * u);
  }

  lemma Ordered(a: real, b: real, u: real, au: real, bu: real)
    requires u > 0.0 && au == a * u && bu == b * u
    ensures (a < b <==> au < bu) && (a == b <==> au == bu)
  {
    if a < b {
      MulLt(a, b, u);
    } else if b < a {
      MulLt(b, a, u);
    }
  }

  lemma TieGrows(k: int, u: real, v: real)
    requires k >= 0 && u <= v
    ensures Tie(k, u) <= Tie(k, v)
  {
    MulLe(u, v, k as real + 0.5);
  }

  lemma TieBelowZero(u: real)
    requires u > 0.0
    ensures Tie(-1, u) < 0.0
  {
  }

  lemma ReadWithin(stored: real, read: real, rate: real)
    requires rate > 0.0 && StoredReciprocal(stored, rate) && ReadValue(read, stored)
    ensures LEAST <= read * rate <= MOST
  {
    var h, a, b := HALF_ULP, stored * rate, read * rate;
    ScaledGap(read, stored, h, rate, b, a);
    MulLe(1.0 - h, a, 1.0 - h);
    MulLe(a, 1.0 + h, 1.0 + h);
    var x, y := a * (1.0 - h), a * (1.0 + h);
    assert x == a - h * a && y == a + h * a;
  }

  lemma NormalizedMicros(a: real, b: real, x: real, y: real)
    requires x == a * Scale(RATE_PLACES) && y == b * Scale(RATE_PLACES)
    ensures NormalizedRate(a) == NormalizedRate(b) <==> HalfEven(x) == HalfEven(y)
  {
    hide Scale, Amount, HalfEven;
    if NormalizedRate(a) == NormalizedRate(b) {
      QuantaInjective(HalfEven(x), HalfEven(y), RATE_PLACES);
    }
  }

  lemma ClearAtEvery(x: real, u: real)
    requires x > 0.0 && LEAST <= u <= MOST && ClearOfTies(x)
    ensures HalfEven(x / u) == HalfEven(x)
  {
    var k := HalfEven(x);
    assert k >= 0 && u > 0.0;
    hide Tie, HalfEven;
    TieGrows(k, LEAST, u);
    if k > 0 {
      TieGrows(k - 1, u, MOST);
    } else {
      TieBelowZero(u);
    }
    QuotientRounds(x, u, k);
  }

  /** What comes back is the rate divided by the error of the reading. */
  lemma ReadBackRounds(rate: real, read: real, u: real)
    requires rate > 0.0 && read > 0.0 && u == read * rate && u > 0.0
    ensures var x := rate * Scale(RATE_PLACES);
      CompanyRateFromOdoo(Some(read)) == Some(NormalizedRate(rate)) <==> HalfEven(x / u) == HalfEven(x)
  {
    hide NormalizedRate, Scale, HalfEven;
    var x := rate * Scale(RATE_PLACES);
    InverseInMicros(read, rate, x, u);
    NormalizedMicros(1.0 / read, rate, x / u, x);
  }

  /** Clear of ties, the rate comes back from every stored float and every decimal it may be read as. */
  lemma ClearSurvives(rate: real, stored: real, read: real)
    requires rate > 0.0 && ClearOfTies(rate * Scale(RATE_PLACES))
    requires StoredReciprocal(stored, rate) && ReadValue(read, stored)
    ensures CompanyRateFromOdoo(Some(read)) == Some(NormalizedRate(rate))
  {
    PositiveMicros(rate);
    ReadWithin(stored, read, rate);
    hide CompanyRateFromOdoo, NormalizedRate, Scale, ClearOfTies, HalfEven;
    var u := read * rate;
    ClearAtEvery(rate * Scale(RATE_PLACES), u);
    ReadBackRounds(rate, read, u);
  }

  lemma PositiveMicros(rate: real)
    requires rate > 0.0
    ensures rate * Scale(RATE_PLACES) > 0.0
  {
    MulLt(0.0, rate, Scale(RATE_PLACES));
  }

  lemma TieAtExtreme(x: real)
    requires !ClearOfTies(x) && x > 0.0
    ensures HalfEven(x / LEAST) != HalfEven(x) || HalfEven(x / MOST) != HalfEven(x)
  {
    hide Tie, HalfEven;
    QuotientRounds(x, LEAST, HalfEven(x));
    QuotientRounds(x, MOST, HalfEven(x));
  }

  /** A reading whose errors are both `f - 1`. */
  lemma Reading(rate: real, f: real) returns (stored: real, read: real)
    requires rate > 0.0 && (f == 1.0 - HALF_ULP || f == 1.0 + HALF_ULP)
    ensures StoredReciprocal(stored, rate) && ReadValue(read, stored) && read * rate == f * f
  {
    stored := f / rate;
    assert stored * rate == f && stored > 0.0;
    read := f * stored;
    assert read * rate == f * f by { assert (f * stored) * rate == f * (stored * rate); }
  }

  /** Otherwise one of the two extreme readings loses it. */
  lemma NearTieIsLost(rate: real) returns (stored: real, read: real)
    requires rate > 0.0 && !ClearOfTies(rate * Scale(RATE_PLACES))
    ensures StoredReciprocal(stored, rate) && ReadValue(read, stored)
    ensures CompanyRateFromOdoo(Some(read)) != Some(NormalizedRate(rate))
  {
    PositiveMicros(rate);
    hide CompanyRateFromOdoo, NormalizedRate, Scale, ClearOfTies, HalfEven, StoredReciprocal;
    var x := rate * Scale(RATE_PLACES);
    TieAtExtreme(x);
    if HalfEven(x / LEAST) != HalfEven(x) {
      stored, read := Reading(rate, 1.0 - HALF_ULP);
      ReadBackRounds(rate, read, LEAST);
    } else {
      stored, read := Reading(rate, 1.0 + HALF_ULP);
      ReadBackRounds(rate, read, MOST);
    }
  }

  /** The exact reach for every stated rate, on the six-decimal grid or off it: the comparison with the normalized rate
      succeeds whatever the two roundings do if and only if the rate is clear of ties. */
  lemma AnyRateExact(rate: real)
    requires rate > 0.0
    ensures ClearOfTies(rate * Scale(RATE_PLACES)) <==>
      forall stored: real, read: real :: StoredReciprocal(stored, rate) && ReadValue(read, stored) ==>
        CompanyRateFromOdoo(Some(read)) == Some(NormalizedRate(rate))
  {
    hide CompanyRateFromOdoo, NormalizedRate, StoredReciprocal, ReadValue, ClearOfTies;
    if ClearOfTies(rate * Scale(RATE_PLACES)) {
      forall stored: real, read: real | StoredReciprocal(stored, rate) && ReadValue(read, stored)
        ensures CompanyRateFromOdoo(Some(read)) == Some(NormalizedRate(rate))
      {
        ClearSurvives(rate, stored, read);
      }
    } else {
      var stored, read := NearTieIsLost(rate);
    }
  }

  /** An everyday rate that is lost: 41.2345645 normalizes to 41.234564, is stored as the float 6990018680849939 / 2^58,
      read as 0.024251499006373644 and inverted to 41.234565. */
  lemma LostTie()
    ensures var rate, stored, read :=
        41.2345645, 6990018680849939.0 / 288230376151711744.0, 0.024251499006373644;
      && StoredReciprocal(stored, rate) && ReadValue(read, stored)
      && NormalizedRate(rate) == Amount(41234564, RATE_PLACES)
      && CompanyRateFromOdoo(Some(read)) == Some(Amount(41234565, RATE_PLACES))
      && Amount(41234565, RATE_PLACES) != Amount(41234564, RATE_PLACES)
  {
    var read := 0.024251499006373644;
    assert Pow10(1) == 10 && Pow10(2) == 100 && Pow10(3) == 1000 && Pow10(4) == 10000 && Pow10(5) == 100000;
    assert Pow10(6) == 1000000;
    assert Scale(6) == 1000000.0 && Quantum(6) == 0.000001;
    var back := 1.0 / read;
    assert back * 0.024251499006373644 == 1.0;
    NormalizesTo(back, 41234565);
  }

  /** The trip the Hub actually makes, divisions included. The 40-digit quotient `d` of 1 / rate is rounded to the
      stored float, the float is read as a decimal, and that is inverted again at 40 digits to `back`; every rate up
      to two billion survives. */
  lemma HubRateRoundTrip(m: nat, d: real, stored: real, read: real, back: real)
    requires 0 < m <= 2000000000000000
    requires d > 0.0 && -DIVISION_ERROR <= d * Amount(m, RATE_PLACES) - 1.0 <= DIVISION_ERROR
    requires -(HALF_ULP * d) <= stored - d <= HALF_ULP * d
    requires ReadValue(read, stored)
    requires -DIVISION_ERROR <= back * read - 1.0 <= DIVISION_ERROR
    ensures NormalizedRate(back) == Amount(m, RATE_PLACES)
  {
    hide NormalizedRate, Amount, Scale;
    var rate := Amount(m, RATE_PLACES);
    MicrosBack(m);
    var w := back * Scale(RATE_PLACES);
    var u := read * rate;
    ReciprocalError(d, stored, read, rate);
    ReadBackProduct(back, read, rate, m as real, w, u);
    ReadBackNear(m as real, u, w, back * read - 1.0);
    NormalizesTo(back, m);
  }

  lemma ReciprocalError(d: real, stored: real, read: real, rate: real)
    requires d > 0.0 && -DIVISION_ERROR <= d * rate - 1.0 <= DIVISION_ERROR
    requires -(HALF_ULP * d) <= stored - d <= HALF_ULP * d
    requires ReadValue(read, stored)
    ensures -0.000000000000000225 <= read * rate - 1.0 <= 0.000000000000000225
  {
    var x, y, z := d * rate, stored * rate, read * rate;
    assert rate > 0.0 by { if rate <= 0.0 { MulLe(rate, 0.0, d); assert false; } }
    ScaledGap(stored, d, HALF_ULP, rate, y, x);
    ScaledGap(read, stored, HALF_ULP, rate, z, y);
  }

  lemma ReadBackProduct(back: real, read: real, rate: real, m: real, w: real, u: real)
    requires rate * Scale(RATE_PLACES) == m && w == back * Scale(RATE_PLACES) && u == read * rate
    ensures w * u == m * (back * read)
  {
    var s := Scale(RATE_PLACES);
    assert (back * s) * (read * rate) == (rate * s) * (back * read);
  }

  lemma ReadBackNear(m: real, u: real, w: real, e: real)
    requires 0.0 < m <= 2000000000000000.0
    requires -0.000000000000000225 <= u - 1.0 <= 0.000000000000000225
    requires -DIVISION_ERROR <= e <= DIVISION_ERROR
    requires w * u == m * (e + 1.0)
    ensures -0.5 < w - m < 0.5
  {
    var d, gap, mu, me := w - m, e + 1.0 - u, m * u, m * (e + 1.0);
    var du, mg := d * u, m * gap;
    assert du == me - mu;
    assert mg == me - mu;
    SmallProduct(m, gap, mg);
    HalfFromProduct(d, u, du);
  }

  lemma SmallProduct(m: real, gap: real, product: real)
    requires 0.0 < m <= 2000000000000000.0 && product == m * gap
    requires -0.000000000000000226 <= gap <= 0.000000000000000226
    ensures -0.46 <= product <= 0.46
  {
    SmallProductAbove(m, gap);
    SmallProductAbove(m, -gap);
    var flipped := m * -gap;
    assert flipped == -product;
  }

  lemma SmallProductAbove(m: real, gap: real)
    requires 0.0 < m <= 2000000000000000.0 && gap <= 0.000000000000000226
    ensures m * gap <= 0.46
  {
    var top, product := 0.000000000000000226 * m, m * gap;
    assert top <= 0.46;
    assert product <= top by { MulLe(gap, 0.000000000000000226, m); }
  }
}
