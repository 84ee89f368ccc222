/** The rate Odoo would have used, as it is shown beside the selected one (`_automatic_rate` and
    `company_rate_from_odoo` in `app/billing/fx_rate.py`), with the six decimal places written out. */
module AutomaticRates {
  import opened Core
  import opened Money
  import opened FxRate

  /** Odoo states a usable number of document units for one company unit. */
  predicate Usable(odoo: Option<OdooContext>) {
    odoo.Some? && odoo.value.automaticRate.Some? && odoo.value.automaticRate.value > 0.0
  }

  /** `shown` is `micros` millionths, the number nearest to the inverse of Odoo's rate, the even one on a tie. */
  predicate ToMillionths(rate: real, micros: int, shown: real)
    requires rate > 0.0
  {
    NearestTiesEven(1.0 / rate * 1000000.0, micros) && shown == micros as real / 1000000.0
  }

  /** One millionth-rounding of the inverse is 1: a tie on either side goes to the even 1000000. */
  predicate RoundsToOne(inverse: real) {
    0.9999995 <= inverse <= 1.0000005
  }

  lemma Micro(rate: real)
    ensures NormalizedRate(rate) == HalfEven(rate * 1000000.0) as real / 1000000.0
  {
    assert Pow10(6) == 1000000 by {
      assert Pow10(3) == 1000;
      Pow10Add(3, 3);
    }
    hide HalfEven, Pow10;
    var k := HalfEven(rate * 1000000.0);
    assert Scale(RATE_PLACES) == 1000000.0;
  }

  lemma OneMeaning(inverse: real)
    ensures NormalizedRate(inverse) == NormalizedRate(1.0) <==> RoundsToOne(inverse)
  {
    Micro(inverse);
    Micro(1.0);
    hide NormalizedRate;
    assert HalfEven(1000000.0) == 1000000;
    HalfEvenMeaning(inverse * 1000000.0, 1000000);
  }

  /** Odoo's answer becomes a displayed rate exactly when it is positive and its inverse does not round to 1, Odoo's
      answer for a currency without rates; the displayed rate is the inverse to the nearest millionth, ties even. */
  lemma AutomaticRateExactly(odoo: Option<OdooContext>)
    ensures AutomaticRate(odoo).Some? <==> Usable(odoo) && !RoundsToOne(1.0 / odoo.value.automaticRate.value)
    ensures AutomaticRate(odoo).Some? ==>
      exists micros: int :: ToMillionths(odoo.value.automaticRate.value, micros, AutomaticRate(odoo).value)
  {
    if Usable(odoo) {
      var inverse := 1.0 / odoo.value.automaticRate.value;
      var micros := HalfEven(inverse * 1000000.0);
      Micro(inverse);
      OneMeaning(inverse);
      HalfEvenMeaning(inverse * 1000000.0, micros);
      hide NormalizedRate, HalfEven, NearestTiesEven;
      assert ToMillionths(odoo.value.automaticRate.value, micros, NormalizedRate(inverse));
    }
  }

  /** Odoo's 1.0, its answer for a currency it holds no rate for, is no rate. */
  lemma OneIsNoRate(odoo: Option<OdooContext>)
    requires odoo.Some? && odoo.value.automaticRate == Some(1.0)
    ensures AutomaticRate(odoo).None?
  {
    AutomaticRateExactly(odoo);
  }
}
