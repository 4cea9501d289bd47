/**
 * PricingModel: the blended nightly rate of one room type in one season
 * (`SeasonPricing.equivalent_nightly_rate`). Three tenors are sold: by the
 * night, by the week (price / 7 per night) and by the month (price / 30 per
 * night); the three shares are weights that need not sum to one.
 */
module Pricing {
  import opened Numeric

  datatype SeasonPricing = SeasonPricing(
    pricePerNight: real,
    pricePerWeek: real,
    pricePerMonth: real,
    shareNightly: real,
    shareWeekly: real,
    shareMonthly: real)
  {
    function TotalShare(): real {
      shareNightly + shareWeekly + shareMonthly
    }

    /** The same pricing with every tenor price multiplied by `factor` (the scenario price factor). */
    function ScalePrices(factor: real): SeasonPricing {
      SeasonPricing(pricePerNight * factor, pricePerWeek * factor, pricePerMonth * factor,
                    shareNightly, shareWeekly, shareMonthly)
    }

    /** The same pricing with every share multiplied by `c`. */
    function ScaleShares(c: real): SeasonPricing {
      SeasonPricing(pricePerNight, pricePerWeek, pricePerMonth,
                    shareNightly * c, shareWeekly * c, shareMonthly * c)
    }
  }

  /** Nightly equivalent of a weekly price; a zero price is read as "no price" and gives 0. */
  function WeeklyAsNightly(pricePerWeek: real): real {
    if pricePerWeek != 0.0 then pricePerWeek / 7.0 else 0.0
  }

  /** Nightly equivalent of a monthly price; a zero price is read as "no price" and gives 0. */
  function MonthlyAsNightly(pricePerMonth: real): real {
    if pricePerMonth != 0.0 then pricePerMonth / 30.0 else 0.0
  }

  /** The blended rate: shares normalised by their total, 0 when the total is not positive. */
  function EquivalentNightlyRate(p: SeasonPricing): (rate: real)
    ensures p.TotalShare() <= 0.0 ==> rate == 0.0
  {
    var total := p.TotalShare();
    if total <= 0.0 then 0.0
    else
      var sn := p.shareNightly / total;
      var sw := p.shareWeekly / total;
      var sm := p.shareMonthly / total;
      sn * p.pricePerNight + sw * WeeklyAsNightly(p.pricePerWeek) + sm * MonthlyAsNightly(p.pricePerMonth)
  }

  /** Un-normalised weighted sum of the three nightly equivalents (no zero-price branch). */
  function WeightedSum(p: SeasonPricing): real {
    p.shareNightly * p.pricePerNight + p.shareWeekly * (p.pricePerWeek / 7.0)
      + p.shareMonthly * (p.pricePerMonth / 30.0)
  }

  lemma FractionSum(a: real, b: real, c: real, x: real, y: real, z: real, t: real)
    requires t != 0.0
    ensures (a / t) * x + (b / t) * y + (c / t) * z == (a * x + b * y + c * z) / t
  {
    assert (a / t) * x == (a * x) / t;
    assert (b / t) * y == (b * y) / t;
    assert (c / t) * z == (c * z) / t;
  }

  /**
   * For a positive total share, the blended rate is the weighted mean of the
   * nightly price, weekly price / 7 and monthly price / 30, with the shares as
   * weights; the normalised weights sum to one.
   */
  lemma RateIsWeightedMean(p: SeasonPricing)
    requires p.TotalShare() > 0.0
    ensures EquivalentNightlyRate(p) == WeightedSum(p) / p.TotalShare()
    ensures p.shareNightly / p.TotalShare() + p.shareWeekly / p.TotalShare()
              + p.shareMonthly / p.TotalShare() == 1.0
  {
    var t := p.TotalShare();
    assert WeeklyAsNightly(p.pricePerWeek) == p.pricePerWeek / 7.0;
    assert MonthlyAsNightly(p.pricePerMonth) == p.pricePerMonth / 30.0;
    FractionSum(p.shareNightly, p.shareWeekly, p.shareMonthly,
                p.pricePerNight, p.pricePerWeek / 7.0, p.pricePerMonth / 30.0, t);
    assert p.shareNightly / t + p.shareWeekly / t + p.shareMonthly / t == t / t;
  }

  /**
   * A zero weekly price is not dropped from the mix: its share still counts in
   * the normalising total, and its term contributes 0.
   */
  lemma ZeroWeeklyPriceKeepsItsWeight(p: SeasonPricing)
    requires p.TotalShare() > 0.0 && p.pricePerWeek == 0.0
    ensures EquivalentNightlyRate(p)
              == (p.shareNightly * p.pricePerNight + p.shareMonthly * (p.pricePerMonth / 30.0)) / p.TotalShare()
  {
    RateIsWeightedMean(p);
  }

  /** Likewise for a zero monthly price. */
  lemma ZeroMonthlyPriceKeepsItsWeight(p: SeasonPricing)
    requires p.TotalShare() > 0.0 && p.pricePerMonth == 0.0
    ensures EquivalentNightlyRate(p)
              == (p.shareNightly * p.pricePerNight + p.shareWeekly * (p.pricePerWeek / 7.0)) / p.TotalShare()
  {
    RateIsWeightedMean(p);
  }

  /** Multiplying the three shares by the same positive constant leaves the rate unchanged. */
  lemma ScalingSharesKeepsRate(p: SeasonPricing, c: real)
    requires p.TotalShare() > 0.0 && c > 0.0
    ensures EquivalentNightlyRate(p.ScaleShares(c)) == EquivalentNightlyRate(p)
  {
    var q := p.ScaleShares(c);
    assert q.TotalShare() == c * p.TotalShare();
    RateIsWeightedMean(p);
    RateIsWeightedMean(q);
    assert WeightedSum(q) == c * WeightedSum(p);
    assert (c * WeightedSum(p)) / (c * p.TotalShare()) == WeightedSum(p) / p.TotalShare();
  }

  /** Scaling every tenor price by `factor` (shares unchanged) scales the blended rate by `factor`. */
  lemma ScalingPricesScalesRate(p: SeasonPricing, factor: real)
    ensures EquivalentNightlyRate(p.ScalePrices(factor)) == factor * EquivalentNightlyRate(p)
  {
    var q := p.ScalePrices(factor);
    if p.TotalShare() > 0.0 {
      RateIsWeightedMean(p);
      RateIsWeightedMean(q);
      assert WeightedSum(q) == factor * WeightedSum(p);
      assert (factor * WeightedSum(p)) / p.TotalShare() == factor * (WeightedSum(p) / p.TotalShare());
    }
  }

  /** A sum weighted by non-negative weights is at most total weight times an upper bound. */
  lemma WeightedBound(wa: real, wb: real, wc: real, a: real, b: real, c: real, m: real)
    requires wa >= 0.0 && wb >= 0.0 && wc >= 0.0
    requires 0.0 <= a <= m && 0.0 <= b <= m && 0.0 <= c <= m
    ensures 0.0 <= wa * a + wb * b + wc * c <= (wa + wb + wc) * m
  {
    assert wa * a >= 0.0 && wb * b >= 0.0 && wc * c >= 0.0;
    assert wa * a <= wa * m;
    assert wb * b <= wb * m;
    assert wc * c <= wc * m;
    calc {
      wa * a + wb * b + wc * c;
    <=
      wa * m + wb * m + wc * m;
    ==
      (wa + wb + wc) * m;
    }
  }

  lemma DivideBound(x: real, t: real, m: real)
    requires t > 0.0 && 0.0 <= x <= t * m
    ensures 0.0 <= x / t <= m
  {
    assert x / t <= (t * m) / t;
  }

  /**
   * With non-negative prices and shares the blended rate lies between 0 and
   * the largest of the three nightly equivalents.
   */
  lemma RateBetweenZeroAndLargestTenor(p: SeasonPricing)
    requires p.pricePerNight >= 0.0 && p.pricePerWeek >= 0.0 && p.pricePerMonth >= 0.0
    requires p.shareNightly >= 0.0 && p.shareWeekly >= 0.0 && p.shareMonthly >= 0.0
    ensures 0.0 <= EquivalentNightlyRate(p)
    ensures EquivalentNightlyRate(p) <= Max(p.pricePerNight, Max(p.pricePerWeek / 7.0, p.pricePerMonth / 30.0))
  {
    var t := p.TotalShare();
    if t > 0.0 {
      var m := Max(p.pricePerNight, Max(p.pricePerWeek / 7.0, p.pricePerMonth / 30.0));
      RateIsWeightedMean(p);
      WeightedBound(p.shareNightly, p.shareWeekly, p.shareMonthly,
                    p.pricePerNight, p.pricePerWeek / 7.0, p.pricePerMonth / 30.0, m);
      DivideBound(WeightedSum(p), t, m);
    }
  }
}
