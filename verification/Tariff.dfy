/** Tariff rates: the declared schedule over the defaults, and the rate blended over a window's readings. */
module Tariff {
  import opened Wrappers
  import opened OptimizationModels
  import opened Statistics

  const PEAK_KEY := "peak_rate_inr_per_kwh"
  const OFFPEAK_KEY := "offpeak_rate_inr_per_kwh"

  /** A declared numeric entry wins; a missing schedule, key or number leaves the default. */
  function RateOf(tariff: Option<map<string, TariffEntry>>, key: string, default: real): real {
    if tariff.Some? && key in tariff.value && tariff.value[key].Rate? then tariff.value[key].rate else default
  }

  function PeakRate(ctx: Context): real {
    RateOf(ctx.tariff, PEAK_KEY, ctx.settings.defaultPeakRate)
  }

  function OffpeakRate(ctx: Context): real {
    RateOf(ctx.tariff, OFFPEAK_KEY, ctx.settings.defaultOffpeakRate)
  }

  method PeakAndOffpeakRates(ctx: Context) returns (peakRate: real, offpeakRate: real)
    ensures peakRate == PeakRate(ctx) && offpeakRate == OffpeakRate(ctx)
  {
    peakRate, offpeakRate := ctx.settings.defaultPeakRate, ctx.settings.defaultOffpeakRate;
    if ctx.tariff.Some? && ctx.tariff.value != map[] {
      var schedule := ctx.tariff.value;
      if PEAK_KEY in schedule && schedule[PEAK_KEY].Rate? {
        peakRate := schedule[PEAK_KEY].rate;
      }
      if OFFPEAK_KEY in schedule && schedule[OFFPEAK_KEY].Rate? {
        offpeakRate := schedule[OFFPEAK_KEY].rate;
      }
    }
  }

  function Known(r: Reading): real {
    if r.kwh.Some? then r.kwh.value else 0.0
  }

  function TotalKwh(readings: seq<Reading>): real {
    if readings == [] then 0.0 else Known(readings[0]) + TotalKwh(readings[1..])
  }

  function PeakKwh(readings: seq<Reading>, peakHours: set<int>): real {
    if readings == [] then 0.0
    else (if readings[0].hour in peakHours then Known(readings[0]) else 0.0) + PeakKwh(readings[1..], peakHours)
  }

  function Blend(share: real, peakRate: real, offpeakRate: real): real {
    share * peakRate + (1.0 - share) * offpeakRate
  }

  function BlendedRate(ctx: Context, readings: seq<Reading>): real {
    var total := TotalKwh(readings);
    if total <= 0.0 then OffpeakRate(ctx)
    else Blend(PeakKwh(readings, ctx.settings.peakHours) / total, PeakRate(ctx), OffpeakRate(ctx))
  }

  ghost predicate Between(x: real, a: real, b: real) {
    a <= x <= b || b <= x <= a
  }

  lemma {:induction false} PeakIsPart(readings: seq<Reading>, peakHours: set<int>)
    requires forall r | r in readings :: Known(r) >= 0.0
    ensures 0.0 <= PeakKwh(readings, peakHours) <= TotalKwh(readings)
  {
    if readings != [] {
      PeakIsPart(readings[1..], peakHours);
    }
  }

  lemma BlendIsShift(share: real, p: real, q: real)
    ensures Blend(share, p, q) == q + share * (p - q)
    ensures Blend(share, p, q) == p + (1.0 - share) * (q - p)
  {
    assert share * (p - q) == share * p - share * q;
    assert (1.0 - share) * (q - p) == (1.0 - share) * q - (1.0 - share) * p;
    assert (1.0 - share) * p == p - share * p;
  }

  lemma UnitShareExactly(share: real, d: real)
    requires d > 0.0
    ensures 0.0 <= share * d <= d <==> 0.0 <= share <= 1.0
  {
    ScaledOrder(share, 0.0, d);
    ScaledOrder(1.0, share, d);
    assert 0.0 * d == 0.0 && 1.0 * d == d;
  }

  lemma BetweenByShift(blend: real, low: real, d: real, share: real)
    requires d > 0.0 && blend == low + share * d
    ensures low <= blend <= low + d <==> 0.0 <= share <= 1.0
  {
    UnitShareExactly(share, d);
  }

  /** A blend stays between two different rates exactly when the share stays in the unit interval. */
  lemma BlendBetween(share: real, p: real, q: real)
    requires p != q
    ensures Between(Blend(share, p, q), p, q) <==> 0.0 <= share <= 1.0
  {
    BlendIsShift(share, p, q);
    if p > q {
      BetweenByShift(Blend(share, p, q), q, p - q, share);
    } else {
      BetweenByShift(Blend(share, p, q), p, q - p, 1.0 - share);
    }
  }

  lemma ShareInUnitExactly(part: real, total: real)
    requires total > 0.0
    ensures 0.0 <= part / total <= 1.0 <==> 0.0 <= part <= total
  {
    QuotientTimes(part, total);
    ScaledOrder(part / total, 0.0, total);
    ScaledOrder(1.0, part / total, total);
  }

  /** The blended rate lies between the two rates exactly when the peak energy is a genuine part of the total. */
  lemma BlendedBetweenExactly(ctx: Context, readings: seq<Reading>)
    ensures Between(BlendedRate(ctx, readings), PeakRate(ctx), OffpeakRate(ctx)) <==>
            TotalKwh(readings) <= 0.0
            || PeakRate(ctx) == OffpeakRate(ctx)
            || 0.0 <= PeakKwh(readings, ctx.settings.peakHours) <= TotalKwh(readings)
  {
    var total, part := TotalKwh(readings), PeakKwh(readings, ctx.settings.peakHours);
    if total > 0.0 {
      ShareInUnitExactly(part, total);
      var share := part / total;
      if PeakRate(ctx) != OffpeakRate(ctx) {
        BlendBetween(share, PeakRate(ctx), OffpeakRate(ctx));
      } else {
        assert Blend(share, PeakRate(ctx), PeakRate(ctx)) == PeakRate(ctx);
      }
    }
  }

  /** Non-negative readings always give a blended rate between the two rates. */
  lemma BlendedBetween(ctx: Context, readings: seq<Reading>)
    requires forall r | r in readings :: Known(r) >= 0.0
    ensures Between(BlendedRate(ctx, readings), PeakRate(ctx), OffpeakRate(ctx))
  {
    PeakIsPart(readings, ctx.settings.peakHours);
    BlendedBetweenExactly(ctx, readings);
  }
}
