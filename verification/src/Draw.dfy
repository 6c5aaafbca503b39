/** Per-channel signal strength and the weighted draw between candidate channels
  * (src/esb/channel_hop.c). */
module Draw {
  import opened Modulo
  import opened Quarantine

  /** Readings are signed bytes; this one stands for "no sample yet". */
  const NONE: int := 127

  /** Build-time knobs, in the ranges src/Kconfig and the build assertions allow. */
  datatype Config = Config(scale: nat, alpha: nat, min: nat, max: nat)

  ghost predicate Sane(cfg: Config) {
    10 <= cfg.scale <= 100000 && 1 <= cfg.alpha <= cfg.scale && 1 <= cfg.min < cfg.max <= 100000
  }

  predicate IsReading(s: int) {
    -128 <= s <= 127
  }

  // ---- Smoothing ----

  /** Division as C does it, towards zero. */
  function Quotient(a: int, b: nat): int
    requires b > 0
  {
    if a < 0 then -(-a / b) else a / b
  }

  function Smoothed(cfg: Config, old_: int, sample: int): int
    requires cfg.scale > 0 && cfg.alpha <= cfg.scale
  {
    Quotient(cfg.alpha * sample + (cfg.scale - cfg.alpha) * old_, cfg.scale)
  }

  /** A smoothed reading lies between the old one and the sample, so it needs no
    * saturation and, for negative samples, never turns into the "no sample" mark. */
  lemma SmoothedBetween(cfg: Config, old_: int, sample: int)
    requires Sane(cfg)
    ensures old_ <= Smoothed(cfg, old_, sample) <= sample || sample <= Smoothed(cfg, old_, sample) <= old_
  {
    var a, b := cfg.alpha, cfg.scale - cfg.alpha;
    var lo, hi := if old_ < sample then old_ else sample, if old_ < sample then sample else old_;
    var mix := a * sample + b * old_;
    assert lo * cfg.scale <= mix <= hi * cfg.scale by {
      MixAtLeast(a, sample - lo, b, old_ - lo);
      MixAtLeast(a, hi - sample, b, hi - old_);
      assert mix == lo * cfg.scale + (a * (sample - lo) + b * (old_ - lo));
      assert mix == hi * cfg.scale - (a * (hi - sample) + b * (hi - old_));
    }
    QuotientBetween(mix, cfg.scale, lo, hi);
  }

  /** And it is the mix of the two in the configured proportion, cut off towards zero. */
  lemma SmoothedIsMix(cfg: Config, old_: int, sample: int)
    requires Sane(cfg)
    ensures var mix, s := cfg.alpha * sample + (cfg.scale - cfg.alpha) * old_, Smoothed(cfg, old_, sample);
      if mix >= 0 then s >= 0 && s * cfg.scale <= mix < (s + 1) * cfg.scale
      else s <= 0 && (s - 1) * cfg.scale < mix <= s * cfg.scale
  {
    var mix, s := cfg.alpha * sample + (cfg.scale - cfg.alpha) * old_, Smoothed(cfg, old_, sample);
    if mix >= 0 {
      DivModDecompose(mix, cfg.scale);
      MulDistributes(s + 1, s, cfg.scale);
    } else {
      DivModDecompose(-mix, cfg.scale);
      MulDistributes(s, s - 1, cfg.scale);
      MulDistributes(0, -s, cfg.scale);
    }
  }

  lemma MixAtLeast(a: nat, x: nat, b: nat, y: nat)
    ensures a * x + b * y >= 0
  {
  }

  lemma QuotientBetween(a: int, b: nat, lo: int, hi: int)
    requires b > 0 && lo * b <= a <= hi * b
    ensures lo <= Quotient(a, b) <= hi
  {
    var q := Quotient(a, b);
    if a < 0 {
      DivModDecompose(-a, b);
      var n := -a / b;
      assert -n * b == q * b;
    } else {
      DivModDecompose(a, b);
    }
    if q < lo {
      MulAtLeast(lo - q, b);
      MulDistributes(lo, q, b);
    } else if q > hi {
      MulAtLeast(q - hi, b);
      MulDistributes(q, hi, b);
    }
  }

  // ---- Weights ----

  /** `candidate_weight` of a candidate with reading s, when the sampled candidates
    * span lo to hi. */
  function Weight(cfg: Config, s: int, lo: int, hi: int): (w: int)
  {
    if s == NONE || hi <= lo then (cfg.min + cfg.max) / 2
    else cfg.min + (cfg.max - cfg.min) * (s - lo) / (hi - lo)
  }

  /** Stronger candidates weigh no less; the weakest and the strongest get the ends of
    * the configured range; no 32-bit intermediate overflows. */
  lemma WeightMonotone(cfg: Config, s: int, t: int, lo: int, hi: int)
    requires Sane(cfg) && IsReading(lo) && IsReading(hi) && lo < hi && hi != NONE
    requires lo <= s <= t <= hi
    ensures cfg.min <= Weight(cfg, s, lo, hi) <= Weight(cfg, t, lo, hi) <= cfg.max
    ensures Weight(cfg, lo, lo, hi) == cfg.min && Weight(cfg, hi, lo, hi) == cfg.max
    ensures 0 <= (cfg.max - cfg.min) * (s - lo) < 0x8000_0000
  {
    var spread, range := cfg.max - cfg.min, hi - lo;
    MulBetween(spread, s - lo, t - lo, range);
    DivMonotone(0, spread * (s - lo), range);
    DivMonotone(spread * (s - lo), spread * (t - lo), range);
    DivMonotone(spread * (t - lo), spread * range, range);
    DivModUnique(spread * range, spread, 0, range);
    DivModUnique(spread * 0, 0, 0, range);
    assert spread * (s - lo) <= spread * 255 by { MulBetween(spread, s - lo, range, 255); }
  }

  /** In between the weight divides its range as the reading divides the candidates' span,
    * rounded down; without a reading, or with nothing to compare, it is the middle. */
  lemma WeightExactly(cfg: Config, s: int, lo: int, hi: int)
    requires Sane(cfg) && lo <= s <= hi
    ensures s == NONE || hi <= lo ==> 0 <= cfg.min + cfg.max - 2 * Weight(cfg, s, lo, hi) <= 1
    ensures s != NONE && lo < hi ==>
      var above := Weight(cfg, s, lo, hi) - cfg.min;
      above * (hi - lo) <= (cfg.max - cfg.min) * (s - lo) < (above + 1) * (hi - lo)
  {
    if s != NONE && lo < hi {
      var part := (cfg.max - cfg.min) * (s - lo);
      DivModDecompose(part, hi - lo);
      var q := part / (hi - lo);
      assert (q + 1) * (hi - lo) == q * (hi - lo) + (hi - lo);
    }
  }

  lemma MulBetween(a: nat, x: nat, y: nat, z: nat)
    requires x <= y <= z
    ensures 0 <= a * x <= a * y <= a * z
  {
    MulNonNegative(a, x);
    MulNonNegative(a, y - x);
    MulNonNegative(a, z - y);
    assert a * y == a * x + a * (y - x) && a * z == a * y + a * (z - y);
  }

  lemma DivMonotone(x: int, y: int, n: nat)
    requires x <= y && n > 0
    ensures x / n <= y / n
  {
    DivModDecompose(x, n);
    DivModDecompose(y, n);
    if x / n > y / n {
      var p, q := x / n, y / n;
      MulDistributes(p, q, n);
      MulAtLeast(p - q, n);
    }
  }

  /** Weakest sampled reading, or NONE when there is none. */
  function Lowest(samples: seq<int>): (lo: int)
    ensures lo == NONE <==> forall i :: 0 <= i < |samples| ==> samples[i] == NONE
    ensures lo != NONE ==> lo in samples && forall i :: 0 <= i < |samples| && samples[i] != NONE ==> lo <= samples[i]
  {
    if samples == [] then NONE else
      var s, lo := samples[|samples| - 1], Lowest(samples[..|samples| - 1]);
      if s == NONE then lo else if lo == NONE || s < lo then s else lo
  }

  function Highest(samples: seq<int>): (hi: int)
    ensures hi == NONE <==> forall i :: 0 <= i < |samples| ==> samples[i] == NONE
    ensures hi != NONE ==> hi in samples && forall i :: 0 <= i < |samples| && samples[i] != NONE ==> samples[i] <= hi
  {
    if samples == [] then NONE else
      var s, hi := samples[|samples| - 1], Highest(samples[..|samples| - 1]);
      if s == NONE then hi else if hi == NONE || s > hi then s else hi
  }

  function Weights(cfg: Config, samples: seq<int>): (ws: seq<int>)
    ensures |ws| == |samples|
  {
    seq(|samples|, i requires 0 <= i < |samples| => Weight(cfg, samples[i], Lowest(samples), Highest(samples)))
  }

  /** Every weight lies in the configured range, for every set of candidates. */
  lemma WeightsInRange(cfg: Config, samples: seq<int>)
    requires Sane(cfg) && forall i :: 0 <= i < |samples| ==> IsReading(samples[i])
    ensures forall i :: 0 <= i < |samples| ==> cfg.min <= Weights(cfg, samples)[i] <= cfg.max
  {
    var lo, hi := Lowest(samples), Highest(samples);
    forall i | 0 <= i < |samples| ensures cfg.min <= Weights(cfg, samples)[i] <= cfg.max {
      if samples[i] != NONE && lo < hi {
        assert IsReading(lo) && IsReading(hi) by {
          var j :| 0 <= j < |samples| && samples[j] == lo;
          var k :| 0 <= k < |samples| && samples[k] == hi;
        }
        WeightMonotone(cfg, samples[i], hi, lo, hi);
      }
    }
  }

  // ---- The draw ----

  function Sum(ws: seq<int>): int {
    if ws == [] then 0 else Sum(ws[..|ws| - 1]) + ws[|ws| - 1]
  }

  lemma SumOfNone(ws: seq<int>)
    ensures Sum(ws[..0]) == 0
  {
  }

  lemma SumStep(ws: seq<int>, i: nat)
    requires i < |ws|
    ensures Sum(ws[..i + 1]) == Sum(ws[..i]) + ws[i]
  {
    assert ws[..i + 1][..i] == ws[..i];
  }

  lemma {:induction false} SumMonotone(ws: seq<int>, i: nat, j: nat)
    requires i <= j <= |ws| && forall k :: 0 <= k < |ws| ==> ws[k] >= 0
    ensures Sum(ws[..i]) <= Sum(ws[..j])
    decreases j
  {
    if i < j {
      SumStep(ws, j - 1);
      SumMonotone(ws, i, j - 1);
    }
  }

  lemma {:induction false} SumBounds(ws: seq<int>, lo: nat, hi: nat)
    requires forall k :: 0 <= k < |ws| ==> lo <= ws[k] <= hi
    ensures |ws| * lo <= Sum(ws) <= |ws| * hi
  {
    if ws != [] {
      var rest := ws[..|ws| - 1];
      SumBounds(rest, lo, hi);
      assert |ws| * lo == |rest| * lo + lo && |ws| * hi == |rest| * hi + hi;
    }
  }

  /** The total weight of up to 101 candidates is positive and fits a signed 32-bit int. */
  lemma TotalFits(cfg: Config, samples: seq<int>)
    requires Sane(cfg) && 0 < |samples| <= CHANNELS && forall i :: 0 <= i < |samples| ==> IsReading(samples[i])
    ensures 0 < Sum(Weights(cfg, samples)) < 0x8000_0000
  {
    WeightsInRange(cfg, samples);
    SumBounds(Weights(cfg, samples), 1, 100000);
  }

  /** Index i owns the residue r: the interval of r in the running sum of the weights. */
  predicate Owns(ws: seq<int>, i: nat, r: int)
    requires i < |ws|
  {
    Sum(ws[..i]) <= r < Sum(ws[..i + 1])
  }

  lemma OwnerIsUnique(ws: seq<int>, i: nat, j: nat, r: int)
    requires i < |ws| && j < |ws| && forall k :: 0 <= k < |ws| ==> ws[k] >= 0
    requires Owns(ws, i, r) && Owns(ws, j, r)
    ensures i == j
  {
    if i < j {
      SumMonotone(ws, i + 1, j);
    } else if j < i {
      SumMonotone(ws, j + 1, i);
    }
  }

  ghost function Interval(lo: int, hi: int): (rs: set<int>)
    requires lo <= hi
    ensures |rs| == hi - lo && forall r :: r in rs <==> lo <= r < hi
    decreases hi - lo
  {
    if lo == hi then {} else Interval(lo, hi - 1) + {hi - 1}
  }

  /** Of the residues 0..total-1, exactly weight-many fall to each index. */
  lemma ShareIsWeight(ws: seq<int>, i: nat)
    requires i < |ws| && forall k :: 0 <= k < |ws| ==> ws[k] >= 0
    ensures |set r: int | 0 <= r < Sum(ws) && Owns(ws, i, r)| == ws[i]
  {
    SumStep(ws, i);
    SumMonotone(ws, 0, i);
    SumMonotone(ws, i + 1, |ws|);
    assert ws[..|ws|] == ws && Sum(ws[..0]) == 0;
    assert (set r: int | 0 <= r < Sum(ws) && Owns(ws, i, r)) == Interval(Sum(ws[..i]), Sum(ws[..i + 1]));
  }

  /** The residue a PRNG word draws. */
  function Residue(cfg: Config, samples: seq<int>, draw: nat): (r: int)
    requires Sane(cfg) && 0 < |samples| <= CHANNELS && forall i :: 0 <= i < |samples| ==> IsReading(samples[i])
    ensures 0 <= r < Sum(Weights(cfg, samples))
  {
    TotalFits(cfg, samples);
    draw % Sum(Weights(cfg, samples))
  }

  // ---- The tracker ----

  ghost predicate InBand(candidates: seq<nat>) {
    forall i :: 0 <= i < |candidates| ==> candidates[i] < CHANNELS
  }

  function Samples(readings: seq<int>, candidates: seq<nat>): (samples: seq<int>)
    requires |readings| == CHANNELS && InBand(candidates)
    ensures |samples| == |candidates|
  {
    seq(|candidates|, i requires 0 <= i < |candidates| => readings[candidates[i]])
  }

  /** `struct channel_rssi_state` */
  class Tracker {
    const ewma: array<int>

    ghost predicate Valid()
      reads this, ewma
    {
      ewma.Length == CHANNELS && forall i :: 0 <= i < CHANNELS ==> IsReading(ewma[i])
    }

    /** `channel_rssi_reset` */
    constructor ()
      ensures Valid() && fresh(ewma) && forall i :: 0 <= i < CHANNELS ==> ewma[i] == NONE
    {
      ewma := new int[CHANNELS](_ => NONE);
    }

    /** `channel_rssi_update` */
    method Update(cfg: Config, channel: nat, sample: int)
      requires Valid() && Sane(cfg) && IsReading(sample)
      modifies ewma
      ensures Valid()
      ensures forall i :: 0 <= i < CHANNELS && i != channel ==> ewma[i] == old(ewma[i])
      ensures channel < CHANNELS && sample < 0 ==> ewma[channel] != NONE
      ensures channel < CHANNELS && old(ewma[channel]) == NONE ==> ewma[channel] == sample
      ensures channel < CHANNELS && old(ewma[channel]) != NONE
           ==> ewma[channel] == Smoothed(cfg, old(ewma[channel]), sample)
    {
      if channel >= CHANNELS {
        return;
      }
      if ewma[channel] == NONE {
        ewma[channel] := sample;
        return;
      }
      SmoothedBetween(cfg, ewma[channel], sample);
      ewma[channel] := Quotient(cfg.alpha * sample + (cfg.scale - cfg.alpha) * ewma[channel], cfg.scale);
    }

    /** The first loop of `weighted_index`. */
    method Span(candidates: seq<nat>) returns (any: bool, lo: int, hi: int)
      requires Valid() && InBand(candidates)
      ensures any == (Lowest(Samples(ewma[..], candidates)) != NONE)
      ensures any ==> lo == Lowest(Samples(ewma[..], candidates)) && hi == Highest(Samples(ewma[..], candidates))
    {
      ghost var samples := Samples(ewma[..], candidates);
      lo, hi, any := 0, 0, false;
      for i := 0 to |candidates|
        invariant any == (Lowest(samples[..i]) != NONE)
        invariant any ==> lo == Lowest(samples[..i]) && hi == Highest(samples[..i])
      {
        assert samples[..i + 1][..i] == samples[..i];
        var s := ewma[candidates[i]];
        if s != NONE {
          if !any {
            lo, hi, any := s, s, true;
          } else {
            if s < lo { lo := s; }
            if s > hi { hi := s; }
          }
        }
      }
      assert samples[..|candidates|] == samples;
    }

    /** The summing loop of `weighted_index`. */
    method Total(cfg: Config, candidates: seq<nat>, lo: int, hi: int, ghost ws: seq<int>) returns (total: int)
      requires Valid() && InBand(candidates) && |ws| == |candidates|
      requires forall i :: 0 <= i < |ws| ==> ws[i] == Weight(cfg, ewma[candidates[i]], lo, hi)
      ensures total == Sum(ws)
    {
      hide Weight, Sum;
      total := 0;
      SumOfNone(ws);
      for i := 0 to |candidates|
        invariant total == Sum(ws[..i])
      {
        SumStep(ws, i);
        total := total + Weight(cfg, ewma[candidates[i]], lo, hi);
      }
      assert ws[..|ws|] == ws;
    }

    /** The walking loop of `weighted_index`. The source's closing `count - 1` is dead: the
      * last prefix sum is the total. */
    method Walk(cfg: Config, candidates: seq<nat>, lo: int, hi: int, ghost ws: seq<int>, residue: int) returns (index: nat)
      requires Valid() && InBand(candidates) && |ws| == |candidates|
      requires forall i :: 0 <= i < |ws| ==> ws[i] == Weight(cfg, ewma[candidates[i]], lo, hi)
      requires 0 <= residue < Sum(ws)
      ensures index < |candidates| && Owns(ws, index, residue)
    {
      hide Weight, Sum;
      var r := residue;
      SumOfNone(ws);
      assert ws[..|ws|] == ws;
      for i := 0 to |candidates|
        invariant r == residue - Sum(ws[..i]) >= 0
      {
        SumStep(ws, i);
        r := r - Weight(cfg, ewma[candidates[i]], lo, hi);
        if r < 0 {
          return i;
        }
      }
      assert false;
    }

    /** `weighted_index`: the PRNG word `draw`, taken modulo the total weight, falls into
      * the interval of the index returned. Without any sample the draw is uniform. */
    method WeightedIndex(cfg: Config, candidates: seq<nat>, draw: nat) returns (index: nat)
      requires Valid() && Sane(cfg) && 0 < |candidates| <= CHANNELS
      requires InBand(candidates)
      ensures index < |candidates|
      ensures var samples := Samples(ewma[..], candidates);
        if Lowest(samples) == NONE then index == draw % |candidates|
        else Owns(Weights(cfg, samples), index, Residue(cfg, samples, draw))
    {
      hide Weight, Sum, Owns, Lowest, Highest;
      ghost var samples := Samples(ewma[..], candidates);
      var any, lo, hi := Span(candidates);
      if !any {
        return draw % |candidates|;
      }
      ghost var ws := Weights(cfg, samples);
      var total := Total(cfg, candidates, lo, hi, ws);
      TotalFits(cfg, samples);
      index := Walk(cfg, candidates, lo, hi, ws, draw % total);
    }
  }
}
