/** SAPI's scales (sapi5/tvsapi.c): what a step of pitch and of rate comes to, told from
    the numbers themselves. */
module Scales {
  import opened Escapes
  import opened Utterance

  // ---- pitch ------------------------------------------------------------------------

  /** The twentieth power, by squares. */
  function Power20(s: int): int
  {
    var two := s * s;
    var five := two * two * s;
    five * five * (five * five)
  }

  /** Of all whole thousandths `s` is the nearest to 10^((i - 10) / 20): the powers of ten
      lie between those of half a thousandth less and half a thousandth more. */
  predicate NearestStep(s: int, i: nat)
  {
    Power20(2 * s - 1) < 0x10_0000 * Power10(50 + i) < Power20(2 * s + 1)
  }

  lemma {:induction false} PowerSum(a: nat, b: nat)
    ensures Power10(a + b) == Power10(a) * Power10(b)
  {
    if b == 0 {
    } else {
      PowerSum(a, b - 1);
    }
  }

  lemma PowerFifty()
    ensures Power10(50) == 100000000000000000000000000000000000000000000000000
  {
    assert Power10(3) == 1000;
    assert Power10(5) == 100000;
    PowerSum(5, 5);
    PowerSum(10, 10);
    PowerSum(20, 5);
    PowerSum(25, 25);
  }

  lemma StepFits(s: int, i: nat)
    requires Power20(2 * s - 1) < 0x10_0000 * Power10(50 + i) < Power20(2 * s + 1)
    ensures NearestStep(s, i) && Power10(51 + i) == 10 * Power10(50 + i)
  {
    hide Power20;
  }

  lemma LowerSteps()
    ensures forall i :: 0 <= i < 7 ==> NearestStep(PITCH_STEP[i], i)
    ensures Power10(57) == 1000000000000000000000000000000000000000000000000000000000
  {
    hide NearestStep, Power10;
    PowerFifty();
    StepFits(316, 0);
    StepFits(355, 1);
    StepFits(398, 2);
    StepFits(447, 3);
    StepFits(501, 4);
    StepFits(562, 5);
    StepFits(631, 6);
  }

  lemma MiddleSteps()
    ensures forall i :: 7 <= i < 14 ==> NearestStep(PITCH_STEP[i], i)
    ensures Power10(64) == 10000000000000000000000000000000000000000000000000000000000000000
  {
    hide NearestStep, Power10;
    LowerSteps();
    StepFits(708, 7);
    StepFits(794, 8);
    StepFits(891, 9);
    StepFits(1000, 10);
    StepFits(1122, 11);
    StepFits(1259, 12);
    StepFits(1413, 13);
  }

  lemma UpperSteps()
    ensures forall i :: 14 <= i <= 20 ==> NearestStep(PITCH_STEP[i], i)
  {
    hide NearestStep, Power10;
    MiddleSteps();
    StepFits(1585, 14);
    StepFits(1778, 15);
    StepFits(1995, 16);
    StepFits(2239, 17);
    StepFits(2512, 18);
    StepFits(2818, 19);
    StepFits(3162, 20);
  }

  /** A pitch is mapped by a factor for its step, held within 50 and 500, and the factor is
      the one of a scale on which twenty steps are tenfold, to the nearest thousandth.
      Steps past ten either way are the tenth. */
  lemma PitchScale(base: nat, adj: int) returns (s: int)
    ensures NearestStep(s, if adj < -10 then 0 else if adj > 10 then 20 else adj + 10)
    ensures
      var p := base * s / 1000;
      MapPitch(base, adj) == if p < 50 then 50 else if p > 500 then 500 else p
  {
    hide NearestStep, Power10;
    LowerSteps();
    MiddleSteps();
    UpperSteps();
    s := PITCH_STEP[Clamp(adj, -10, 10) + 10];
    assert s > 0;
    assert base * s >= 0;
  }

  lemma StepsGrow(i: nat, j: nat)
    requires i <= j <= 20
    ensures 0 < PITCH_STEP[i] <= PITCH_STEP[j]
  {
  }

  lemma ProductsGrow(a: nat, s: nat, b: nat, t: nat)
    requires a <= b && s <= t
    ensures 0 <= a * s <= b * t
  {
    assert b * t - a * s == (b - a) * t + a * (t - s);
  }

  /** Asking for more never gives less, a voice of a higher pitch is never lower, and no
      step leaves the voice's own pitch as it is. */
  lemma MapPitchMonotone(base: nat, adj: int, base': nat, adj': int)
    requires base <= base' && adj <= adj'
    ensures 50 <= MapPitch(base, adj) <= MapPitch(base', adj') <= 500
    ensures 50 <= base <= 500 ==> MapPitch(base, 0) == base
  {
    var i, j := Clamp(adj, -10, 10) + 10, Clamp(adj', -10, 10) + 10;
    StepsGrow(i, j);
    ProductsGrow(base, PITCH_STEP[i], base', PITCH_STEP[j]);
  }

  // ---- rate -------------------------------------------------------------------------

  /** A rate lies as many tenths of the way to its end of the scale, 46 or 400, as the
      site asks steps, cut to the whole word toward the voice's own. */
  lemma RateScale(base: int, adj: int)
    requires 46 <= base <= 400
    ensures
      var n, r := if adj < -10 then -10 else if adj > 10 then 10 else adj, MapRate(base, adj);
      if n < 0 then 10 * (base - r) <= (base - 46) * -n < 10 * (base - r) + 10
      else 10 * (r - base) <= (400 - base) * n < 10 * (r - base) + 10
  {
    var n := Clamp(adj, -10, 10);
    Scaled(base - RATE_MIN, n, n);
    Scaled(RATE_MAX_EXT - base, n, n);
    assert (base - RATE_MIN) * n == -((base - RATE_MIN) * -n);
  }

  /** What a fragment asks for is its own adjustment of the voice's pitch, and its own and
      the site's together of the voice's rate. */
  lemma FragmentScale(v: Voice, f: Fragment) returns (s: int)
    requires v.pitch >= 0 && 46 <= v.rate <= 400
    ensures NearestStep(s, if f.pitchAdj < -10 then 0 else if f.pitchAdj > 10 then 20 else f.pitchAdj + 10)
    ensures
      var p := v.pitch * s / 1000;
      FragPitch(v, f) == if p < 50 then 50 else if p > 500 then 500 else p
    ensures
      var adj, r := f.rateAdj + v.siteRate, FragRate(v, f);
      var n := if adj < -10 then -10 else if adj > 10 then 10 else adj;
      if n < 0 then 10 * (v.rate - r) <= (v.rate - 46) * -n < 10 * (v.rate - r) + 10
      else 10 * (r - v.rate) <= (400 - v.rate) * n < 10 * (r - v.rate) + 10
  {
    hide NearestStep, MapPitch, MapRate;
    s := PitchScale(v.pitch, f.pitchAdj);
    RateScale(v.rate, f.rateAdj + v.siteRate);
  }
}
