/** What the ambient-light filter decides and returns, stated from the event, the configuration and the earlier state
    alone: a second description of the filter that does not share its intermediate functions. */
module AlsMeaning {
  import opened Basics
  import opened SensorTypes
  import opened AreaCapture
  import opened AlsModel
  import opened RealFacts

  function Positive(x: real): real {
    if x > 0.0 then x else 0.0
  }

  // ---- The light of the screen ----

  function Power(x: real, n: nat): real {
    if n == 0 then 1.0 else x * Power(x, n - 1)
  }

  /** A polynomial with the highest coefficient first, as a sum of powers. */
  function Polynomial(coefs: seq<real>, x: real): real {
    if coefs == [] then 0.0 else coefs[0] * Power(x, |coefs| - 1) + Polynomial(coefs[1..], x)
  }

  lemma {:induction false} OneMoreCoefficient(coefs: seq<real>, coef: real, x: real)
    ensures Polynomial(coefs + [coef], x) == Polynomial(coefs, x) * x + coef
  {
    if coefs == [] {
      assert Polynomial([coef], x) == coef * Power(x, 0) + Polynomial([coef][1..], x);
      assert [coef][1..] == [] && coefs + [coef] == [coef];
    } else {
      OneMoreCoefficient(coefs[1..], coef, x);
      assert (coefs + [coef])[1..] == coefs[1..] + [coef];
      Distribute(coefs[0], Power(x, |coefs| - 1), Polynomial(coefs[1..], x), x);
    }
  }

  lemma Distribute(a: real, power: real, rest: real, x: real)
    ensures (a * power + rest) * x == a * (x * power) + rest * x
  {
  }

  /** The loop over the coefficients evaluates the polynomial. */
  lemma {:induction false} HornerIsPolynomial(coefs: seq<real>, x: real)
    ensures Horner(coefs, x) == Polynomial(coefs, x)
  {
    if coefs != [] {
      var n := |coefs| - 1;
      HornerIsPolynomial(coefs[..n], x);
      OneMoreCoefficient(coefs[..n], coefs[n], x);
      assert coefs[..n] + [coefs[n]] == coefs;
    }
  }

  /** The polynomial of a channel, a cubic, at brightness `x` of that channel, times its factor. */
  function Term(conf: Config, x: real, i: nat): real
    requires Shape(conf) && i < 4
  {
    Polynomial(conf.poly[i], x) * conf.luxPostmul[i]
  }

  /** What the colour terms exceed the white term by; a negative colour term counts as none. */
  function Excess(red: real, green: real, blue: real, white: real): real {
    Positive(red) + Positive(green) + Positive(blue) - white
  }

  lemma ChannelLightIsTerm(conf: Config, rgbw: seq<real>, i: nat)
    requires Shape(conf) && |rgbw| == 4 && i < 4
    ensures ChannelLight(conf, rgbw, i) == Term(conf, rgbw[i], i)
  {
    HornerIsPolynomial(conf.poly[i], rgbw[i]);
  }

  function Gray(conf: Config, rgb: Rgb): real
    requires Shape(conf)
  {
    rgb.r * conf.weights[0] + rgb.g * conf.weights[1] + rgb.b * conf.weights[2]
  }

  /** `red`, `green`, `blue` and `white` are the terms of the four channels. */
  predicate AreTerms(conf: Config, rgb: Rgb, red: real, green: real, blue: real, white: real)
    requires Shape(conf)
  {
    red == Term(conf, rgb.r, 0) && green == Term(conf, rgb.g, 1) && blue == Term(conf, rgb.b, 2)
    && white == Term(conf, Gray(conf, rgb), 3)
  }

  lemma TermsAreLights(conf: Config, rgb: Rgb, red: real, green: real, blue: real, white: real)
    requires Shape(conf) && AreTerms(conf, rgb, red, green, blue, white)
    ensures var rgbw := Rgbw(conf, rgb);
            && ChannelLight(conf, rgbw, 0) == red && ChannelLight(conf, rgbw, 1) == green
            && ChannelLight(conf, rgbw, 2) == blue && ChannelLight(conf, rgbw, 3) == white
  {
    var rgbw := Rgbw(conf, rgb);
    assert rgbw[3] == Gray(conf, rgb);
    ChannelLightIsTerm(conf, rgbw, 0);
    ChannelLightIsTerm(conf, rgbw, 1);
    ChannelLightIsTerm(conf, rgbw, 2);
    ChannelLightIsTerm(conf, rgbw, 3);
  }

  lemma ScreenLightIsExcess(conf: Config, rgbw: seq<real>, red: real, green: real, blue: real, white: real)
    requires Shape(conf) && |rgbw| == 4
    requires ChannelLight(conf, rgbw, 0) == red && ChannelLight(conf, rgbw, 1) == green
    requires ChannelLight(conf, rgbw, 2) == blue && ChannelLight(conf, rgbw, 3) == white
    ensures ScreenLight(conf, rgbw, |rgbw|) == Excess(red, green, blue, white)
  {
    assert ScreenLight(conf, rgbw, 0) == 0.0;
    assert ScreenLight(conf, rgbw, 1) == Positive(red);
    assert ScreenLight(conf, rgbw, 2) == Positive(red) + Positive(green);
    assert ScreenLight(conf, rgbw, 3) == Positive(red) + Positive(green) + Positive(blue);
  }

  /** `c` is `x` when that lies between the bounds, otherwise the bound that `x` crosses. */
  predicate Clamps(x: real, low: real, high: real, c: real) {
    && (low <= x <= high ==> c == x)
    && (low <= high < x ==> c == high)
    && (x < low <= high ==> c == low)
    && (high < low ==> c == low)
  }

  lemma MaxOfMinClamps(x: real, low: real, high: real)
    ensures Clamps(x, low, high, RealMax(RealMin(x, high), low))
  {
  }

  lemma ClampsInOrder(x: real, x': real, low: real, high: real, c: real, c': real)
    requires Clamps(x, low, high, c) && Clamps(x', low, high, c') && x <= x'
    ensures c <= c'
  {
  }

  /** The two bounds of the correction. */
  predicate AreBounds(conf: Config, rgb: Rgb, brightness: real, gamma: real -> real, low: real, full: real)
    requires Shape(conf)
  {
    full == conf.maxLux[3] * brightness / conf.maxBrightness && low == gamma(Gray(conf, rgb) / 255.0) * full
  }

  lemma BoundsAreEstimates(conf: Config, rgb: Rgb, brightness: real, gamma: real -> real, low: real, full: real)
    requires Shape(conf) && AreBounds(conf, rgb, brightness, gamma, low, full)
    ensures low == GammaEstimate(conf, rgb, brightness, gamma) && full == FullWhite(conf, brightness)
  {
    assert Gray(conf, rgb) == Grayscale(conf, rgb);
  }

  /** What the colours exceed white by, at the display's brightness. */
  predicate IsEstimate(excess: real, brightness: real, max: real, estimate: real)
    requires max > 0.0
  {
    estimate == excess * brightness / max
  }

  lemma EstimateIsScaledLight(light: real, brightness: real, max: real, estimate: real)
    requires max > 0.0 && IsEstimate(light, brightness, max, estimate)
    ensures estimate == light * (brightness / max)
  {
    assert light * (brightness / max) * max == light * brightness;
  }

  lemma EstimateFollowsExcess(less: real, more: real, brightness: real, max: real, estimate: real, estimate': real)
    requires max > 0.0 && brightness >= 0.0 && less <= more
    requires IsEstimate(less, brightness, max, estimate) && IsEstimate(more, brightness, max, estimate')
    ensures estimate <= estimate'
  {
    var gap := (more - less) * brightness;
    NonNegativeProduct(more - less, brightness);
    assert gap == more * brightness - less * brightness;
    NonNegativeQuotient(gap, max);
    assert gap / max == more * brightness / max - less * brightness / max;
  }

  lemma CorrectionClamps(conf: Config, rgb: Rgb, brightness: real, gamma: real -> real, estimate: real, low: real, full: real)
    requires Shape(conf) && estimate == ScreenLight(conf, Rgbw(conf, rgb), |Rgbw(conf, rgb)|) * (brightness / conf.maxBrightness)
    requires low == GammaEstimate(conf, rgb, brightness, gamma) && full == FullWhite(conf, brightness)
    ensures Clamps(estimate, low, full, Correction(conf, rgb, brightness, gamma))
  {
    MaxOfMinClamps(estimate, low, full);
  }

  lemma LightIsExcess(conf: Config, rgb: Rgb, red: real, green: real, blue: real, white: real)
    requires Shape(conf) && AreTerms(conf, rgb, red, green, blue, white)
    ensures ScreenLight(conf, Rgbw(conf, rgb), |Rgbw(conf, rgb)|) == Excess(red, green, blue, white)
  {
    TermsAreLights(conf, rgb, red, green, blue, white);
    ScreenLightIsExcess(conf, Rgbw(conf, rgb), red, green, blue, white);
  }

  /** With the terms of the channels, the estimate and the two bounds given: the correction is the estimate when it lies
      between gamma estimate and full white, and otherwise the bound it crosses. */
  lemma CorrectionIsClampedEstimate(conf: Config, rgb: Rgb, brightness: real, gamma: real -> real,
                                    red: real, green: real, blue: real, white: real, estimate: real, low: real, full: real)
    requires Shape(conf) && AreTerms(conf, rgb, red, green, blue, white) && AreBounds(conf, rgb, brightness, gamma, low, full)
    requires IsEstimate(Excess(red, green, blue, white), brightness, conf.maxBrightness, estimate)
    ensures Clamps(estimate, low, full, Correction(conf, rgb, brightness, gamma))
  {
    LightIsExcess(conf, rgb, red, green, blue, white);
    EstimateIsScaledLight(ScreenLight(conf, Rgbw(conf, rgb), |Rgbw(conf, rgb)|), brightness, conf.maxBrightness, estimate);
    BoundsAreEstimates(conf, rgb, brightness, gamma, low, full);
    CorrectionClamps(conf, rgb, brightness, gamma, estimate, low, full);
  }

  /** A display whose terms differ from another's: the correction never falls with a colour term and never rises
      with the white term. */
  lemma CorrectionFollowsTerms(conf: Config, conf': Config, rgb: Rgb, brightness: real, gamma: real -> real, low: real, full: real,
                               red: real, green: real, blue: real, white: real, estimate: real,
                               red': real, green': real, blue': real, white': real, estimate': real)
    requires Shape(conf) && AreTerms(conf, rgb, red, green, blue, white) && AreBounds(conf, rgb, brightness, gamma, low, full)
    requires Shape(conf') && AreTerms(conf', rgb, red', green', blue', white') && AreBounds(conf', rgb, brightness, gamma, low, full)
    requires conf.maxBrightness == conf'.maxBrightness
    requires IsEstimate(Excess(red, green, blue, white), brightness, conf.maxBrightness, estimate)
    requires IsEstimate(Excess(red', green', blue', white'), brightness, conf'.maxBrightness, estimate')
    requires brightness >= 0.0 && red <= red' && green <= green' && blue <= blue' && white >= white'
    ensures Correction(conf, rgb, brightness, gamma) <= Correction(conf', rgb, brightness, gamma)
  {
    CorrectionIsClampedEstimate(conf, rgb, brightness, gamma, red, green, blue, white, estimate, low, full);
    CorrectionIsClampedEstimate(conf', rgb, brightness, gamma, red', green', blue', white', estimate', low, full);
    EstimateFollowsExcess(Excess(red, green, blue, white), Excess(red', green', blue', white'), brightness, conf.maxBrightness,
                          estimate, estimate');
    ClampsInOrder(estimate, estimate', low, full, Correction(conf, rgb, brightness, gamma), Correction(conf', rgb, brightness, gamma));
  }

  // ---- The value of a recomputation ----

  /** The reading without the sensor's bias. */
  function Unbiased(conf: Config, scalar: real): real {
    if scalar > conf.bias then scalar - conf.bias else scalar
  }

  /** A reading in lux at the given gain. */
  function LuxOf(conf: Config, reading: real, gain: real): real {
    reading * conf.calibGain * gain
  }

  /** A recomputation at the given correction and gain. */
  predicate RecomputedAt(env: Env, st: State, inp: Input, correction: real, gain: real)
    requires Shape(env.conf)
  {
    && Process(env, st, inp).kind == Recomputed && inp.capture.Some?
    && Correction(env.conf, inp.capture.value, inp.brightness, env.gamma) == correction
    && Process(env, st, inp).st.lastAgcGain == gain
  }

  /** The value that goes with an amount of lux: what exceeds fourteen. */
  predicate IsValueOf(value: real, lux: real) {
    (value == 0.0 <==> lux <= 14.0) && (lux > 14.0 ==> value + 14.0 == lux)
  }

  /** A recomputation returns, and caches, what remains in lux less fourteen, and zero up to fourteen. */
  lemma RecomputedValue(env: Env, st: State, inp: Input, correction: real, gain: real)
    requires Shape(env.conf) && RecomputedAt(env, st, inp, correction, gain)
    ensures var o := Process(env, st, inp);
            var left := Positive(Unbiased(env.conf, inp.event.scalar) - correction);
            && IsValueOf(o.event.scalar, LuxOf(env.conf, left, gain)) && o.st.lastCorrected == o.event.scalar
            && gain == AgcGain(env.conf, left, inp.event.data2)
            && o.event == inp.event.(scalar := o.event.scalar)
  {
    var left := Positive(Unbiased(env.conf, inp.event.scalar) - correction);
    assert left == RealMax(Debiased(env.conf, inp.event.scalar) - correction, 0.0);
    assert LuxOf(env.conf, left, gain) == Lux(env.conf, left, gain);
  }

  lemma ProductsInOrder(a: real, b: real, calib: real, gain: real, lux: real, lux': real)
    requires 0.0 <= a <= b && lux == a * calib * gain && lux' == b * calib * gain
    ensures lux <= lux' || (lux <= 0.0 && lux' <= 0.0)
  {
    var k := calib * gain;
    MulAssociates(a, calib, gain);
    MulAssociates(b, calib, gain);
    if k >= 0.0 {
      NonNegativeProduct(b - a, k);
      assert (b - a) * k == b * k - a * k;
    } else {
      NonNegativeProduct(a, -k);
      NonNegativeProduct(b, -k);
      assert a * -k == -(a * k) && b * -k == -(b * k);
    }
  }

  /** `value` is returned for a reading of `scalar` at the given correction and gain. */
  predicate Returns(conf: Config, scalar: real, correction: real, gain: real, value: real) {
    var left := Positive(Unbiased(conf, scalar) - correction);
    var lux := LuxOf(conf, left, gain);
    IsValueOf(value, lux)
  }

  lemma RecomputedReturns(env: Env, st: State, inp: Input, correction: real, gain: real)
    requires Shape(env.conf) && RecomputedAt(env, st, inp, correction, gain)
    ensures Returns(env.conf, inp.event.scalar, correction, gain, Process(env, st, inp).event.scalar)
  {
    RecomputedValue(env, st, inp, correction, gain);
  }

  lemma ReturnsInOrder(conf: Config, scalar: real, scalar': real, correction: real, gain: real, value: real, value': real)
    requires Unbiased(conf, scalar) <= Unbiased(conf, scalar')
    requires Returns(conf, scalar, correction, gain, value) && Returns(conf, scalar', correction, gain, value')
    ensures value <= value'
  {
    var left, left' := Positive(Unbiased(conf, scalar) - correction), Positive(Unbiased(conf, scalar') - correction);
    ProductsInOrder(left, left', conf.calibGain, gain, LuxOf(conf, left, gain), LuxOf(conf, left', gain));
  }

  /** At the same correction and gain a larger reading never yields a smaller value. */
  lemma LargerReadingYieldsNoLess(env: Env, st: State, inp: Input, st': State, inp': Input, correction: real, gain: real)
    requires Shape(env.conf) && RecomputedAt(env, st, inp, correction, gain) && RecomputedAt(env, st', inp', correction, gain)
    requires Unbiased(env.conf, inp.event.scalar) <= Unbiased(env.conf, inp'.event.scalar)
    ensures Process(env, st, inp).event.scalar <= Process(env, st', inp').event.scalar
  {
    RecomputedReturns(env, st, inp, correction, gain);
    RecomputedReturns(env, st', inp', correction, gain);
    ReturnsInOrder(env.conf, inp.event.scalar, inp'.event.scalar, correction, gain,
                   Process(env, st, inp).event.scalar, Process(env, st', inp').event.scalar);
  }

  // ---- The gain ----

  /** A quotient exceeds a point, without dividing. */
  predicate RatioExceeds(num: real, den: real, point: real) {
    if den > 0.0 then num > point * den
    else if den < 0.0 then num < point * den
    else num > 0.0
  }

  /** On devices with the ratio the other way round the raw channel is compared with the corrected reading. */
  predicate PointExceeded(conf: Config, raw: real, data2: real, i: nat)
    requires Shape(conf) && i < 4
  {
    if conf.hbr then RatioExceeds(data2 * 1000.0, raw, conf.gaincalPoints[i])
    else RatioExceeds(raw, data2, conf.gaincalPoints[i])
  }

  lemma QuotientIsRatio(num: real, den: real, point: real)
    ensures QuotientExceeds(num, den, point) <==> RatioExceeds(num, den, point)
  {
    if den > 0.0 {
      ScaleIsMonotone(point, num, den);
    } else if den < 0.0 {
      assert num / den == (-num) / (-den) by {
        assert (num / den) * (-den) == -num;
      }
      ScaleIsMonotone(point, -num, -den);
    }
  }

  /** Up to the threshold the gain is the first; above it, that of the last calibration point exceeded. */
  lemma SelectedGain(conf: Config, raw: real, data2: real)
    requires Shape(conf)
    ensures raw <= conf.agcThreshold || (forall j | 0 <= j < 4 :: !PointExceeded(conf, raw, data2, j)) ==>
              AgcGain(conf, raw, data2) == conf.inverseGain[0]
    ensures forall i | 0 <= i < 4 && raw > conf.agcThreshold && PointExceeded(conf, raw, data2, i)
                       && (forall j | i < j < 4 :: !PointExceeded(conf, raw, data2, j)) ::
              AgcGain(conf, raw, data2) == conf.inverseGain[i]
  {
    forall i: nat | i < 4
      ensures Exceeds(conf, raw, data2, i) <==> PointExceeded(conf, raw, data2, i)
    {
      QuotientIsRatio(data2 * 1000.0, raw, conf.gaincalPoints[i]);
      QuotientIsRatio(raw, data2, conf.gaincalPoints[i]);
    }
    GainIsLastExceeded(conf, raw, data2, 4);
  }

  // ---- The hysteresis band ----

  /** `lux` belongs to band number `i`: its middle is the first that is not below. */
  predicate BelongsTo(lux: real, i: nat)
    requires i < 10
  {
    (BASE_RANGES[i].middle.Finite? ==> lux <= BASE_RANGES[i].middle.value)
    && forall j | 0 <= j < i :: BASE_RANGES[j].middle.Finite? && lux > BASE_RANGES[j].middle.value
  }

  /** The limits of band number `i` in raw units at gain `k`, the upper one widened by `full`; the first band has no
      lower limit. */
  predicate HasLimits(stored: State, i: nat, k: real, full: real)
    requires i < 10 && k > 0.0
  {
    && stored.hystMin == (if i == 0 then -1.0 else BASE_RANGES[i].min / k)
    && stored.hystMax == (if BASE_RANGES[i].max.Infinite? then Infinite else Finite(BASE_RANGES[i].max.value / k + full))
  }

  lemma BandLimits(ranges: seq<Range>, k: real, stored: State, lux: real, full: real, i: nat)
    requires IsRescaled(ranges, k) && i < 10 && BelongsTo(lux, i)
    requires Band(ranges, lux) < |ranges| ==>
               stored.hystMin == ranges[Band(ranges, lux)].min && stored.hystMax == Plus(ranges[Band(ranges, lux)].max, full)
    ensures HasLimits(stored, i, k, full)
  {
    BandIsFirst(ranges, k, lux, i);
    RescaledBands(ranges, k, i);
  }

  lemma LimitsOfStored(env: Env, stored: State, raw: real, full: real, lux: real, i: nat, k: real)
    requires Shape(env.conf) && RescaledOnce(env) && StoresBand(env, raw, full, stored) && k == TableGain(env.conf)
    requires Lux(env.conf, raw, stored.lastAgcGain) == lux && i < 10 && BelongsTo(lux, i)
    ensures k > 0.0 && HasLimits(stored, i, k, full)
  {
    BandLimits(env.ranges, k, stored, lux, full, i);
  }

  /** The remaining lux at the given correction and gain, the table's gain, and the full-white brightness. */
  predicate IsUsed(conf: Config, inp: Input, correction: real, gain: real, lux: real, k: real, full: real)
    requires Shape(conf)
  {
    && lux == LuxOf(conf, Positive(Unbiased(conf, inp.event.scalar) - correction), gain)
    && k == conf.calibGain * conf.inverseGain[0]
    && full == conf.maxLux[3] * inp.brightness / conf.maxBrightness
  }

  lemma LuxOfLeft(env: Env, st: State, inp: Input, correction: real, gain: real)
    requires Shape(env.conf) && RecomputedAt(env, st, inp, correction, gain)
    ensures Raw(env, inp) == Positive(Unbiased(env.conf, inp.event.scalar) - correction)
    ensures Lux(env.conf, Raw(env, inp), gain) == LuxOf(env.conf, Positive(Unbiased(env.conf, inp.event.scalar) - correction), gain)
  {
  }

  /** What a recomputation leaves: the remaining lux, and the full-white brightness and table gain it uses. */
  predicate RecomputedFor(env: Env, st: State, inp: Input, lux: real, k: real, full: real)
    requires Shape(env.conf)
  {
    && Process(env, st, inp).kind == Recomputed && inp.capture.Some?
    && lux == Lux(env.conf, Raw(env, inp), Process(env, st, inp).st.lastAgcGain)
    && k == TableGain(env.conf) && full == FullWhite(env.conf, inp.brightness)
  }

  lemma StoredLimits(env: Env, st: State, inp: Input, lux: real, i: nat, k: real, full: real)
    requires Shape(env.conf) && RescaledOnce(env) && RecomputedFor(env, st, inp, lux, k, full) && i < 10 && BelongsTo(lux, i)
    ensures k > 0.0 && HasLimits(Process(env, st, inp).st, i, k, full)
  {
    RecomputedBand(env, st, inp);
    LimitsOfStored(env, Process(env, st, inp).st, Raw(env, inp), full, lux, i, k);
  }

  lemma RecomputedForLux(env: Env, st: State, inp: Input, correction: real, gain: real, lux: real, k: real, full: real)
    requires Shape(env.conf) && RecomputedAt(env, st, inp, correction, gain)
    requires IsUsed(env.conf, inp, correction, gain, lux, k, full)
    ensures RecomputedFor(env, st, inp, lux, k, full)
  {
    LuxOfLeft(env, st, inp, correction, gain);
  }

  /** The stored band is the one that the remaining lux belong to, in raw units at the table's gain `k`, widened by the
      full-white brightness. */
  lemma StoredBandLimits(env: Env, st: State, inp: Input, correction: real, gain: real, lux: real, i: nat, k: real, full: real)
    requires Shape(env.conf) && RescaledOnce(env) && RecomputedAt(env, st, inp, correction, gain)
    requires IsUsed(env.conf, inp, correction, gain, lux, k, full) && i < 10 && BelongsTo(lux, i)
    ensures k > 0.0 && HasLimits(Process(env, st, inp).st, i, k, full)
  {
    RecomputedForLux(env, st, inp, correction, gain, lux, k, full);
    StoredLimits(env, st, inp, lux, i, k, full);
  }

  lemma BandIsFirst(ranges: seq<Range>, k: real, lux: real, i: nat)
    requires IsRescaled(ranges, k) && i < 10 && BelongsTo(lux, i)
    ensures Band(ranges, lux) == i
  {
    forall j: nat | j < 10
      ensures |ranges| == 10 && ranges[j].middle == BASE_RANGES[j].middle
    {
      RescaledBands(ranges, k, j);
    }
    assert AtMost(lux, ranges[i].middle);
    assert forall j | 0 <= j < i :: !AtMost(lux, ranges[j].middle);
  }

  // ---- What is decided about an event ----

  /** Less than a tenth of a second after the last event that was let through. */
  predicate ComesTooFast(st: State, inp: Input) {
    st.lastUpdate != 0 && inp.now - st.lastUpdate < 100_000_000
  }

  /** The screen is lit, and the last refresh, or the first event, is more than three seconds ago. */
  predicate IsRefreshed(st: State, inp: Input) {
    st.lastUpdate != 0 && inp.brightness > 0.0 && inp.now - st.lastForced > 3_000_000_000
  }

  /** The reading left the band, and in lux it is dark or bright. */
  predicate LeavesBand(st: State, reading: real, lux: real) {
    (reading < st.hystMin || (st.hystMax.Finite? && reading > st.hystMax.value)) && (lux < 10.0 || lux * 0.07 > 5.0)
  }

  /** A refresh is due, or the reading left the band. */
  predicate WantsCapture(conf: Config, st: State, inp: Input) {
    var reading := Unbiased(conf, inp.event.scalar);
    st.force || IsRefreshed(st, inp) || LeavesBand(st, reading, LuxOf(conf, reading, st.lastAgcGain))
  }

  /** The screen outshines the reading by more than a third, which is bright, and no refresh is due. */
  predicate Outshone(env: Env, st: State, inp: Input)
    requires Shape(env.conf) && inp.capture.Some?
  {
    var reading := Unbiased(env.conf, inp.event.scalar);
    var correction := Correction(env.conf, inp.capture.value, inp.brightness, env.gamma);
    && correction * 100.0 > reading * 135.0
    && LuxOf(env.conf, reading, AgcGain(env.conf, Positive(reading - correction), inp.event.data2)) >= 10000.0
    && !st.force && !IsRefreshed(st, inp)
  }

  lemma BrightLux(lux: real)
    ensures lux > 5.0 / 0.07 <==> lux * 0.07 > 5.0
  {
  }

  lemma NeedMeansWanting(conf: Config, st: State, inp: Input)
    ensures var ticked := Tick(st, inp.now, inp.brightness);
            && (ticked.passes <==> !ComesTooFast(st, inp))
            && (NeedsCapture(conf, ticked.st, Debiased(conf, inp.event.scalar)) <==> WantsCapture(conf, st, inp))
  {
    var reading := Unbiased(conf, inp.event.scalar);
    var ticked := Tick(st, inp.now, inp.brightness).st;
    assert ticked.force <==> st.force || IsRefreshed(st, inp);
    assert Lux(conf, reading, ticked.lastAgcGain) == LuxOf(conf, reading, st.lastAgcGain);
    BrightLux(LuxOf(conf, reading, st.lastAgcGain));
  }

  /** What becomes of an event, from the event and the earlier state. */
  lemma FilterDecides(env: Env, st: State, inp: Input)
    requires Shape(env.conf)
    ensures var kind := Process(env, st, inp).kind;
            && (kind == TooFast <==> ComesTooFast(st, inp))
            && (kind == WithinBand <==> !ComesTooFast(st, inp) && !WantsCapture(env.conf, st, inp))
            && (kind == CaptureFailed <==> !ComesTooFast(st, inp) && WantsCapture(env.conf, st, inp) && inp.capture.None?)
            && (kind == KeptAfterCapture <==> !ComesTooFast(st, inp) && WantsCapture(env.conf, st, inp)
                                              && inp.capture.Some? && Outshone(env, st, inp))
  {
    NeedMeansWanting(env.conf, st, inp);
  }

  /** The times the filter keeps. */
  lemma FilterTimers(env: Env, st: State, inp: Input)
    requires Shape(env.conf)
    ensures var stored := Process(env, st, inp).st;
            && stored.lastUpdate == (if ComesTooFast(st, inp) then st.lastUpdate else inp.now)
            && stored.lastForced == (if st.lastUpdate == 0 || IsRefreshed(st, inp) then inp.now else st.lastForced)
  {
  }

  /** Whatever is not recomputed leaves value, band and gain as they were; dropped events leave with the unbiased
      reading and handle zero, all others with the cached value. */
  lemma FilterKeepsOtherwise(env: Env, st: State, inp: Input)
    requires Shape(env.conf) && Process(env, st, inp).kind != Recomputed
    ensures var o := Process(env, st, inp);
            && o.st.lastCorrected == st.lastCorrected && o.st.lastAgcGain == st.lastAgcGain
            && o.st.hystMin == st.hystMin && o.st.hystMax == st.hystMax
            && o.event == (if o.kind == TooFast || o.kind == CaptureFailed
                           then inp.event.(sensorHandle := 0, scalar := Unbiased(env.conf, inp.event.scalar))
                           else inp.event.(scalar := st.lastCorrected))
  {
  }
}
