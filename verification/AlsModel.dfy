/** The ambient-light filter as a function of its state: what one event does, and what runs of events keep.
    Floats are modelled as reals, with an explicit infinity where the code uses HUGE_VALF. */
module AlsModel {
  import opened Basics
  import opened SensorTypes
  import opened AreaCapture
  import opened RealFacts

  datatype Bound = Finite(value: real) | Infinite

  datatype Range = Range(middle: Bound, min: real, max: Bound)

  datatype Config = Config(
    hbr: bool, maxLux: seq<real>, luxPostmul: seq<real>, poly: seq<seq<real>>, weights: seq<real>,
    gaincalPoints: seq<real>, inverseGain: seq<real>, agcThreshold: real, calibGain: real, bias: real,
    maxBrightness: real)

  datatype State = State(
    lastUpdate: int, lastForced: int, force: bool, hystMin: real, hystMax: Bound,
    lastCorrected: real, lastAgcGain: real)

  const INITIAL: State := State(0, 0, true, -1.0, Finite(-1.0), 0.0, 0.0)

  const RATE_NS: int := 100_000_000
  const REFRESH_NS: int := 3_000_000_000

  const BASE_RANGES: seq<Range> := [
    Range(Finite(0.0), 0.0, Finite(4.0)),
    Range(Finite(7.0), 1.0, Finite(12.0)),
    Range(Finite(15.0), 5.0, Finite(30.0)),
    Range(Finite(30.0), 10.0, Finite(50.0)),
    Range(Finite(360.0), 25.0, Finite(700.0)),
    Range(Finite(1200.0), 300.0, Finite(1600.0)),
    Range(Finite(2250.0), 1000.0, Finite(2940.0)),
    Range(Finite(4600.0), 2000.0, Finite(5900.0)),
    Range(Finite(10000.0), 4000.0, Finite(80000.0)),
    Range(Infinite, 8000.0, Infinite)
  ]

  /** `gamma` stands for raising to the power 2.2, of which only this is used. */
  ghost predicate IsGamma(gamma: real -> real) {
    forall x: real | 0.0 <= x <= 1.0 :: 0.0 <= gamma(x) <= 1.0
  }

  /** The fixed array sizes, and a maximum brightness that can be divided by. */
  predicate Shape(conf: Config) {
    && |conf.maxLux| == |conf.luxPostmul| == |conf.poly| == |conf.gaincalPoints| == |conf.inverseGain| == 4
    && |conf.weights| == 3
    && (forall i | 0 <= i < 4 :: |conf.poly[i]| == 4)
    && conf.maxBrightness > 0.0
  }

  function RealMax(a: real, b: real): real {
    if a < b then b else a
  }

  function RealMin(a: real, b: real): real {
    if b < a then b else a
  }

  predicate AtMost(x: real, b: Bound) {
    b.Infinite? || x <= b.value
  }

  function Plus(b: Bound, x: real): Bound {
    if b.Infinite? then Infinite else Finite(b.value + x)
  }

  function ScaleBound(b: Bound, k: real): Bound
    requires k > 0.0
  {
    if b.Infinite? then Infinite else Finite(b.value / k)
  }

  function ScaleRange(r: Range, k: real): Range
    requires k > 0.0
  {
    Range(r.middle, r.min / k, ScaleBound(r.max, k))
  }

  /** The band table after an initialisation with gain `k`: limits are in raw sensor units. */
  function Rescaled(ranges: seq<Range>, k: real): (r: seq<Range>)
    requires k > 0.0 && ranges != []
    ensures |r| == |ranges|
  {
    seq(|ranges|, i requires 0 <= i < |ranges| =>
      if i == 0 then ScaleRange(ranges[0], k).(min := -1.0) else ScaleRange(ranges[i], k))
  }

  /** The gain that turns raw sensor units of the first band into lux. */
  function TableGain(conf: Config): real
    requires Shape(conf)
  {
    conf.calibGain * conf.inverseGain[0]
  }

  function Lux(conf: Config, raw: real, gain: real): real {
    raw * conf.calibGain * gain
  }

  // ---- Rate limit and forced refresh ----

  datatype Ticked = Ticked(st: State, passes: bool)

  predicate RaisesForce(st: State, now: int, brightness: real) {
    st.lastUpdate != 0 && brightness > 0.0 && now - st.lastForced > REFRESH_NS
  }

  function Tick(st: State, now: int, brightness: real): Ticked {
    if st.lastUpdate == 0 then Ticked(st.(lastUpdate := now, lastForced := now), true)
    else
      var raised := if RaisesForce(st, now, brightness) then st.(lastForced := now, force := true) else st;
      if now - st.lastUpdate < RATE_NS then Ticked(raised, false)
      else Ticked(raised.(lastUpdate := now), true)
  }

  // ---- The correction ----

  function Debiased(conf: Config, scalar: real): real {
    if scalar > conf.bias then scalar - conf.bias else scalar
  }

  predicate NeedsCapture(conf: Config, st: State, reading: real) {
    var calibrated := Lux(conf, reading, st.lastAgcGain);
    st.force
    || ((reading < st.hystMin || !AtMost(reading, st.hystMax))
        && (calibrated < 10.0 || calibrated > 5.0 / 0.07))
  }

  /** The polynomial with the highest coefficient first. */
  function Horner(coefs: seq<real>, x: real): real {
    if coefs == [] then 0.0 else Horner(coefs[..|coefs| - 1], x) * x + coefs[|coefs| - 1]
  }

  function Grayscale(conf: Config, rgb: Rgb): real
    requires Shape(conf)
  {
    rgb.r * conf.weights[0] + rgb.g * conf.weights[1] + rgb.b * conf.weights[2]
  }

  function Rgbw(conf: Config, rgb: Rgb): (r: seq<real>)
    requires Shape(conf)
    ensures |r| == 4
  {
    [rgb.r, rgb.g, rgb.b, Grayscale(conf, rgb)]
  }

  /** The light of channel `i`: red, green, blue, white. */
  function ChannelLight(conf: Config, rgbw: seq<real>, i: nat): real
    requires Shape(conf) && |rgbw| == 4 && i < 4
  {
    Horner(conf.poly[i], rgbw[i]) * conf.luxPostmul[i]
  }

  /** The light of the first `n` channels; the white one is subtracted. */
  function ScreenLight(conf: Config, rgbw: seq<real>, n: nat): real
    requires Shape(conf) && |rgbw| == 4 && n <= 4
  {
    if n == 0 then 0.0
    else
      var light := ChannelLight(conf, rgbw, n - 1);
      ScreenLight(conf, rgbw, n - 1) + (if n - 1 < 3 then RealMax(light, 0.0) else -light)
  }

  function FullWhite(conf: Config, brightness: real): real
    requires Shape(conf)
  {
    conf.maxLux[3] * brightness / conf.maxBrightness
  }

  function GammaEstimate(conf: Config, rgb: Rgb, brightness: real, gamma: real -> real): real
    requires Shape(conf)
  {
    gamma(Grayscale(conf, rgb) / 255.0) * FullWhite(conf, brightness)
  }

  function Correction(conf: Config, rgb: Rgb, brightness: real, gamma: real -> real): real
    requires Shape(conf)
  {
    var estimate := ScreenLight(conf, Rgbw(conf, rgb), |Rgbw(conf, rgb)|) * (brightness / conf.maxBrightness);
    RealMax(RealMin(estimate, FullWhite(conf, brightness)), GammaEstimate(conf, rgb, brightness, gamma))
  }

  /** `num / den > point` with a float division: by zero it is plus infinity only above zero. */
  predicate QuotientExceeds(num: real, den: real, point: real) {
    if den == 0.0 then num > 0.0 else num / den > point
  }

  predicate Exceeds(conf: Config, raw: real, data2: real, i: nat)
    requires Shape(conf) && i < 4
  {
    if conf.hbr then QuotientExceeds(data2 * 1000.0, raw, conf.gaincalPoints[i])
    else QuotientExceeds(raw, data2, conf.gaincalPoints[i])
  }

  /** The gain of the last of the first `n` calibration points that is exceeded. */
  function GainUpTo(conf: Config, raw: real, data2: real, n: nat): real
    requires Shape(conf) && n <= 4
  {
    if n == 0 then conf.inverseGain[0]
    else if Exceeds(conf, raw, data2, n - 1) then conf.inverseGain[n - 1]
    else GainUpTo(conf, raw, data2, n - 1)
  }

  function AgcGain(conf: Config, raw: real, data2: real): real
    requires Shape(conf)
  {
    if raw > conf.agcThreshold then GainUpTo(conf, raw, data2, |conf.gaincalPoints|) else conf.inverseGain[0]
  }

  /** The first band whose middle is not below the value, or the number of bands. */
  function Band(ranges: seq<Range>, lux: real): (i: nat)
    ensures i <= |ranges|
    ensures i < |ranges| ==> AtMost(lux, ranges[i].middle)
    ensures forall k | 0 <= k < i :: !AtMost(lux, ranges[k].middle)
  {
    if ranges == [] || AtMost(lux, ranges[0].middle) then 0 else 1 + Band(ranges[1..], lux)
  }

  // ---- One event ----

  datatype Env = Env(conf: Config, ranges: seq<Range>, gamma: real -> real)

  datatype Input = Input(event: Event, now: int, brightness: real, capture: Option<Rgb>)

  datatype Kind = TooFast | CaptureFailed | Recomputed | KeptAfterCapture | WithinBand

  datatype Outcome = Outcome(st: State, event: Event, kind: Kind)

  predicate WorthRecomputing(conf: Config, correction: real, reading: real, gain: real, force: bool) {
    correction <= reading * 1.35 || Lux(conf, reading, gain) < 10000.0 || force
  }

  /** The state after a successful capture, and whether the value was recomputed. */
  function Capture(env: Env, st: State, reading: real, data2: real, brightness: real, rgb: Rgb): (State, bool)
    requires Shape(env.conf)
  {
    var conf := env.conf;
    var correction := Correction(conf, rgb, brightness, env.gamma);
    var raw := RealMax(reading - correction, 0.0);
    var gain := AgcGain(conf, raw, data2);
    if WorthRecomputing(conf, correction, reading, gain, st.force) then
      var lux := Lux(conf, raw, gain);
      var i := Band(env.ranges, lux);
      var banded := if i == |env.ranges| then st
                    else st.(hystMin := env.ranges[i].min,
                             hystMax := Plus(env.ranges[i].max, FullWhite(conf, brightness)));
      (banded.(lastAgcGain := gain, lastCorrected := RealMax(lux - 14.0, 0.0), force := false), true)
    else (st.(force := false), false)
  }

  function Process(env: Env, st: State, inp: Input): Outcome
    requires Shape(env.conf)
  {
    var reading := Debiased(env.conf, inp.event.scalar);
    var event := inp.event.(scalar := reading);
    var ticked := Tick(st, inp.now, inp.brightness);
    if !ticked.passes then Outcome(ticked.st, event.(sensorHandle := 0), TooFast)
    else if !NeedsCapture(env.conf, ticked.st, reading) then
      Outcome(ticked.st, event.(scalar := ticked.st.lastCorrected), WithinBand)
    else if inp.capture.None? then Outcome(ticked.st, event.(sensorHandle := 0), CaptureFailed)
    else
      var (st', recomputed) := Capture(env, ticked.st, reading, event.data2, inp.brightness, inp.capture.value);
      Outcome(st', event.(scalar := st'.lastCorrected), if recomputed then Recomputed else KeptAfterCapture)
  }

  // ---- What single results mean ----

  lemma HornerStep(coefs: seq<real>, coef: real, x: real)
    ensures Horner(coefs + [coef], x) == Horner(coefs, x) * x + coef
  {
    assert (coefs + [coef])[..|coefs|] == coefs;
  }

  lemma HornerIsCubic(a: real, b: real, c: real, d: real, x: real)
    ensures Horner([a, b, c, d], x) == a * x * x * x + b * x * x + c * x + d
  {
    HornerStep([], a, x);
    HornerStep([a], b, x);
    HornerStep([a, b], c, x);
    HornerStep([a, b, c], d, x);
    assert [] + [a] == [a] && [a] + [b] == [a, b] && [a, b] + [c] == [a, b, c] && [a, b, c] + [d] == [a, b, c, d];
    assert Horner([a, b, c], x) == (a * x + b) * x + c;
    Expand(a, b, c, d, x);
  }

  /** The gain is that of the last calibration point exceeded, or of the first one if none is. */
  lemma {:induction false} GainIsLastExceeded(conf: Config, raw: real, data2: real, n: nat)
    requires Shape(conf) && n <= 4
    ensures (forall j | 0 <= j < n :: !Exceeds(conf, raw, data2, j)) ==> GainUpTo(conf, raw, data2, n) == conf.inverseGain[0]
    ensures forall i | 0 <= i < n && Exceeds(conf, raw, data2, i) && (forall j | i < j < n :: !Exceeds(conf, raw, data2, j)) ::
              GainUpTo(conf, raw, data2, n) == conf.inverseGain[i]
  {
    if n > 0 {
      GainIsLastExceeded(conf, raw, data2, n - 1);
    }
  }

  // ---- The bound on the correction ----

  predicate IsColour(rgb: Rgb) {
    0.0 <= rgb.r <= 255.0 && 0.0 <= rgb.g <= 255.0 && 0.0 <= rgb.b <= 255.0
  }

  predicate WeightsAreAverage(conf: Config)
    requires Shape(conf)
  {
    && conf.weights[0] >= 0.0 && conf.weights[1] >= 0.0 && conf.weights[2] >= 0.0
    && conf.weights[0] + conf.weights[1] + conf.weights[2] <= 1.0
  }

  lemma GrayscaleInRange(conf: Config, rgb: Rgb)
    requires Shape(conf) && WeightsAreAverage(conf) && IsColour(rgb)
    ensures 0.0 <= Grayscale(conf, rgb) <= 255.0
  {
    WeightedSum(rgb.r, rgb.g, rgb.b, conf.weights[0], conf.weights[1], conf.weights[2]);
  }

  lemma FullWhiteNonNegative(conf: Config, brightness: real)
    requires Shape(conf) && conf.maxLux[3] >= 0.0 && brightness >= 0.0
    ensures FullWhite(conf, brightness) >= 0.0
  {
    NonNegativeProduct(conf.maxLux[3], brightness);
    NonNegativeQuotient(conf.maxLux[3] * brightness, conf.maxBrightness);
  }

  lemma GammaEstimateIsPortion(conf: Config, rgb: Rgb, brightness: real, gamma: real -> real)
    requires Shape(conf) && IsGamma(gamma) && 0.0 <= Grayscale(conf, rgb) <= 255.0 && FullWhite(conf, brightness) >= 0.0
    ensures 0.0 <= GammaEstimate(conf, rgb, brightness, gamma) <= FullWhite(conf, brightness)
  {
    var x := Grayscale(conf, rgb) / 255.0;
    assert 0.0 <= x <= 1.0;
    Portion(gamma(x), FullWhite(conf, brightness));
  }

  /** For every grayscale in range and every polynomial, the correction lies between the gamma estimate and
      the full-white brightness. */
  lemma CorrectionIsBounded(conf: Config, rgb: Rgb, brightness: real, gamma: real -> real)
    requires Shape(conf) && IsGamma(gamma) && 0.0 <= Grayscale(conf, rgb) <= 255.0
    requires conf.maxLux[3] >= 0.0 && brightness >= 0.0
    ensures 0.0 <= GammaEstimate(conf, rgb, brightness, gamma) <= Correction(conf, rgb, brightness, gamma)
    ensures Correction(conf, rgb, brightness, gamma) <= FullWhite(conf, brightness)
  {
    FullWhiteNonNegative(conf, brightness);
    GammaEstimateIsPortion(conf, rgb, brightness, gamma);
  }

  /** What a screen capture returns. */
  function Screen(out: seq<u8>, width: nat, height: nat, stride: nat): Rgb
    requires Fits(out, width, height, stride) && width * height > 0
  {
    Rgb(Average(out, width, height, stride, 0), Average(out, width, height, stride, 1), Average(out, width, height, stride, 2))
  }

  lemma ScreenIsColour(out: seq<u8>, width: nat, height: nat, stride: nat)
    requires Fits(out, width, height, stride) && width * height > 0
    ensures IsColour(Screen(out, width, height, stride))
  {
    AverageInByteRange(out, width, height, stride, 0);
    AverageInByteRange(out, width, height, stride, 1);
    AverageInByteRange(out, width, height, stride, 2);
  }

  /** From pixels to correction: whatever is on the screen, the averages that the capture returns lead to a
      correction between the gamma estimate and the full-white brightness, which the panel cannot exceed. */
  lemma CorrectionOfScreenIsBounded(conf: Config, out: seq<u8>, width: nat, height: nat, stride: nat,
                                    brightness: real, gamma: real -> real)
    requires Shape(conf) && WeightsAreAverage(conf) && IsGamma(gamma)
    requires conf.maxLux[3] >= 0.0 && 0.0 <= brightness <= conf.maxBrightness
    requires Fits(out, width, height, stride) && width * height > 0
    ensures var rgb := Screen(out, width, height, stride);
            && 0.0 <= GammaEstimate(conf, rgb, brightness, gamma) <= Correction(conf, rgb, brightness, gamma)
            && Correction(conf, rgb, brightness, gamma) <= FullWhite(conf, brightness) <= conf.maxLux[3]
  {
    var rgb := Screen(out, width, height, stride);
    ScreenIsColour(out, width, height, stride);
    GrayscaleInRange(conf, rgb);
    CorrectionIsBounded(conf, rgb, brightness, gamma);
    Share(conf.maxLux[3], brightness, conf.maxBrightness);
  }

  // ---- Hysteresis ----

  /** Shape of the band table: the middle of a band is not above its upper limit, and the lower limit of all
      but the first two bands is at most the middle of the band before. */
  lemma BandTableShape(i: nat)
    requires i < 10
    ensures BASE_RANGES[i].max.Finite? ==> BASE_RANGES[i].middle.Finite? && BASE_RANGES[i].middle.value <= BASE_RANGES[i].max.value
    ensures i >= 2 ==> BASE_RANGES[i - 1].middle.Finite? && 1.0 <= BASE_RANGES[i].min <= BASE_RANGES[i - 1].middle.value
    ensures i == 9 <==> BASE_RANGES[i].middle.Infinite?
  {
  }

  predicate InBand(x: real, min: real, max: Bound) {
    min <= x && AtMost(x, max)
  }

  /** The table after one rescaling by `k`. */
  predicate IsRescaled(ranges: seq<Range>, k: real) {
    k > 0.0 && ranges == Rescaled(BASE_RANGES, k)
  }

  lemma RescaledBands(ranges: seq<Range>, k: real, i: nat)
    requires IsRescaled(ranges, k) && i < 10
    ensures |ranges| == 10 && ranges[i].middle == BASE_RANGES[i].middle && ranges[i].max == ScaleBound(BASE_RANGES[i].max, k)
    ensures ranges[i].min == if i == 0 then -1.0 else BASE_RANGES[i].min / k
  {
  }

  lemma UpperLimit(ranges: seq<Range>, reading: real, raw: real, full: real, k: real, i: nat)
    requires IsRescaled(ranges, k) && reading <= raw + full && i < 10 && |ranges| == 10
    requires AtMost(raw * k, ranges[i].middle)
    ensures AtMost(reading, Plus(ranges[i].max, full))
  {
    BandTableShape(i);
    RescaledBands(ranges, k, i);
    if ranges[i].max.Finite? {
      ScaleIsMonotone(raw, BASE_RANGES[i].max.value, k);
    }
  }

  lemma LowerLimit(ranges: seq<Range>, reading: real, raw: real, k: real, i: nat)
    requires IsRescaled(ranges, k) && reading >= raw >= 0.0 && i < 10 && |ranges| == 10
    requires AtMost(raw * k, ranges[i].middle) && forall j | 0 <= j < i :: !AtMost(raw * k, ranges[j].middle)
    ensures ranges[i].min <= reading <==> raw * k == 0.0 || reading * k >= 1.0
  {
    NonNegativeProduct(raw, k);
    NonNegativeProduct(reading - raw, k);
    assert (reading - raw) * k == reading * k - raw * k;
    RescaledBands(ranges, k, 0);
    RescaledBands(ranges, k, i);
    if i > 0 {
      ScaleIsMonotone(reading, BASE_RANGES[i].min, k);
      assert raw * k > 0.0;
      if i >= 2 {
        BandTableShape(i);
        RescaledBands(ranges, k, i - 1);
      }
    }
  }

  lemma SomeBand(ranges: seq<Range>, k: real, lux: real)
    requires IsRescaled(ranges, k)
    ensures Band(ranges, lux) < |ranges| == 10
  {
    RescaledBands(ranges, k, 9);
    assert AtMost(lux, ranges[9].middle);
  }

  /** The reading lies within the band chosen from its own corrected value: always when that value is zero,
      otherwise exactly when the uncorrected value is at least one lux. */
  lemma ReadingLiesInOwnBand(ranges: seq<Range>, reading: real, raw: real, full: real, k: real)
    requires IsRescaled(ranges, k) && 0.0 <= raw <= reading <= raw + full
    ensures Band(ranges, raw * k) < |ranges|
    ensures var band := ranges[Band(ranges, raw * k)];
            InBand(reading, band.min, Plus(band.max, full)) <==> raw * k == 0.0 || reading * k >= 1.0
  {
    SomeBand(ranges, k, raw * k);
    var i := Band(ranges, raw * k);
    UpperLimit(ranges, reading, raw, full, k, i);
    LowerLimit(ranges, reading, raw, k, i);
  }

  /** The table was rescaled once, by the calibrated gain of the first band. */
  predicate RescaledOnce(env: Env)
    requires Shape(env.conf)
  {
    IsRescaled(env.ranges, TableGain(env.conf))
  }

  /** The reading less the estimated light of the screen. */
  function RawCorrected(env: Env, reading: real, brightness: real, rgb: Rgb): real
    requires Shape(env.conf)
  {
    RealMax(reading - Correction(env.conf, rgb, brightness, env.gamma), 0.0)
  }

  /** The band that a recomputation with inverse gain `gain` selects. */
  function StoredBand(env: Env, raw: real, gain: real): nat {
    Band(env.ranges, Lux(env.conf, raw, gain))
  }

  lemma RawIsBetween(env: Env, reading: real, brightness: real, rgb: Rgb)
    requires Shape(env.conf) && IsGamma(env.gamma)
    requires env.conf.maxLux[3] >= 0.0 && brightness >= 0.0 && reading >= 0.0
    requires 0.0 <= Grayscale(env.conf, rgb) <= 255.0
    ensures var raw := RawCorrected(env, reading, brightness, rgb);
            0.0 <= raw <= reading <= raw + FullWhite(env.conf, brightness)
  {
    CorrectionIsBounded(env.conf, rgb, brightness, env.gamma);
  }

  /** The stored hysteresis band is that of the corrected value, widened by the full-white brightness. */
  predicate StoresBand(env: Env, raw: real, full: real, stored: State) {
    var i := StoredBand(env, raw, stored.lastAgcGain);
    i < |env.ranges| ==>
      stored.hystMin == env.ranges[i].min && stored.hystMax == Plus(env.ranges[i].max, full)
  }

  /** Nothing is left of the reading after the correction, or the reading alone amounts to a lux. In particular
      it holds whenever the corrected value is zero or at least one. */
  predicate ZeroOrOneLux(env: Env, reading: real, raw: real)
    requires Shape(env.conf)
  {
    var k := TableGain(env.conf);
    raw * k == 0.0 || reading * k >= 1.0
  }

  lemma CorrectedLuxSuffices(env: Env, reading: real, raw: real)
    requires Shape(env.conf) && RescaledOnce(env) && raw <= reading
    ensures var lux := Lux(env.conf, raw, env.conf.inverseGain[0]);
            lux == 0.0 || lux >= 1.0 ==> ZeroOrOneLux(env, reading, raw)
  {
    MulAssociates(raw, env.conf.calibGain, env.conf.inverseGain[0]);
    var k := TableGain(env.conf);
    NonNegativeProduct(reading - raw, k);
    assert (reading - raw) * k == reading * k - raw * k;
  }

  lemma BandOfLuxHoldsReading(ranges: seq<Range>, reading: real, raw: real, full: real, k: real, lux: real, min: real, max: Bound)
    requires IsRescaled(ranges, k) && 0.0 <= raw <= reading <= raw + full && lux == raw * k
    requires Band(ranges, lux) < |ranges| ==> min == ranges[Band(ranges, lux)].min && max == Plus(ranges[Band(ranges, lux)].max, full)
    ensures InBand(reading, min, max) <==> lux == 0.0 || reading * k >= 1.0
  {
    ReadingLiesInOwnBand(ranges, reading, raw, full, k);
  }

  lemma StoredStateHoldsReading(env: Env, reading: real, raw: real, full: real, stored: State)
    requires Shape(env.conf) && RescaledOnce(env) && 0.0 <= raw <= reading <= raw + full
    requires StoresBand(env, raw, full, stored) && stored.lastAgcGain == env.conf.inverseGain[0]
    ensures InBand(reading, stored.hystMin, stored.hystMax) <==> ZeroOrOneLux(env, reading, raw)
  {
    var k := TableGain(env.conf);
    var lux := Lux(env.conf, raw, env.conf.inverseGain[0]);
    MulAssociates(raw, env.conf.calibGain, env.conf.inverseGain[0]);
    BandOfLuxHoldsReading(env.ranges, reading, raw, full, k, lux, stored.hystMin, stored.hystMax);
  }

  /** The recomputation used the gain of the first band. */
  predicate RecomputedAtFirstGain(env: Env, st: State, inp: Input)
    requires Shape(env.conf)
  {
    var o := Process(env, st, inp);
    o.kind == Recomputed && o.st.lastAgcGain == env.conf.inverseGain[0]
  }

  /** What the claim assumes of an event: a reading, a brightness and a screen within their ranges. */
  predicate InRange(env: Env, inp: Input)
    requires Shape(env.conf)
  {
    && env.conf.maxLux[3] >= 0.0 && inp.brightness >= 0.0 && Debiased(env.conf, inp.event.scalar) >= 0.0
    && inp.capture.Some? && 0.0 <= Grayscale(env.conf, inp.capture.value) <= 255.0
  }

  /** The reading of an event, and what is left of it after the correction. */
  function Reading(env: Env, inp: Input): real {
    Debiased(env.conf, inp.event.scalar)
  }

  function Raw(env: Env, inp: Input): real
    requires Shape(env.conf) && inp.capture.Some?
  {
    RawCorrected(env, Reading(env, inp), inp.brightness, inp.capture.value)
  }

  lemma RecomputedBand(env: Env, st: State, inp: Input)
    requires Shape(env.conf) && Process(env, st, inp).kind == Recomputed
    ensures inp.capture.Some?
    ensures StoresBand(env, Raw(env, inp), FullWhite(env.conf, inp.brightness), Process(env, st, inp).st)
  {
  }

  /** After a recomputation with the gain of the first band, the reading lies within the new hysteresis band
      exactly when the corrected value was zero or the reading amounts to at least one lux. */
  lemma HysteresisHoldsReading(env: Env, st: State, inp: Input)
    requires Shape(env.conf) && RescaledOnce(env) && IsGamma(env.gamma)
    requires InRange(env, inp) && RecomputedAtFirstGain(env, st, inp)
    ensures var stored := Process(env, st, inp).st;
            InBand(Reading(env, inp), stored.hystMin, stored.hystMax) <==> ZeroOrOneLux(env, Reading(env, inp), Raw(env, inp))
  {
    RecomputedBand(env, st, inp);
    RawIsBetween(env, Reading(env, inp), inp.brightness, inp.capture.value);
    StoredStateHoldsReading(env, Reading(env, inp), Raw(env, inp), FullWhite(env.conf, inp.brightness), Process(env, st, inp).st);
  }

  /** Stability: once a reading lies within the band of the state, an event with that reading that passes the
      rate filter while no refresh is due takes no screenshot and returns the cached value. */
  lemma StableReadingIsCached(env: Env, st: State, inp: Input)
    requires Shape(env.conf)
    requires InBand(Debiased(env.conf, inp.event.scalar), st.hystMin, st.hystMax)
    requires var t := Tick(st, inp.now, inp.brightness); t.passes && !t.st.force
    ensures var o := Process(env, st, inp);
            && o.kind == WithinBand && o.event == inp.event.(scalar := st.lastCorrected)
            && o.st == st.(lastUpdate := inp.now, lastForced := o.st.lastForced)
  {
  }

  lemma OutOfBandIsDark(env: Env, stored: State, reading: real, raw: real)
    requires Shape(env.conf) && RescaledOnce(env) && stored.lastAgcGain == env.conf.inverseGain[0]
    requires !InBand(reading, stored.hystMin, stored.hystMax) && !ZeroOrOneLux(env, reading, raw)
    ensures NeedsCapture(env.conf, stored, reading)
  {
    MulAssociates(reading, env.conf.calibGain, env.conf.inverseGain[0]);
  }

  /** The promise end to end: the same reading again, later and unforced, gives the same value without a
      screenshot exactly when nothing was left of it or it amounted to at least one lux. */
  lemma IdenticalEventIsQuiet(env: Env, st: State, first: Input, again: Input)
    requires Shape(env.conf) && RescaledOnce(env) && IsGamma(env.gamma)
    requires InRange(env, first) && RecomputedAtFirstGain(env, st, first)
    requires again.event.scalar == first.event.scalar
    requires var t := Tick(Process(env, st, first).st, again.now, again.brightness); t.passes && !t.st.force
    ensures var o, o' := Process(env, st, first), Process(env, Process(env, st, first).st, again);
            && (o'.kind == WithinBand <==> ZeroOrOneLux(env, Reading(env, first), Raw(env, first)))
            && (o'.kind == WithinBand ==>
                  o'.event.scalar == o.event.scalar && o'.event.sensorHandle == again.event.sensorHandle)
  {
    var stored := Process(env, st, first).st;
    HysteresisHoldsReading(env, st, first);
    if ZeroOrOneLux(env, Reading(env, first), Raw(env, first)) {
      StableReadingIsCached(env, stored, again);
    } else {
      OutOfBandIsDark(env, Tick(stored, again.now, again.brightness).st, Reading(env, first), Raw(env, first));
    }
  }

  // ---- A reading that is not quiet ----

  const ZEROS: seq<real> := [0.0, 0.0, 0.0, 0.0]
  const HALF_GAIN: Config :=
    Config(false, ZEROS, ZEROS, [ZEROS, ZEROS, ZEROS, ZEROS], [0.0, 0.0, 0.0], ZEROS, [0.5, 0.5, 0.5, 0.5], 1600.0, 1.0, 0.0, 1.0)
  const DARK_INPUT: Input := Input(Event(2, TYPE_QTI_WISE_LIGHT, 1.0, 1.0, 0), 1, 0.0, Some(Rgb(0.0, 0.0, 0.0)))

  function HalfGain(): Env {
    Env(HALF_GAIN, Rescaled(BASE_RANGES, 0.5), _ => 0.0)
  }

  lemma HalfLuxIsRecomputed()
    ensures var env := HalfGain();
            && IsGamma(env.gamma) && RescaledOnce(env) && InRange(env, DARK_INPUT)
            && RecomputedAtFirstGain(env, INITIAL, DARK_INPUT) && Raw(env, DARK_INPUT) == 1.0
  {
    var env := HalfGain();
    assert TableGain(env.conf) == 0.5;
    assert Correction(env.conf, Rgb(0.0, 0.0, 0.0), 0.0, env.gamma) == 0.0;
  }

  lemma RecomputingClearsForce(env: Env, st: State, inp: Input)
    requires Shape(env.conf) && Process(env, st, inp).kind == Recomputed
    ensures var stored := Process(env, st, inp).st; !stored.force && stored.lastUpdate == inp.now
  {
  }

  lemma LaterInTime(stored: State, now: int)
    requires stored.lastUpdate == now != 0 && !stored.force
    ensures var t := Tick(stored, now + RATE_NS, 0.0); t.passes && !t.st.force
  {
  }

  /** After a recomputation of a reading that is not quiet, the same event a tenth of a second later, under a dark
      screen, passes the rate filter and asks for a screenshot again. */
  lemma UnquietAgain(env: Env, st: State, first: Input)
    requires Shape(env.conf) && RescaledOnce(env) && IsGamma(env.gamma)
    requires InRange(env, first) && RecomputedAtFirstGain(env, st, first) && first.now != 0 && first.brightness == 0.0
    requires !ZeroOrOneLux(env, Reading(env, first), Raw(env, first))
    ensures var o' := Process(env, Process(env, st, first).st, first.(now := first.now + RATE_NS));
            o'.kind != WithinBand && o'.kind != TooFast
  {
    RecomputingClearsForce(env, st, first);
    LaterInTime(Process(env, st, first).st, first.now);
    IdenticalEventIsQuiet(env, st, first, first.(now := first.now + RATE_NS));
  }

  /** It does happen: half a lux under a dark screen, the very first event, and the same event a tenth of a second
      later. */
  lemma HalfLuxIsNotQuiet()
    ensures var o := Process(HalfGain(), INITIAL, DARK_INPUT);
            var o' := Process(HalfGain(), o.st, DARK_INPUT.(now := 1 + RATE_NS));
            o.kind == Recomputed && o'.kind != WithinBand && o'.kind != TooFast
  {
    HalfLuxIsRecomputed();
    HalfALux(HalfGain());
    UnquietAgain(HalfGain(), INITIAL, DARK_INPUT);
  }

  lemma HalfALux(env: Env)
    requires env == HalfGain() && Raw(env, DARK_INPUT) == 1.0
    ensures !ZeroOrOneLux(env, Reading(env, DARK_INPUT), Raw(env, DARK_INPUT))
  {
  }

  /** Every vendor light sensor found runs the initialisation again, and each one rescales the same table:
      twice is once only for a gain of one. */
  lemma RescalingTwiceIsNotOnce(k: real)
    requires k > 0.0
    ensures Rescaled(Rescaled(BASE_RANGES, k), k) == Rescaled(BASE_RANGES, k) <==> k == 1.0
  {
    var once := Rescaled(BASE_RANGES, k);
    var twice := Rescaled(once, k);
    assert once[1].min == 1.0 / k && twice[1].min == once[1].min / k;
    assert once[1].min * k == 1.0;
    assert twice[1].min * k == once[1].min;
    if k == 1.0 {
      assert forall i | 0 <= i < 10 :: twice[i] == once[i];
    }
  }
}
