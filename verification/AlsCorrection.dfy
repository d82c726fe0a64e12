/** The ambient-light filter as it is written: one object that updates its state and the event in place. */
module AlsCorrection {
  import opened Basics
  import opened SensorTypes
  import opened AreaCapture
  import M = AlsModel

  /** What initialisation reads from properties and calibration files; a reading of zero means "absent". */
  datatype Settings = Settings(
    hbr: bool, bias: real, maxLux: seq<real>, maxLuxDiv: seq<real>, poly: seq<seq<real>>, weights: seq<real>,
    gaincalPoints: seq<real>, inverseGain: seq<real>, rowCoe: real, caliCoe: real, maxBrightness: real)

  /** The array sizes; what is divided by is positive. */
  predicate Usable(s: Settings) {
    && |s.maxLux| == |s.maxLuxDiv| == |s.poly| == |s.gaincalPoints| == |s.inverseGain| == 4 && |s.weights| == 3
    && (forall i | 0 <= i < 4 :: |s.poly[i]| == 4 && s.maxLuxDiv[i] != 0.0)
    && s.maxBrightness > 0.0 && FirstInverseGain(s) > 0.0
  }

  function FirstInverseGain(s: Settings): real
    requires |s.inverseGain| > 0
  {
    if s.rowCoe != 0.0 then s.rowCoe / 1000.0 else s.inverseGain[0]
  }

  function CalibGain(s: Settings): real {
    if s.caliCoe > 0.0 then s.caliCoe / 1000.0 else 1.0
  }

  /** A display maximum that was not read keeps its earlier value. */
  function MaxLux(s: Settings, before: seq<real>): (r: seq<real>)
    requires |s.maxLux| == |before| == 4
    ensures |r| == 4
  {
    seq(4, i requires 0 <= i < 4 => if s.maxLux[i] != 0.0 then s.maxLux[i] else before[i])
  }

  /** The white channel's factor comes from what red, green and blue together exceed white by. */
  function Postmul(s: Settings, lux: seq<real>): (factors: seq<real>)
    requires Usable(s) && |lux| == 4
    ensures |factors| == 4
  {
    [lux[0] / s.maxLuxDiv[0], lux[1] / s.maxLuxDiv[1], lux[2] / s.maxLuxDiv[2],
     (lux[0] + lux[1] + lux[2] - lux[3]) / s.maxLuxDiv[3]]
  }

  /** Without dividing: the factor of a colour times its divisor is the colour's maximum, and that of white what the
      colours' maxima exceed white's by. */
  predicate AreFactors(s: Settings, lux: seq<real>, factors: seq<real>)
    requires Usable(s) && |lux| == |factors| == 4
  {
    && (forall i | 0 <= i < 3 :: factors[i] * s.maxLuxDiv[i] == lux[i])
    && factors[3] * s.maxLuxDiv[3] + lux[3] == lux[0] + lux[1] + lux[2]
  }

  lemma QuotientTimesDivisor(a: real, b: real)
    requires b != 0.0
    ensures a / b * b == a
  {
  }

  lemma PostmulAreFactors(s: Settings, lux: seq<real>)
    requires Usable(s) && |lux| == 4
    ensures AreFactors(s, lux, Postmul(s, lux))
  {
    QuotientTimesDivisor(lux[0], s.maxLuxDiv[0]);
    QuotientTimesDivisor(lux[1], s.maxLuxDiv[1]);
    QuotientTimesDivisor(lux[2], s.maxLuxDiv[2]);
    QuotientTimesDivisor(lux[0] + lux[1] + lux[2] - lux[3], s.maxLuxDiv[3]);
  }

  class AlsCorrection {
    var conf: M.Config
    /** hysteresis_ranges, rescaled in place by every initialisation. */
    const ranges: array<M.Range>

    var lastUpdate: int
    var lastForced: int
    var force: bool
    var hystMin: real
    var hystMax: M.Bound
    var lastCorrected: real
    var lastAgcGain: real

    ghost function State(): M.State
      reads this
    {
      M.State(lastUpdate, lastForced, force, hystMin, hystMax, lastCorrected, lastAgcGain)
    }

    ghost function Env(gamma: real -> real): M.Env
      reads this, ranges
    {
      M.Env(conf, ranges[..], gamma)
    }

    constructor ()
      ensures State() == M.INITIAL && ranges[..] == M.BASE_RANGES && fresh(ranges)
      ensures conf.maxLux == [0.0, 0.0, 0.0, 0.0]
    {
      var zeros := [0.0, 0.0, 0.0, 0.0];
      conf := M.Config(false, zeros, zeros, [zeros, zeros, zeros, zeros], [0.0, 0.0, 0.0], zeros, zeros, 0.0, 0.0, 0.0, 0.0);
      ranges := new M.Range[|M.BASE_RANGES|](i requires 0 <= i < |M.BASE_RANGES| => M.BASE_RANGES[i]);
      lastUpdate, lastForced, force, hystMin, hystMax := 0, 0, true, -1.0, M.Finite(-1.0);
      lastCorrected, lastAgcGain := 0.0, 0.0;
    }

    method ReadMaxLux(s: Settings) returns (maxLux: seq<real>, luxPostmul: seq<real>)
      requires Usable(s) && |conf.maxLux| == 4
      ensures maxLux == MaxLux(s, conf.maxLux)
      ensures forall i | 0 <= i < 4 :: maxLux[i] == if s.maxLux[i] != 0.0 then s.maxLux[i] else conf.maxLux[i]
      ensures luxPostmul == Postmul(s, maxLux) && AreFactors(s, maxLux, luxPostmul)
    {
      maxLux, luxPostmul := conf.maxLux, [];
      var acc := 0.0;
      for i := 0 to 4
        invariant |maxLux| == 4 && |luxPostmul| == i
        invariant forall k | 0 <= k < 4 :: maxLux[k] == if k < i then MaxLux(s, conf.maxLux)[k] else conf.maxLux[k]
        invariant acc == if i == 0 then 0.0 else if i == 1 then maxLux[0] else if i == 2 then maxLux[0] + maxLux[1]
                         else if i == 3 then maxLux[0] + maxLux[1] + maxLux[2]
                         else maxLux[0] + maxLux[1] + maxLux[2] - maxLux[3]
        invariant forall k | 0 <= k < i && k < 3 :: luxPostmul[k] == maxLux[k] / s.maxLuxDiv[k]
        invariant i == 4 ==> luxPostmul[3] == acc / s.maxLuxDiv[3]
      {
        if s.maxLux[i] != 0.0 {
          maxLux := maxLux[i := s.maxLux[i]];
        }
        if i < 3 {
          acc := acc + maxLux[i];
          luxPostmul := luxPostmul + [maxLux[i] / s.maxLuxDiv[i]];
        } else {
          acc := acc - maxLux[i];
          luxPostmul := luxPostmul + [acc / s.maxLuxDiv[i]];
        }
      }
      assert luxPostmul == Postmul(s, maxLux);
      PostmulAreFactors(s, maxLux);
    }

    /** The scaling part of the initialisation: the band table is rescaled again on every call. */
    method Init(s: Settings)
      requires Usable(s) && ranges.Length > 0 && |conf.maxLux| == 4
      modifies `conf, ranges
      ensures M.Shape(conf)
      ensures conf.maxLux == MaxLux(s, old(conf.maxLux)) && conf.luxPostmul == Postmul(s, conf.maxLux)
      ensures AreFactors(s, conf.maxLux, conf.luxPostmul)
      ensures conf.inverseGain == s.inverseGain[0 := FirstInverseGain(s)] && conf.calibGain == CalibGain(s) > 0.0
      ensures conf.agcThreshold * conf.inverseGain[0] == 800.0
      ensures if s.rowCoe != 0.0 then conf.inverseGain[0] * 1000.0 == s.rowCoe else conf.inverseGain[0] == s.inverseGain[0]
      ensures forall i | 1 <= i < 4 :: conf.inverseGain[i] == s.inverseGain[i]
      ensures if s.caliCoe > 0.0 then conf.calibGain * 1000.0 == s.caliCoe else conf.calibGain == 1.0
      ensures conf.poly == s.poly && conf.weights == s.weights && conf.gaincalPoints == s.gaincalPoints
      ensures conf.hbr == s.hbr && conf.bias == s.bias && conf.maxBrightness == s.maxBrightness
      ensures M.TableGain(conf) > 0.0 && ranges[..] == M.Rescaled(old(ranges[..]), M.TableGain(conf))
    {
      var maxLux, luxPostmul := ReadMaxLux(s);
      var inverseGain := s.inverseGain;
      if s.rowCoe != 0.0 {
        inverseGain := inverseGain[0 := s.rowCoe / 1000.0];
      }
      assert inverseGain == s.inverseGain[0 := FirstInverseGain(s)];
      var calibGain := if s.caliCoe > 0.0 then s.caliCoe / 1000.0 else 1.0;
      conf := M.Config(s.hbr, maxLux, luxPostmul, s.poly, s.weights, s.gaincalPoints, inverseGain,
                       800.0 / inverseGain[0], calibGain, s.bias, s.maxBrightness);
      RescaleRanges(M.TableGain(conf));
    }

    method RescaleRanges(k: real)
      requires k > 0.0 && ranges.Length > 0
      modifies ranges
      ensures ranges[..] == M.Rescaled(old(ranges[..]), k)
    {
      for i := 0 to ranges.Length
        invariant forall j | 0 <= j < i :: ranges[j] == M.ScaleRange(old(ranges[j]), k)
        invariant forall j | i <= j < ranges.Length :: ranges[j] == old(ranges[j])
      {
        ranges[i] := M.ScaleRange(ranges[i], k);
      }
      ranges[0] := ranges[0].(min := -1.0);
    }

    method Polynomial(coefs: seq<real>, x: real) returns (corr: real)
      ensures corr == M.Horner(coefs, x)
    {
      corr := 0.0;
      for j := 0 to |coefs|
        invariant corr == M.Horner(coefs[..j], x)
      {
        assert coefs[..j + 1][..j] == coefs[..j];
        corr := corr * x;
        corr := corr + coefs[j];
      }
      assert coefs[..|coefs|] == coefs;
    }

    method AllChannels(rgbw: seq<real>) returns (light: real)
      requires M.Shape(conf) && |rgbw| == 4
      ensures light == M.ScreenLight(conf, rgbw, |rgbw|)
    {
      light := 0.0;
      for i := 0 to 4
        invariant light == M.ScreenLight(conf, rgbw, i)
      {
        var corr := Polynomial(conf.poly[i], rgbw[i]);
        corr := corr * conf.luxPostmul[i];
        assert corr == M.ChannelLight(conf, rgbw, i);
        if i < 3 {
          light := light + M.RealMax(corr, 0.0);
        } else {
          light := light - corr;
        }
      }
    }

    method ScreenCorrection(rgb: Rgb, brightness: real, gamma: real -> real) returns (correction: real)
      requires M.Shape(conf)
      ensures correction == M.Correction(conf, rgb, brightness, gamma)
    {
      var gray := rgb.r * conf.weights[0] + rgb.g * conf.weights[1] + rgb.b * conf.weights[2];
      assert gray == M.Grayscale(conf, rgb);
      var rgbw := [rgb.r, rgb.g, rgb.b, gray];
      assert rgbw == M.Rgbw(conf, rgb);
      correction := AllChannels(rgbw);
      correction := correction * (brightness / conf.maxBrightness);
      var brightnessFullwhite := conf.maxLux[3] * brightness / conf.maxBrightness;
      assert brightnessFullwhite == M.FullWhite(conf, brightness);
      var brightnessGrayscaleGamma := gamma(rgbw[3] / 255.0) * brightnessFullwhite;
      correction := M.RealMin(correction, brightnessFullwhite);
      correction := M.RealMax(correction, brightnessGrayscaleGamma);
    }

    method SelectGain(raw: real, data2: real) returns (agcGain: real)
      requires M.Shape(conf)
      ensures agcGain == M.AgcGain(conf, raw, data2)
    {
      agcGain := conf.inverseGain[0];
      if raw > conf.agcThreshold {
        for i := 0 to 4
          invariant agcGain == M.GainUpTo(conf, raw, data2, i)
        {
          if M.Exceeds(conf, raw, data2, i) {
            agcGain := conf.inverseGain[i];
          }
        }
      }
    }

    method SelectBand(lux: real, full: real)
      modifies `hystMin, `hystMax
      ensures var i := M.Band(ranges[..], lux);
              && State() == (if i == ranges.Length then old(State())
                             else old(State()).(hystMin := ranges[i].min, hystMax := M.Plus(ranges[i].max, full)))
    {
      var i := 0;
      while i < ranges.Length
        invariant 0 <= i <= ranges.Length && State() == old(State())
        invariant forall k | 0 <= k < i :: !M.AtMost(lux, ranges[k].middle)
      {
        if M.AtMost(lux, ranges[i].middle) {
          hystMin := ranges[i].min;
          hystMax := M.Plus(ranges[i].max, full);
          break;
        }
        i := i + 1;
      }
      FirstBand(ranges[..], lux, i);
    }

    lemma FirstBand(ranges: seq<M.Range>, lux: real, i: nat)
      requires i <= |ranges| && (forall k | 0 <= k < i :: !M.AtMost(lux, ranges[k].middle))
      requires i < |ranges| ==> M.AtMost(lux, ranges[i].middle)
      ensures M.Band(ranges, lux) == i
    {
    }

    /** The state update and the value after a successful capture. */
    method ApplyCapture(reading: real, data2: real, brightness: real, rgb: Rgb, gamma: real -> real) returns (recomputed: bool)
      requires M.Shape(conf)
      modifies `hystMin, `hystMax, `lastAgcGain, `lastCorrected, `force
      ensures var (st, again) := M.Capture(old(Env(gamma)), old(State()), reading, data2, brightness, rgb);
              State() == st && recomputed == again
    {
      ghost var env, before := Env(gamma), State();
      var correction := ScreenCorrection(rgb, brightness, gamma);
      var raw := M.RealMax(reading - correction, 0.0);
      var agcGain := SelectGain(raw, data2);
      recomputed := M.WorthRecomputing(conf, correction, reading, agcGain, force);
      if recomputed {
        var lux := M.Lux(conf, raw, agcGain);
        var full := conf.maxLux[3] * brightness / conf.maxBrightness;
        assert full == M.FullWhite(conf, brightness);
        SelectBand(lux, full);
        lastAgcGain := agcGain;
        lastCorrected := M.RealMax(lux - 14.0, 0.0);
      }
      force := false;
    }

    /** The rate filter and the refresh timer. */
    method Tick(now: int, brightness: real) returns (passes: bool)
      modifies `lastUpdate, `lastForced, `force
      ensures M.Ticked(State(), passes) == M.Tick(old(State()), now, brightness)
    {
      if lastUpdate == 0 {
        lastUpdate := now;
        lastForced := now;
      } else {
        if brightness > 0.0 && now - lastForced > M.REFRESH_NS {
          lastForced := now;
          force := true;
        }
        if now - lastUpdate < M.RATE_NS {
          return false;
        }
        lastUpdate := now;
      }
      return true;
    }

    /** One event. `capture` is the answer of the screenshot service, none when there is no service or the
        capture fails. An event is "dropped" only by rewriting its handle to zero. */
    method Process(event: Event, now: int, brightness: real, capture: Option<Rgb>, gamma: real -> real)
      returns (result: Event)
      requires M.Shape(conf)
      modifies `lastUpdate, `lastForced, `force, `hystMin, `hystMax, `lastCorrected, `lastAgcGain
      ensures var o := M.Process(old(Env(gamma)), old(State()), M.Input(event, now, brightness, capture));
              State() == o.st && result == o.event
    {
      result := event;
      if result.scalar > conf.bias {
        result := result.(scalar := result.scalar - conf.bias);
      }
      var reading := result.scalar;
      assert reading == M.Debiased(conf, event.scalar);
      var passes := Tick(now, brightness);
      if !passes {
        result := result.(sensorHandle := 0);
        return;
      }
      if M.NeedsCapture(conf, M.State(lastUpdate, lastForced, force, hystMin, hystMax, lastCorrected, lastAgcGain), reading) {
        if capture.None? {
          result := result.(sensorHandle := 0);
          return;
        }
        var _ := ApplyCapture(reading, event.data2, brightness, capture.value, gamma);
      }
      result := result.(scalar := lastCorrected);
    }
  }
}
