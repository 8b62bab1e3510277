/** The internal time base of decoded audio, chosen anew when the sample rate changes:
audio_samplerate_update of fftools/ffmpeg_dec.c. */
module SampleRateModel {
  import opened Arithmetic
  import opened GcdModel
  import opened Time

  datatype Frame = Frame(rate: Pos, tb: Rational)

  /** `rate` is 0 before the first frame. */
  datatype Decoder = Decoder(tb: Rational, rate: nat, pts: int, duration: int)

  function Start(): Decoder {
    Decoder(Rational(1, 1), 0, NOPTS, 0)
  }

  /** The test for a product out of int range. */
  predicate Overflows(prev: Pos, rate: Pos) {
    prev / Gcd(prev, rate) >= INT_MAX / rate
  }

  predicate Fallback(d: Decoder, f: Frame) {
    f.rate != d.rate && Overflows(d.tb.den, f.rate)
  }

  /** A least common multiple of 192000 and 44100. */
  const COMMON: Pos := 28_224_000

  /** The base defined by the rates alone. */
  function RateBase(prev: Pos, rate: Pos): Rational {
    GcdDivides(prev, rate);
    QuotientPos(prev, Gcd(prev, rate));
    MulPos(prev / Gcd(prev, rate), rate);
    if Overflows(prev, rate) then Rational(1, COMMON) else Rational(1, prev / Gcd(prev, rate) * rate)
  }

  /** The frame's own base, if it is a refinement of that one. */
  function NewBase(prev: Pos, f: Frame): Rational {
    var tb := RateBase(prev, f.rate);
    if f.tb.num == 1 && f.tb.den > tb.den && f.tb.den % tb.den == 0 then f.tb else tb
  }

  function Update(d: Decoder, f: Frame): Decoder {
    if f.rate == d.rate then d
    else
      var tb := NewBase(d.tb.den, f);
      Decoder(tb, f.rate, if d.pts != NOPTS then Rescale(d.pts, d.tb, tb) else NOPTS, Rescale(d.duration, d.tb, tb))
  }

  /** Between updates audio_ts_process sets the last timestamp and duration anew. */
  datatype Step = Step(frame: Frame, pts: int, duration: int)

  function After(d: Decoder, s: Step): Decoder {
    Update(d, s.frame).(pts := s.pts, duration := s.duration)
  }

  function Run(d: Decoder, steps: seq<Step>): Decoder {
    if steps == [] then d else After(Run(d, steps[..|steps| - 1]), steps[|steps| - 1])
  }

  // ---- the base ----

  /** The base is the coarsest one in which the old base and the new rate both fit: its
      denominator is their least common multiple. */
  lemma CoarsestBase(prev: Pos, rate: Pos, den: Pos)
    requires !Overflows(prev, rate)
    ensures var l := RateBase(prev, rate).den;
            Divides(prev, den) && Divides(rate, den) <==> Divides(l, den)
  {
    var l := RateBase(prev, rate).den;
    CommonMultiple(prev, rate);
    if Divides(prev, den) && Divides(rate, den) {
      LeastCommonMultiple(prev, rate, den);
    }
    if Divides(l, den) {
      DividesTransitive(prev, l, den);
      DividesTransitive(rate, l, den);
    }
  }

  /** The fallback is taken exactly if one more sample rate would leave the int range. */
  lemma OverflowsIff(prev: Pos, rate: Pos)
    ensures Overflows(prev, rate) <==> prev / Gcd(prev, rate) * rate + rate > INT_MAX
  {
    var q := prev / Gcd(prev, rate);
    DivFloor(INT_MAX, rate, q + 1);
    assert (q + 1) * rate == q * rate + rate;
  }

  lemma NewBaseMultiple(prev: Pos, f: Frame)
    requires !Overflows(prev, f.rate)
    ensures NewBase(prev, f).num == 1
    ensures Divides(prev, NewBase(prev, f).den) && Divides(f.rate, NewBase(prev, f).den)
    ensures RateBase(prev, f.rate).den < INT_MAX
  {
    CommonMultiple(prev, f.rate);
    OverflowsIff(prev, f.rate);
    var l := RateBase(prev, f.rate).den;
    if NewBase(prev, f) == f.tb {
      if Divides(l, f.tb.den) {
        DividesTransitive(prev, l, f.tb.den);
        DividesTransitive(f.rate, l, f.tb.den);
      }
    }
  }

  /** The frame's own base is taken exactly if it counts in units 1/den and both the old base and the
      new rate fit into it (or, at the fallback, its base does), and the coarsest of those otherwise. */
  lemma OwnBaseIff(prev: Pos, f: Frame)
    ensures var tb := NewBase(prev, f);
            if Overflows(prev, f.rate) then
              tb == if f.tb.num == 1 && Divides(COMMON, f.tb.den) then f.tb else Rational(1, COMMON)
            else if f.tb.num == 1 && Divides(prev, f.tb.den) && Divides(f.rate, f.tb.den) then tb == f.tb
            else tb == RateBase(prev, f.rate)
  {
    var l := RateBase(prev, f.rate).den;
    if !Overflows(prev, f.rate) {
      CoarsestBase(prev, f.rate, f.tb.den);
    }
    if Divides(l, f.tb.den) && f.tb.den <= l {
      DividesAtMost(l, f.tb.den);
    }
  }

  lemma DividesAtMost(a: Pos, b: Pos)
    requires Divides(a, b)
    ensures a <= b
  {
  }

  /** A frame of the rate in use changes nothing. */
  lemma SameRateKeeps(d: Decoder, f: Frame)
    requires f.rate == d.rate
    ensures Update(d, f) == d
  {
  }

  /** Without the fallback, the last timestamp and duration are carried over exactly. */
  lemma UpdateExact(d: Decoder, f: Frame)
    requires d.tb.num == 1 && !Fallback(d, f)
    ensures var d' := Update(d, f);
            && d'.tb.num == 1
            && (d.pts != NOPTS ==> Instant(d'.pts, d'.tb) == Instant(d.pts, d.tb))
            && Instant(d'.duration, d'.tb) == Instant(d.duration, d.tb)
  {
    if f.rate != d.rate {
      NewBaseMultiple(d.tb.den, f);
      var tb := NewBase(d.tb.den, f);
      FinerIsWhole(d.pts, d.tb, tb);
      FinerIsWhole(d.duration, d.tb, tb);
      RescaleExact(d.pts, d.tb, tb);
      RescaleExact(d.duration, d.tb, tb);
    }
  }

  lemma FinerIsWhole(ts: int, from: Rational, to: Rational)
    requires from.num == 1 && to.num == 1 && Divides(from.den, to.den)
    ensures WholeTicks(ts, from, to)
  {
    DividesProduct(from.den, to.den, ts);
  }

  /** With the fallback, the last timestamp is kept exactly if it is a whole number of ticks of
      the new base. */
  lemma FallbackExactIff(d: Decoder, f: Frame)
    requires Fallback(d, f) && d.pts != NOPTS
    ensures var d' := Update(d, f);
            Instant(d'.pts, d'.tb) == Instant(d.pts, d.tb) <==> WholeTicks(d.pts, d.tb, NewBase(d.tb.den, f))
  {
    RescaleExact(d.pts, d.tb, NewBase(d.tb.den, f));
  }

  /** The base of the fallback is the coarsest for 192000 and 44100 Hz, and so has room for all
      rates that divide one of them. */
  lemma FallbackIsCommon(rate: Pos)
    ensures COMMON == 192000 / Gcd(192000, 44100) * 44100
    ensures Divides(rate, 192000) || Divides(rate, 44100) ==> Divides(rate, COMMON)
  {
    assert Gcd(2100, 600) == 300;
    assert Gcd(12900, 2700) == Gcd(2700, 2100) == Gcd(2100, 600);
    assert Gcd(44100, 15600) == Gcd(15600, 12900) == Gcd(12900, 2700);
    assert Gcd(192000, 44100) == Gcd(44100, 15600);
    CommonMultiple(192000, 44100);
    if Divides(rate, 192000) {
      DividesTransitive(rate, 192000, COMMON);
    }
    if Divides(rate, 44100) {
      DividesTransitive(rate, 44100, COMMON);
    }
  }

  /** Without the fallback, the base is refined so that the frame's rate fits as well. */
  lemma UpdateRefines(d: Decoder, f: Frame)
    requires !Fallback(d, f) && (d.rate > 0 ==> Divides(d.rate, d.tb.den))
    ensures var tb := Update(d, f).tb;
            && (d.tb.num == 1 ==> tb.num == 1)
            && Divides(d.tb.den, tb.den) && Divides(f.rate, tb.den)
  {
    MultipleDivides(d.tb.den, 1);
    if f.rate != d.rate {
      NewBaseMultiple(d.tb.den, f);
    }
  }

  predicate NoFallback(d: Decoder, steps: seq<Step>) {
    forall k :: 0 <= k < |steps| ==> !Fallback(Run(d, steps[..k]), steps[k].frame)
  }

  lemma RunLast(d: Decoder, steps: seq<Step>)
    requires NoFallback(d, steps) && steps != []
    ensures var last := |steps| - 1;
            var before := Run(d, steps[..last]);
            && NoFallback(d, steps[..last])
            && !Fallback(before, steps[last].frame)
            && Run(d, steps) == After(before, steps[last])
  {
    var last := |steps| - 1;
    assert forall j :: 0 <= j < last ==> steps[..last][..j] == steps[..j];
  }

  /** Over any sequence of sample rates, until the fallback is taken, every rate seen divides
      the denominator of the base, so that each sample instant has an exact timestamp. */
  lemma {:induction false} EveryRateFits(steps: seq<Step>, k: nat)
    requires NoFallback(Start(), steps) && k < |steps|
    ensures var d := Run(Start(), steps);
            d.tb.num == 1 && Divides(steps[k].frame.rate, d.tb.den)
  {
    hide Divides, Update, Fallback, Run, NoFallback;
    var last := |steps| - 1;
    var before := steps[..last];
    RunLast(Start(), steps);
    var d := Run(Start(), before);
    var f := steps[last].frame;
    BaseKept(before);
    UpdateRefines(d, f);
    if k < last {
      EveryRateFits(before, k);
      DividesTransitive(steps[k].frame.rate, d.tb.den, Update(d, f).tb.den);
    }
  }

  /** And each of these changes of base carries the last timestamp and duration over exactly. */
  lemma EveryChangeExact(steps: seq<Step>, k: nat)
    requires NoFallback(Start(), steps) && k < |steps|
    ensures var d := Run(Start(), steps[..k]);
            var d' := Update(d, steps[k].frame);
            && (d.pts != NOPTS ==> Instant(d'.pts, d'.tb) == Instant(d.pts, d.tb))
            && Instant(d'.duration, d'.tb) == Instant(d.duration, d.tb)
  {
    assert forall j :: 0 <= j < k ==> steps[..k][..j] == steps[..j];
    BaseKept(steps[..k]);
    UpdateExact(Run(Start(), steps[..k]), steps[k].frame);
  }

  /** The base always counts in units 1/den, and the current rate divides it. */
  lemma {:induction false} BaseKept(steps: seq<Step>)
    requires NoFallback(Start(), steps)
    ensures Run(Start(), steps).tb.num == 1
    ensures var d := Run(Start(), steps); d.rate > 0 ==> Divides(d.rate, d.tb.den)
  {
    if steps != [] {
      var last := |steps| - 1;
      var before := steps[..last];
      RunLast(Start(), steps);
      BaseKept(before);
      var d := Run(Start(), before);
      UpdateRefines(d, steps[last].frame);
    }
  }

  // ---- a lost instant ----

  function Plain(rate: Pos): Frame {
    Frame(rate, Rational(1, rate))
  }

  /** 48000 and 44056 Hz, and a last timestamp of one tick. */
  function OddRates(): seq<Step> {
    [Step(Plain(48000), 0, 0), Step(Plain(44056), 1, 0)]
  }

  /** At the third sample rate the fallback is taken, and the last timestamp becomes 0. */
  lemma FallbackLosesInstant()
    ensures NoFallback(Start(), OddRates())
    ensures var d := Run(Start(), OddRates());
            var d' := Update(d, Plain(44100));
            && d.pts == 1 && d.tb == Rational(1, 264_336_000) && Fallback(d, Plain(44100))
            && d'.pts == 0 && Instant(d'.pts, d'.tb) != Instant(d.pts, d.tb)
  {
    OddGcds();
    hide Gcd, Instant;
    var steps := OddRates();
    var d1 := Decoder(Rational(1, 48000), 48000, 0, 0);
    assert Rescale(0, Rational(1, 1), Rational(1, 48000)) == 0;
    assert Run(Start(), []) == Start();
    assert steps[..1] == [steps[0]] && steps[..1][..0] == [] && steps[..0] == [];
    assert After(Start(), steps[0]) == d1;
    assert Run(Start(), steps[..1]) == d1;
    assert Rescale(0, Rational(1, 48000), Rational(1, 264_336_000)) == 0;
    var d := Decoder(Rational(1, 264_336_000), 44056, 1, 0);
    assert After(d1, steps[1]) == d;
    assert Run(Start(), steps) == d;
    assert NewBase(264_336_000, Plain(44100)) == Rational(1, COMMON);
    FallbackExactIff(d, Plain(44100));
  }

  lemma OddGcds()
    ensures Gcd(1, 48000) == 1 && Gcd(48000, 44056) == 8 && Gcd(264_336_000, 44100) == 300
  {
    assert Gcd(48000, 1) == 1;
    assert Gcd(280, 24) == 8;
    assert Gcd(3944, 672) == Gcd(672, 584) == Gcd(584, 88) == Gcd(88, 56);
  }
}

module SampleRates {
  import opened Arithmetic
  import opened GcdModel
  import opened Time
  import opened SampleRateModel

  class AudioDecoder {
    var lastFrameTb: Rational
    var lastFrameSampleRate: nat
    var lastFramePts: int
    var lastFrameDurationEst: int

    ghost function State(): Decoder
      reads this
    {
      Decoder(lastFrameTb, lastFrameSampleRate, lastFramePts, lastFrameDurationEst)
    }

    constructor ()
      ensures State() == Start()
    {
      lastFrameTb, lastFrameSampleRate, lastFramePts, lastFrameDurationEst := Rational(1, 1), 0, NOPTS, 0;
    }

    method SamplerateUpdate(frame: Frame) returns (tb: Rational)
      modifies this
      ensures State() == Update(old(State()), frame) && tb == lastFrameTb
    {
      var prev, sr := lastFrameTb.den, frame.rate;
      if frame.rate == lastFrameSampleRate {
        return lastFrameTb;
      }
      GcdDivides(prev, sr);
      var gcd := AvGcd(prev, sr);
      QuotientPos(prev, gcd);
      var tbNew := Rational(1, COMMON);
      if prev / gcd < INT_MAX / sr {
        MulPos(prev / gcd, sr);
        tbNew := Rational(1, prev / gcd * sr);
      }
      if frame.tb.num == 1 && frame.tb.den > tbNew.den && frame.tb.den % tbNew.den == 0 {
        tbNew := frame.tb;
      }
      if lastFramePts != NOPTS {
        lastFramePts := Rescale(lastFramePts, lastFrameTb, tbNew);
      }
      lastFrameDurationEst := Rescale(lastFrameDurationEst, lastFrameTb, tbNew);
      lastFrameTb := tbNew;
      lastFrameSampleRate := frame.rate;
      return lastFrameTb;
    }
  }
}
