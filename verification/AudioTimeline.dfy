/**
 Audio timestamps across sample rate changes (audio_samplerate_update and audio_ts_process of
 ffmpeg_dec.c): the internal time base grows so that every rate seen so far is exact in it.
 */
module AudioTimeline {
  import opened Common
  import opened Rescaling

  const INT_MAX := 0x7FFF_FFFF
  /** The base that is used when the exact one does not fit an int. */
  const FALLBACK := 28_224_000

  datatype Frame = Frame(sampleRate: int, timeBase: Rational, pts: Option<int>, nbSamples: int, duration: int)

  /** The audio fields of DecoderPriv. */
  datatype Clock = Clock(tb: Rational, sampleRate: int, pts: Option<int>, durationEst: int, filter: Option<int>)

  datatype Delta = Delta(ts: int, last: Option<int>)

  /** av_rescale_delta is foreign, except that equal bases leave the timestamp alone. */
  type DeltaFunction = (Rational, int, Rational, int, Option<int>) -> Delta

  function RescaleDelta(f: DeltaFunction, inTb: Rational, ts: int, n: int, last: Option<int>, tb: Rational): Delta {
    var d := f(inTb, ts, tb, n, last);
    if inTb == tb then d.(ts := ts) else d
  }

  predicate Divides(d: int, x: int) {
    d > 0 && x % d == 0
  }

  lemma DividesTransitive(a: int, b: int, c: int)
    requires Divides(a, b) && Divides(b, c)
    ensures Divides(a, c)
  {
    assert c == (c / b) * b && b == (b / a) * a;
    assert c == ((c / b) * (b / a)) * a;
    MultipleDivides((c / b) * (b / a), a);
  }

  // ---- The code ---------------------------------------------------------------------------------

  predicate FrameOk(f: Frame) {
    0 < f.sampleRate <= INT_MAX && Positive(f.timeBase) && f.timeBase.den <= INT_MAX
  }

  predicate ClockOk(c: Clock) {
    && c.tb.num == 1 && 0 < c.tb.den <= INT_MAX
    && (c.sampleRate == 0 || Divides(c.sampleRate, c.tb.den))
  }

  predicate TakesFallback(c: Clock, f: Frame)
    requires FrameOk(f) && c.tb.den > 0
  {
    f.sampleRate != c.sampleRate && c.tb.den / Gcd(c.tb.den, f.sampleRate) >= INT_MAX / f.sampleRate
  }

  /** The base chosen when the sample rate has changed. */
  function NewBase(c: Clock, f: Frame): (tb: Rational)
    requires FrameOk(f) && 0 < c.tb.den
    ensures Positive(tb)
  {
    var g := Gcd(c.tb.den, f.sampleRate);
    assert c.tb.den / g > 0 by { assert c.tb.den == (c.tb.den / g) * g; }
    ProductPositive(c.tb.den / g, f.sampleRate);
    var den := if c.tb.den / g >= INT_MAX / f.sampleRate then FALLBACK else c.tb.den / g * f.sampleRate;
    if f.timeBase.num == 1 && f.timeBase.den > den && f.timeBase.den % den == 0 then f.timeBase else Rational(1, den)
  }

  function SampleRateUpdate(c: Clock, f: Frame): (r: Clock)
    requires FrameOk(f) && Positive(c.tb)
    ensures Positive(r.tb)
  {
    if f.sampleRate == c.sampleRate then c
    else
      var tb := NewBase(c, f);
      Clock(tb, f.sampleRate,
            if c.pts.Some? then Some(RescaleQ(c.pts.value, c.tb, tb)) else None,
            RescaleQ(c.durationEst, c.tb, tb), c.filter)
  }

  function Predicted(c: Clock): int {
    if c.pts.None? then 0 else c.pts.value + c.durationEst
  }

  /** av_rescale_q_rnd(.., AV_ROUND_UP) */
  function RescaleUp(a: int, from: Rational, to: Rational): int
    requires Positive(from) && Positive(to)
  {
    ProductPositive(from.den, to.num);
    -((-(a * (from.num * to.den))) / (from.den * to.num))
  }

  function TimestampProcess(c0: Clock, f: Frame, delta: DeltaFunction): (r: (Clock, Frame))
    requires FrameOk(f) && Positive(c0.tb)
    ensures Positive(r.0.tb)
  {
    var c := SampleRateUpdate(c0, f);
    var filterTb := Rational(1, f.sampleRate);
    var prediction := Predicted(c);
    var stamped := if f.pts.None? then f.(pts := Some(prediction), timeBase := c.tb) else f;
    var gap := f.pts.Some? && c.pts.Some? && f.pts.value > RescaleUp(prediction, c.tb, f.timeBase);
    var d := RescaleDelta(delta, stamped.timeBase, stamped.pts.value, f.nbSamples, if gap then None else c.filter, c.tb);
    (c.(pts := Some(d.ts), durationEst := RescaleQ(f.nbSamples, filterTb, c.tb), filter := d.last),
     f.(pts := Some(RescaleQ(d.ts, c.tb, filterTb)), duration := f.nbSamples, timeBase := filterTb))
  }

  class DecoderPriv {
    var lastFrameTb: Rational
    var lastFrameSampleRate: int
    var lastFramePts: Option<int>
    var lastFrameDurationEst: int
    var lastFilterInRescaleDelta: Option<int>

    constructor ()
      ensures View() == Clock(Rational(1, 1), 0, None, 0, None) && ClockOk(View())
    {
      lastFrameTb, lastFrameSampleRate := Rational(1, 1), 0;
      lastFramePts, lastFrameDurationEst, lastFilterInRescaleDelta := None, 0, None;
    }

    function View(): Clock
      reads this
    {
      Clock(lastFrameTb, lastFrameSampleRate, lastFramePts, lastFrameDurationEst, lastFilterInRescaleDelta)
    }

    method AudioSamplerateUpdate(frame: Frame) returns (tb: Rational)
      requires FrameOk(frame) && Positive(lastFrameTb)
      modifies this
      ensures View() == SampleRateUpdate(old(View()), frame) && tb == View().tb
    {
      hide Gcd, RescaleQ;
      var prev, sr := lastFrameTb.den, frame.sampleRate;
      if sr == lastFrameSampleRate {
        return lastFrameTb;
      }
      var gcd := Gcd(prev, sr);
      var tbNew;
      if prev / gcd >= INT_MAX / sr {
        tbNew := Rational(1, FALLBACK);
      } else {
        assert prev / gcd > 0 by { assert prev == (prev / gcd) * gcd; }
        ProductPositive(prev / gcd, sr);
        tbNew := Rational(1, prev / gcd * sr);
      }
      if frame.timeBase.num == 1 && frame.timeBase.den > tbNew.den && frame.timeBase.den % tbNew.den == 0 {
        tbNew := frame.timeBase;
      }
      assert tbNew == NewBase(View(), frame);
      if lastFramePts.Some? {
        lastFramePts := Some(RescaleQ(lastFramePts.value, lastFrameTb, tbNew));
      }
      lastFrameDurationEst := RescaleQ(lastFrameDurationEst, lastFrameTb, tbNew);
      lastFrameTb := tbNew;
      lastFrameSampleRate := sr;
      return lastFrameTb;
    }

    method AudioTsProcess(frame: Frame, delta: DeltaFunction) returns (out: Frame)
      requires FrameOk(frame) && Positive(lastFrameTb)
      modifies this
      ensures (View(), out) == TimestampProcess(old(View()), frame, delta)
    {
      out := frame;
      var tbFilter := Rational(1, frame.sampleRate);
      var tb := AudioSamplerateUpdate(frame);
      var ptsPred := if lastFramePts.None? then 0 else lastFramePts.value + lastFrameDurationEst;
      if out.pts.None? {
        out := out.(pts := Some(ptsPred), timeBase := tb);
      } else if lastFramePts.Some? && out.pts.value > RescaleUp(ptsPred, tb, out.timeBase) {
        lastFilterInRescaleDelta := None;
      }
      var d := RescaleDelta(delta, out.timeBase, out.pts.value, frame.nbSamples, lastFilterInRescaleDelta, tb);
      lastFilterInRescaleDelta := d.last;
      lastFramePts := Some(d.ts);
      lastFrameDurationEst := RescaleQ(frame.nbSamples, tbFilter, tb);
      out := out.(pts := Some(RescaleQ(d.ts, tb, tbFilter)), duration := frame.nbSamples, timeBase := tbFilter);
    }
  }

  // ---- The base only grows, and rescaling into it is exact ----------------------------------------

  lemma NewBaseGrows(c: Clock, f: Frame)
    requires ClockOk(c) && FrameOk(f) && f.sampleRate != c.sampleRate && !TakesFallback(c, f)
    ensures var tb := NewBase(c, f);
            tb.num == 1 && 0 < tb.den <= INT_MAX && Divides(c.tb.den, tb.den) && Divides(f.sampleRate, tb.den)
  {
    var prev, sr := c.tb.den, f.sampleRate;
    var g := Gcd(prev, sr);
    var m := prev / g;
    var den := m * sr;
    assert prev == m * g && sr == (sr / g) * g;
    assert m > 0;
    ProductPositive(m, sr);
    MultipleDivides(m, sr);
    assert den == (sr / g) * prev by { assert m * ((sr / g) * g) == (sr / g) * (m * g); }
    MultipleDivides(sr / g, prev);
    assert den <= INT_MAX by {
      DivisionBounds(INT_MAX, sr);
      MultiplyOrder(m, INT_MAX / sr, sr);
    }
    if f.timeBase.num == 1 && f.timeBase.den > den && f.timeBase.den % den == 0 {
      DividesTransitive(prev, den, f.timeBase.den);
      DividesTransitive(sr, den, f.timeBase.den);
    }
  }

  /** The fallback is only taken when the least exact base would come within one rate of INT_MAX. */
  lemma FallbackMeansTooLarge(c: Clock, f: Frame)
    requires ClockOk(c) && FrameOk(f) && TakesFallback(c, f)
    ensures c.tb.den / Gcd(c.tb.den, f.sampleRate) * f.sampleRate > INT_MAX - f.sampleRate
  {
    var sr := f.sampleRate;
    DivisionBounds(INT_MAX, sr);
    MultiplyOrder(INT_MAX / sr, c.tb.den / Gcd(c.tb.den, sr), sr);
  }

  /** Rescaling to a multiple of the base is a multiplication. */
  lemma ExactRescale(a: int, from: int, to: int)
    requires 0 < from && 0 < to && Divides(from, to)
    ensures RescaleQ(a, Rational(1, from), Rational(1, to)) == a * (to / from)
    ensures RescaleQ(a, Rational(1, from), Rational(1, to)) * from == a * to
  {
    var k := to / from;
    assert to == k * from;
    assert a * (1 * to) == (a * k) * from;
    RoundDivExact(a * k, from);
  }

  /** Time as a real number of seconds. */
  function Seconds(ts: int, den: int): real
    requires den > 0
  {
    ts as real / den as real
  }

  lemma SameSeconds(a: int, from: int, b: int, to: int)
    requires from > 0 && to > 0 && b * from == a * to
    ensures Seconds(b, to) == Seconds(a, from)
  {
    var x, y := Seconds(a, from), Seconds(b, to);
    var p := from as real * to as real;
    assert x * p == a as real * to as real by { assert x * from as real == a as real; }
    assert y * p == b as real * from as real by { assert y * to as real == b as real; }
    assert (b * from) as real == b as real * from as real && (a * to) as real == a as real * to as real;
    assert p > 0.0 && x * p == y * p;
    assert (x - y) * p == 0.0;
  }

  /** The end of the last frame: where a frame without a timestamp will be put. */
  function Position(c: Clock): real
    requires c.tb.den > 0
  {
    Seconds(Predicted(c), c.tb.den)
  }

  /** Two clocks that differ by an exact rescaling predict the same time. */
  lemma SamePosition(c: Clock, r: Clock)
    requires c.tb.den > 0 && r.tb.den > 0
    requires r.durationEst * c.tb.den == c.durationEst * r.tb.den
    requires if c.pts.None? then r.pts.None? else r.pts.Some? && r.pts.value * c.tb.den == c.pts.value * r.tb.den
    ensures Position(r) == Position(c)
  {
    hide Seconds;
    var from, to := c.tb.den, r.tb.den;
    if c.pts.Some? {
      assert (r.pts.value + r.durationEst) * from == r.pts.value * from + r.durationEst * from;
      assert (c.pts.value + c.durationEst) * to == c.pts.value * to + c.durationEst * to;
    }
    SameSeconds(Predicted(c), from, Predicted(r), to);
  }

  lemma UpdateIsExact(c: Clock, f: Frame)
    requires ClockOk(c) && FrameOk(f) && !TakesFallback(c, f)
    ensures var r := SampleRateUpdate(c, f);
            && ClockOk(r) && r.sampleRate == f.sampleRate && Divides(f.sampleRate, r.tb.den)
            && Divides(c.tb.den, r.tb.den) && Position(r) == Position(c)
            && (c.pts.Some? ==> r.pts.Some? && Seconds(r.pts.value, r.tb.den) == Seconds(c.pts.value, c.tb.den))
  {
    if f.sampleRate == c.sampleRate {
      MultipleDivides(1, c.tb.den);
    } else {
      NewBaseGrows(c, f);
      hide Seconds, NewBase, RescaleQ, Gcd, TakesFallback;
      var r := SampleRateUpdate(c, f);
      ExactRescale(c.durationEst, c.tb.den, r.tb.den);
      if c.pts.Some? {
        ExactRescale(c.pts.value, c.tb.den, r.tb.den);
        SameSeconds(c.pts.value, c.tb.den, r.pts.value, r.tb.den);
      }
      SamePosition(c, r);
    }
  }

  // ---- The base over any run ------------------------------------------------------------------------

  /** No frame of the run, stamped or not, makes the base take the fallback. */
  predicate NoFallback(c: Clock, fs: seq<Frame>, delta: DeltaFunction)
    requires Positive(c.tb) && forall i | 0 <= i < |fs| :: FrameOk(fs[i])
    decreases |fs|
  {
    fs == [] || (!TakesFallback(c, fs[0]) && NoFallback(TimestampProcess(c, fs[0], delta).0, fs[1..], delta))
  }

  /**
   Until the fallback is taken the base is 1/D, D fits an int, and is a multiple of every earlier
   D and of every sample rate of the run, whatever timestamps the frames carry.
   */
  lemma {:induction false} BaseGrowsOverRuns(c: Clock, fs: seq<Frame>, delta: DeltaFunction)
    requires ClockOk(c) && (forall i | 0 <= i < |fs| :: FrameOk(fs[i])) && NoFallback(c, fs, delta)
    ensures var r := After(c, fs, delta);
            && ClockOk(r) && Divides(c.tb.den, r.tb.den)
            && forall i | 0 <= i < |fs| :: Divides(fs[i].sampleRate, r.tb.den)
    decreases |fs|
  {
    if fs == [] {
      MultipleDivides(1, c.tb.den);
    } else {
      UpdateIsExact(c, fs[0]);
      var next := TimestampProcess(c, fs[0], delta).0;
      hide TimestampProcess, TakesFallback;
      BaseGrowsOverRuns(next, fs[1..], delta);
      var r := After(c, fs, delta);
      DividesTransitive(c.tb.den, next.tb.den, r.tb.den);
      forall i | 0 <= i < |fs| ensures Divides(fs[i].sampleRate, r.tb.den) {
        if i == 0 {
          DividesTransitive(fs[0].sampleRate, next.tb.den, r.tb.den);
        } else {
          assert Divides(fs[1..][i - 1].sampleRate, r.tb.den);
        }
      }
    }
  }

  // ---- Frames without timestamps lie end to end -----------------------------------------------------

  lemma SumOfSeconds(a: int, b: int, den: int)
    requires den > 0
    ensures Seconds(a + b, den) == Seconds(a, den) + Seconds(b, den)
  {
    var d := den as real;
    assert (a + b) as real == a as real + b as real;
    assert (a as real + b as real) / d == a as real / d + b as real / d;
  }

  /** One frame without a timestamp: it starts exactly where the last one ended, and lasts n / sr. */
  lemma UnstampedFrame(c: Clock, f: Frame, delta: DeltaFunction)
    requires ClockOk(c) && FrameOk(f) && f.pts.None? && !TakesFallback(c, f)
    ensures var (r, out) := TimestampProcess(c, f, delta);
            && ClockOk(r) && Divides(c.tb.den, r.tb.den) && Divides(f.sampleRate, r.tb.den)
            && r.pts.Some? && Seconds(r.pts.value, r.tb.den) == Position(c)
            && Position(r) == Position(c) + Seconds(f.nbSamples, f.sampleRate)
            && out.timeBase == Rational(1, f.sampleRate) && out.pts.Some?
            && out.pts.value == RoundDiv(r.pts.value * f.sampleRate, r.tb.den)
  {
    UpdateIsExact(c, f);
    var u := SampleRateUpdate(c, f);
    var (r, out) := TimestampProcess(c, f, delta);
    ExactRescale(f.nbSamples, f.sampleRate, r.tb.den);
    SameSeconds(f.nbSamples, f.sampleRate, r.durationEst, r.tb.den);
    SumOfSeconds(r.pts.value, r.durationEst, r.tb.den);
    assert 1 * f.sampleRate == f.sampleRate && r.tb.den * 1 == r.tb.den;
  }

  ghost predicate UnstampedRun(c: Clock, fs: seq<Frame>, delta: DeltaFunction)
    requires Positive(c.tb)
    decreases |fs|
  {
    fs == [] ||
    (FrameOk(fs[0]) && fs[0].pts.None? && !TakesFallback(c, fs[0]) && UnstampedRun(TimestampProcess(c, fs[0], delta).0, fs[1..], delta))
  }

  function After(c: Clock, fs: seq<Frame>, delta: DeltaFunction): (r: Clock)
    requires Positive(c.tb) && forall i | 0 <= i < |fs| :: FrameOk(fs[i])
    ensures Positive(r.tb)
    decreases |fs|
  {
    if fs == [] then c else After(TimestampProcess(c, fs[0], delta).0, fs[1..], delta)
  }

  /** The duration of a run: the sum of n / sr. */
  function Total(fs: seq<Frame>): real
    requires forall i | 0 <= i < |fs| :: FrameOk(fs[i])
  {
    if fs == [] then 0.0
    else
      assert FrameOk(fs[0]) && forall i | 0 <= i < |fs[1..]| :: fs[1..][i] == fs[i + 1];
      Seconds(fs[0].nbSamples, fs[0].sampleRate) + Total(fs[1..])
  }

  lemma RunFramesOk(c: Clock, fs: seq<Frame>, delta: DeltaFunction)
    requires Positive(c.tb) && UnstampedRun(c, fs, delta)
    ensures forall i | 0 <= i < |fs| :: FrameOk(fs[i])
    decreases |fs|
  {
    if fs != [] {
      RunFramesOk(TimestampProcess(c, fs[0], delta).0, fs[1..], delta);
      forall i | 0 <= i < |fs| ensures FrameOk(fs[i]) {
        if i > 0 {
          assert FrameOk(fs[1..][i - 1]);
        }
      }
    }
  }

  /**
   After any run of frames without timestamps the clock stands exactly at its start plus the sum
   of n / sr, in a base that every earlier base and every rate of the run divides.
   */
  lemma {:induction false} RunIsExact(c: Clock, fs: seq<Frame>, delta: DeltaFunction)
    requires ClockOk(c) && UnstampedRun(c, fs, delta)
    ensures forall i | 0 <= i < |fs| :: FrameOk(fs[i])
    ensures var r := After(c, fs, delta);
            && ClockOk(r) && Divides(c.tb.den, r.tb.den)
            && (forall i | 0 <= i < |fs| :: Divides(fs[i].sampleRate, r.tb.den))
            && Position(r) == Position(c) + Total(fs)
    decreases |fs|
  {
    hide TimestampProcess, TakesFallback;
    RunFramesOk(c, fs, delta);
    if fs == [] {
      MultipleDivides(1, c.tb.den);
    } else {
      var next := TimestampProcess(c, fs[0], delta).0;
      UnstampedFrame(c, fs[0], delta);
      RunIsExact(next, fs[1..], delta);
      var r := After(c, fs, delta);
      DividesTransitive(c.tb.den, next.tb.den, r.tb.den);
      forall i | 0 <= i < |fs| ensures Divides(fs[i].sampleRate, r.tb.den) {
        if i == 0 {
          DividesTransitive(fs[0].sampleRate, next.tb.den, r.tb.den);
        } else {
          assert Divides(fs[1..][i - 1].sampleRate, r.tb.den);
        }
      }
    }
  }

  /** A time in units of 1/sr. */
  function InUnits(x: real, sr: int): real {
    x * sr as real
  }

  predicate IsNearest(x: real, n: int) {
    -1.0 <= 2.0 * (x - n as real) <= 1.0
  }

  /** The next frame after the run: internal timestamp exact, emitted one its nearest integer in 1/sr. */
  lemma FrameAfterRun(c: Clock, fs: seq<Frame>, f: Frame, delta: DeltaFunction)
    requires ClockOk(c) && UnstampedRun(c, fs, delta) && FrameOk(f) && f.pts.None?
    requires forall i | 0 <= i < |fs| :: FrameOk(fs[i])
    requires !TakesFallback(After(c, fs, delta), f)
    ensures var (r, out) := TimestampProcess(After(c, fs, delta), f, delta);
            && r.tb.den > 0 && r.pts.Some? && out.pts.Some?
            && Seconds(r.pts.value, r.tb.den) == Position(c) + Total(fs)
            && IsNearest(InUnits(Position(c) + Total(fs), f.sampleRate), out.pts.value)
  {
    RunIsExact(c, fs, delta);
    var u := After(c, fs, delta);
    hide TimestampProcess, TakesFallback, After, UnstampedRun, RoundDiv, Seconds, Total, Position, IsNearest, InUnits;
    UnstampedFrame(u, f, delta);
    var (r, out) := TimestampProcess(u, f, delta);
    NearestOfSeconds(r.pts.value, r.tb.den, f.sampleRate);
  }

  lemma PositiveProduct(x: real, y: real)
    requires x > 0.0 && y > 0.0
    ensures x * y > 0.0
  {
  }

  lemma DivideOrder(a: real, b: real, d: real)
    requires d > 0.0 && a * d <= b * d
    ensures a <= b
  {
    assert (a - b) * d == a * d - b * d;
    if a > b {
      PositiveProduct(a - b, d);
    }
  }

  lemma SecondsTimes(n: int, den: int)
    requires den > 0
    ensures Seconds(n, den) * den as real == n as real
  {
  }

  lemma HalfUnit(e: real, r: real, d: real)
    requires d > 0.0 && e * d == r && -d <= 2.0 * r <= d
    ensures -1.0 <= 2.0 * e <= 1.0
  {
    assert (2.0 * e) * d == 2.0 * r;
    DivideOrder(2.0 * e, 1.0, d);
    DivideOrder(-1.0, 2.0 * e, d);
  }

  lemma NearestInteger(n: int, den: int)
    requires den > 0
    ensures IsNearest(Seconds(n, den), RoundDiv(n, den))
  {
    SecondsTimes(n, den);
    var q := RoundDiv(n, den);
    var r := n - q * den;
    hide Seconds, RoundDiv;
    var x, d := Seconds(n, den), den as real;
    assert (q * den) as real == q as real * d;
    assert (x - q as real) * d == x * d - q as real * d;
    HalfUnit(x - q as real, r as real, d);
  }

  lemma ScaledSeconds(ts: int, den: int, sr: int)
    requires den > 0
    ensures Seconds(ts * sr, den) == Seconds(ts, den) * sr as real
  {
    var x, y, d := Seconds(ts, den) * sr as real, Seconds(ts * sr, den), den as real;
    assert y * d == (ts * sr) as real == ts as real * sr as real;
    assert x * d == ts as real * sr as real by {
      assert Seconds(ts, den) * d == ts as real;
      assert x * d == Seconds(ts, den) * d * sr as real;
    }
    DivideOrder(x, y, d);
    DivideOrder(y, x, d);
  }

  lemma NearestOfSeconds(ts: int, den: int, sr: int)
    requires den > 0 && sr > 0
    ensures IsNearest(InUnits(Seconds(ts, den), sr), RoundDiv(ts * sr, den))
  {
    hide Seconds, RoundDiv;
    NearestInteger(ts * sr, den);
    ScaledSeconds(ts, den, sr);
  }
}
