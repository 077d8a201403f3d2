/**
 Timestamp discontinuity correction of a demuxer (ts_discontinuity_detect,
 ts_discontinuity_process and ist_dts_update of ffmpeg_demux.c).
 */
module Discontinuity {
  import opened Common
  import opened Rescaling

  /** The thresholds are in microseconds; the original multiplies seconds by AV_TIME_BASE. */
  datatype Settings = Settings(copyTs: bool, fmtIsDiscont: bool, deltaThreshold: nat, errorThreshold: nat)

  datatype Codec = Video | Audio | OtherCodec

  /** What the stream parameters say; a numerator of 0 marks an unknown rate. */
  datatype StreamInfo = StreamInfo(
    codec: Codec, timeBase: Rational, wrapBits: nat, initialDts: int,
    sampleRate: nat, frameSize: nat, framerate: Rational, parFramerate: Rational, fields: nat)

  datatype Packet = Packet(dts: Option<int>, pts: Option<int>, duration: nat)

  predicate InfoOk(i: StreamInfo) {
    && Positive(i.timeBase)
    && (i.framerate.num == 0 || Positive(i.framerate))
    && (i.parFramerate.num == 0 || Positive(i.parFramerate))
  }

  /** The corrector's fields of Demuxer and of DemuxStream. */
  datatype Ledger = Ledger(offset: int, lastTs: Option<int>)
  datatype Track = Track(dts: int, nextDts: Option<int>, sawFirstTs: bool)

  function Abs(x: int): nat {
    if x < 0 then -x else x
  }

  function ToMicro(ts: int, tb: Rational): int
    requires Positive(tb)
  {
    RescaleQ(ts, tb, AV_TIME_BASE_Q)
  }

  function FromMicro(ts: int, tb: Rational): int
    requires Positive(tb)
  {
    RescaleQ(ts, AV_TIME_BASE_Q, tb)
  }

  function Shift(p: Packet, amount: int): Packet
    requires p.dts.Some?
  {
    p.(dts := Some(p.dts.value + amount), pts := if p.pts.Some? then Some(p.pts.value + amount) else None)
  }

  // ---- The code ---------------------------------------------------------------------------------

  predicate CorrectionDisabled(cfg: Settings, info: StreamInfo, t: Track, p: Packet)
    requires p.dts.Some? && Positive(info.timeBase)
  {
    cfg.copyTs &&
    !(t.nextDts.Some? && cfg.fmtIsDiscont && info.wrapBits < 60 &&
      Abs(ToMicro(p.dts.value + Pow2(info.wrapBits), info.timeBase) - t.nextDts.value)
        < Abs(ToMicro(p.dts.value, info.timeBase) - t.nextDts.value) / 10)
  }

  /** For formats without discontinuities, timestamps far from the prediction are dropped. */
  function DropOutliers(cfg: Settings, info: StreamInfo, next: int, p: Packet): Packet
    requires p.dts.Some? && Positive(info.timeBase)
  {
    var q := if Abs(ToMicro(p.dts.value, info.timeBase) - next) > cfg.errorThreshold then p.(dts := None) else p;
    if q.pts.Some? && Abs(ToMicro(q.pts.value, info.timeBase) - next) > cfg.errorThreshold then q.(pts := None) else q
  }

  /** The discontinuity that is corrected, in microseconds; 0 when there is none. */
  function Jump(cfg: Settings, info: StreamInfo, d: Ledger, t: Track, p: Packet): int
    requires p.dts.Some? && Positive(info.timeBase)
  {
    var dts := ToMicro(p.dts.value, info.timeBase);
    if t.nextDts.Some? && !CorrectionDisabled(cfg, info, t, p) then
      var delta := dts - t.nextDts.value;
      if cfg.fmtIsDiscont && (Abs(delta) > cfg.deltaThreshold || dts + AV_TIME_BASE / 10 < t.dts) then delta else 0
    else if t.nextDts.None? && !cfg.copyTs && cfg.fmtIsDiscont && d.lastTs.Some? then
      var delta := dts - d.lastTs.value;
      if Abs(delta) > cfg.deltaThreshold then delta else 0
    else 0
  }

  /** last_ts is only read for formats with discontinuities, where the timestamp is never dropped. */
  function LastTs(info: StreamInfo, p: Packet): Option<int>
    requires Positive(info.timeBase)
  {
    if p.dts.Some? then Some(ToMicro(p.dts.value, info.timeBase)) else None
  }

  function Detect(cfg: Settings, info: StreamInfo, d: Ledger, t: Track, p: Packet): (Ledger, Packet)
    requires p.dts.Some? && Positive(info.timeBase)
  {
    var jump := Jump(cfg, info, d, t, p);
    var q :=
      if jump != 0 then Shift(p, -FromMicro(jump, info.timeBase))
      else if t.nextDts.Some? && !CorrectionDisabled(cfg, info, t, p) && !cfg.fmtIsDiscont then
        DropOutliers(cfg, info, t.nextDts.value, p)
      else p;
    (Ledger(d.offset - jump, LastTs(info, q)), q)
  }

  function Process(cfg: Settings, info: StreamInfo, d: Ledger, t: Track, p: Packet): (Ledger, Packet)
    requires Positive(info.timeBase)
  {
    var offset := FromMicro(d.offset, info.timeBase);
    var q := p.(dts := if p.dts.Some? then Some(p.dts.value + offset) else None,
                pts := if p.pts.Some? then Some(p.pts.value + offset) else None);
    if !info.codec.OtherCodec? && q.dts.Some? then Detect(cfg, info, d, t, q) else (d, q)
  }

  function Inverse(r: Rational): Rational {
    Rational(r.den, r.num)
  }

  /** The dts expected of the packet after one that starts at `next`. */
  function Predict(info: StreamInfo, next: int, duration: nat): int
    requires InfoOk(info)
  {
    match info.codec
    case Audio =>
      if info.sampleRate != 0 then next + AV_TIME_BASE * info.frameSize / info.sampleRate
      else next + ToMicro(duration, info.timeBase)
    case Video =>
      if info.framerate.num != 0 then
        ToMicro(RescaleQ(next, AV_TIME_BASE_Q, Inverse(info.framerate)) + 1, Inverse(info.framerate))
      else if duration != 0 then next + ToMicro(duration, info.timeBase)
      else if info.parFramerate.num != 0 then
        next + ToMicro(info.fields, Inverse(Rational(info.parFramerate.num * 2, info.parFramerate.den)))
      else next
    case OtherCodec => next
  }

  function Update(info: StreamInfo, t: Track, p: Packet): Track
    requires InfoOk(info)
  {
    var first :=
      if t.sawFirstTs then t.dts
      else info.initialDts + (if p.pts.Some? then ToMicro(p.pts.value, info.timeBase) else 0);
    var next :=
      if p.dts.Some? then ToMicro(p.dts.value, info.timeBase)
      else if t.nextDts.Some? then t.nextDts.value else first;
    Track(next, Some(Predict(info, next, p.duration)), true)
  }

  class DemuxStream {
    const info: StreamInfo
    var dts: int
    var nextDts: Option<int>
    var sawFirstTs: bool

    constructor (info: StreamInfo)
      ensures this.info == info && View() == Track(0, None, false)
    {
      this.info := info;
      dts, nextDts, sawFirstTs := 0, None, false;
    }

    function View(): Track
      reads this
    {
      Track(dts, nextDts, sawFirstTs)
    }

    /** ist_dts_update() */
    method DtsUpdate(p: Packet)
      requires InfoOk(info)
      modifies this
      ensures View() == Update(info, old(View()), p)
    {
      if !sawFirstTs {
        dts := info.initialDts;
        if p.pts.Some? {
          dts := dts + ToMicro(p.pts.value, info.timeBase);
        }
        sawFirstTs := true;
      }
      if nextDts.None? {
        nextDts := Some(dts);
      }
      if p.dts.Some? {
        dts := ToMicro(p.dts.value, info.timeBase);
        nextDts := Some(dts);
      }
      dts := nextDts.value;
      nextDts := Some(Predict(info, nextDts.value, p.duration));
    }
  }

  /** demux_alloc() zeroes the structure, so last_ts starts as 0 and not as AV_NOPTS_VALUE. */
  class Demuxer {
    const cfg: Settings
    var tsOffsetDiscont: int
    var lastTs: Option<int>

    constructor (cfg: Settings)
      ensures this.cfg == cfg && View() == Ledger(0, Some(0))
    {
      this.cfg := cfg;
      tsOffsetDiscont, lastTs := 0, Some(0);
    }

    function View(): Ledger
      reads this
    {
      Ledger(tsOffsetDiscont, lastTs)
    }

    method TsDiscontinuityDetect(ds: DemuxStream, packet: Packet) returns (pkt: Packet)
      requires packet.dts.Some? && Positive(ds.info.timeBase)
      modifies this
      ensures (View(), pkt) == Detect(cfg, ds.info, old(View()), ds.View(), packet)
    {
      pkt := packet;
      var tb := ds.info.timeBase;
      var disable := cfg.copyTs;
      var pktDts := ToMicro(pkt.dts.value, tb);
      if cfg.copyTs && ds.nextDts.Some? && cfg.fmtIsDiscont && ds.info.wrapBits < 60 {
        var wrapDts := ToMicro(pkt.dts.value + Pow2(ds.info.wrapBits), tb);
        if Abs(wrapDts - ds.nextDts.value) < Abs(pktDts - ds.nextDts.value) / 10 {
          disable := false;
        }
      }
      assert disable == CorrectionDisabled(cfg, ds.info, ds.View(), packet);
      if ds.nextDts.Some? && !disable {
        var delta := pktDts - ds.nextDts.value;
        if cfg.fmtIsDiscont {
          if Abs(delta) > cfg.deltaThreshold || pktDts + AV_TIME_BASE / 10 < ds.dts {
            tsOffsetDiscont := tsOffsetDiscont - delta;
            ZeroMicro(tb);
            pkt := Shift(pkt, -FromMicro(delta, tb));
          }
        } else {
          pkt := DropOutliers(cfg, ds.info, ds.nextDts.value, pkt);
        }
      } else if ds.nextDts.None? && !cfg.copyTs && cfg.fmtIsDiscont && lastTs.Some? {
        var delta := pktDts - lastTs.value;
        if Abs(delta) > cfg.deltaThreshold {
          tsOffsetDiscont := tsOffsetDiscont - delta;
          pkt := Shift(pkt, -FromMicro(delta, tb));
        }
      }
      lastTs := LastTs(ds.info, pkt);
    }

    method TsDiscontinuityProcess(ds: DemuxStream, packet: Packet) returns (pkt: Packet)
      requires Positive(ds.info.timeBase)
      modifies this
      ensures (View(), pkt) == Process(cfg, ds.info, old(View()), ds.View(), packet)
    {
      pkt := packet;
      var offset := FromMicro(tsOffsetDiscont, ds.info.timeBase);
      if pkt.dts.Some? {
        pkt := pkt.(dts := Some(pkt.dts.value + offset));
      }
      if pkt.pts.Some? {
        pkt := pkt.(pts := Some(pkt.pts.value + offset));
      }
      if (ds.info.codec.Video? || ds.info.codec.Audio?) && pkt.dts.Some? {
        pkt := TsDiscontinuityDetect(ds, pkt);
      }
    }
  }

  lemma ZeroMicro(tb: Rational)
    requires Positive(tb)
    ensures FromMicro(0, tb) == 0
  {
    RoundDivExact(0, AV_TIME_BASE_Q.den * tb.num);
    assert 0 * (AV_TIME_BASE_Q.num * tb.den) == 0;
  }

  // ---- Formats with discontinuities -------------------------------------------------------------

  predicate Corrects(cfg: Settings, info: StreamInfo) {
    cfg.fmtIsDiscont && !cfg.copyTs && InfoOk(info)
  }

  lemma MicroIsIdentity(ts: int)
    ensures ToMicro(ts, AV_TIME_BASE_Q) == ts == FromMicro(ts, AV_TIME_BASE_Q)
  {
    RoundDivExact(ts, AV_TIME_BASE);
    assert ts * (1 * AV_TIME_BASE) == ts * AV_TIME_BASE;
  }

  /** A tick of the time base, in microseconds, is TickMicros / den. */
  function TickMicros(tb: Rational): int {
    tb.num * AV_TIME_BASE
  }

  /** Both conversions are off by half a unit at most. */
  lemma ToMicroError(ts: int, tb: Rational)
    requires Positive(tb)
    ensures -tb.den <= 2 * (ts * TickMicros(tb) - ToMicro(ts, tb) * tb.den) <= tb.den
  {
    assert tb.den * AV_TIME_BASE_Q.num == tb.den;
  }

  lemma FromMicroError(t: int, tb: Rational)
    requires Positive(tb)
    ensures -TickMicros(tb) <= 2 * (t * tb.den - FromMicro(t, tb) * TickMicros(tb)) <= TickMicros(tb)
  {
    assert AV_TIME_BASE_Q.den * tb.num == TickMicros(tb) && AV_TIME_BASE_Q.num * tb.den == tb.den;
  }

  /** A dts from which its distance to `next` is taken away lands within half a tick and a microsecond of it. */
  lemma LandsNear(ts: int, next: int, tb: Rational)
    requires Positive(tb)
    ensures var landed := ToMicro(ts - FromMicro(ToMicro(ts, tb) - next, tb), tb);
            -(TickMicros(tb) + 2 * tb.den) <= 2 * ((landed - next) * tb.den) <= TickMicros(tb) + 2 * tb.den
  {
    var was := ToMicro(ts, tb);
    var f := FromMicro(was - next, tb);
    var landed := ToMicro(ts - f, tb);
    ToMicroError(ts, tb);
    ToMicroError(ts - f, tb);
    FromMicroError(was - next, tb);
    hide ToMicro, FromMicro, TickMicros;
    var a, den := TickMicros(tb), tb.den;
    Spread(ts, f, a);
    Spread(was, next, den);
    Spread(landed, next, den);
    SumOfErrors(ts * a, f * a, was * den, next * den, landed * den, a, den);
  }

  lemma Spread(x: int, y: int, k: int)
    ensures (x - y) * k == x * k - y * k
  {
  }

  lemma SumOfErrors(ts: int, f: int, was: int, next: int, landed: int, a: int, den: int)
    requires -den <= 2 * (ts - was) <= den && -den <= 2 * (ts - f - landed) <= den
    requires -a <= 2 * (was - next - f) <= a
    ensures -(a + 2 * den) <= 2 * (landed - next) <= a + 2 * den
  {
  }

  /** The ledger in the microsecond time base: what comes out is what came in plus the running offset after the call. */
  lemma LedgerBalances(cfg: Settings, info: StreamInfo, d: Ledger, t: Track, p: Packet)
    requires Corrects(cfg, info) && info.timeBase == AV_TIME_BASE_Q
    ensures var (e, q) := Process(cfg, info, d, t, p);
            && q.dts == (if p.dts.Some? then Some(p.dts.value + e.offset) else None)
            && q.pts == (if p.pts.Some? then
                           Some(p.pts.value + (if p.dts.Some? then e.offset else d.offset)) else None)
            && (p.dts.None? ==> e == d)
  {
    MicroIsIdentity(d.offset);
    if p.dts.Some? && !info.codec.OtherCodec? {
      var q := Shift(p, d.offset);
      MicroIsIdentity(Jump(cfg, info, d, t, q));
    }
  }

  /** In any time base the ledger is off by one tick at most, since the offset is rounded in two parts. */
  lemma LedgerWithinOneTick(cfg: Settings, info: StreamInfo, d: Ledger, t: Track, p: Packet)
    requires Corrects(cfg, info) && p.dts.Some?
    ensures var (e, q) := Process(cfg, info, d, t, p);
            q.dts.Some? && -1 <= q.dts.value - (p.dts.value + FromMicro(e.offset, info.timeBase)) <= 1
  {
    var tb := info.timeBase;
    if !info.codec.OtherCodec? {
      var jump := Jump(cfg, info, d, t, Shift(p, FromMicro(d.offset, tb)));
      ZeroMicro(tb);
      RoundedParts(d.offset, jump, tb);
    }
  }

  lemma RoundedParts(a: int, b: int, tb: Rational)
    requires Positive(tb)
    ensures -1 <= FromMicro(a, tb) - FromMicro(b, tb) - FromMicro(a - b, tb) <= 1
  {
    FromMicroError(a, tb);
    FromMicroError(b, tb);
    FromMicroError(a - b, tb);
    TickPositive(tb);
    var t, x, y, z := TickMicros(tb), FromMicro(a, tb), FromMicro(b, tb), FromMicro(a - b, tb);
    hide FromMicro, TickMicros;
    Spread(a, b, tb.den);
    Spread(x, y, t);
    Spread(x - y, z, t);
    ThreeErrors(a * tb.den, b * tb.den, x * t, y * t, z * t, t);
    FactorOrder(x - y - z, 2, t);
    FactorOrder(-2, x - y - z, t);
  }

  lemma ThreeErrors(a: int, b: int, x: int, y: int, z: int, t: int)
    requires t > 0 && -t <= 2 * (a - x) <= t && -t <= 2 * (b - y) <= t && -t <= 2 * (a - b - z) <= t
    ensures -2 * t < x - y - z < 2 * t
  {
  }

  lemma TickPositive(tb: Rational)
    requires Positive(tb)
    ensures TickMicros(tb) > 0
  {
  }

  /**
   An audio or video dts that is corrected lands within half a tick and a microsecond of the
   prediction, exactly on it in the microsecond time base; one that is not is close and not behind.
   */
  lemma CorrectedOrClose(cfg: Settings, info: StreamInfo, d: Ledger, t: Track, p: Packet)
    requires Corrects(cfg, info) && !info.codec.OtherCodec? && p.dts.Some? && t.nextDts.Some?
    ensures var q := Process(cfg, info, d, t, p).1;
            && q.dts.Some?
            && var dts, next, tb := ToMicro(q.dts.value, info.timeBase), t.nextDts.value, info.timeBase;
            && (|| (Abs(dts - next) <= cfg.deltaThreshold && dts >= t.dts - AV_TIME_BASE / 10)
                || -(TickMicros(tb) + 2 * tb.den) <= 2 * ((dts - next) * tb.den) <= TickMicros(tb) + 2 * tb.den)
            && (tb == AV_TIME_BASE_Q ==>
                  dts == next || (Abs(dts - next) <= cfg.deltaThreshold && dts >= t.dts - AV_TIME_BASE / 10))
  {
    var tb := info.timeBase;
    var q := Shift(p, FromMicro(d.offset, tb));
    hide ToMicro, FromMicro, TickMicros, Detect, Jump;
    assert Process(cfg, info, d, t, p) == Detect(cfg, info, d, t, q);
    hide Process, InfoOk;
    DetectedDts(cfg, info, d, t, q);
    if Jump(cfg, info, d, t, q) != 0 {
      LandsNear(q.dts.value, t.nextDts.value, tb);
      if tb == AV_TIME_BASE_Q {
        LandsExactly(q.dts.value, t.nextDts.value);
      }
    }
  }

  lemma LandsExactly(ts: int, next: int)
    ensures ToMicro(ts - FromMicro(ToMicro(ts, AV_TIME_BASE_Q) - next, AV_TIME_BASE_Q), AV_TIME_BASE_Q) == next
  {
    hide ToMicro, FromMicro;
    MicroIsIdentity(ts);
    MicroIsIdentity(ts - next);
    MicroIsIdentity(next);
  }

  lemma DetectedDts(cfg: Settings, info: StreamInfo, d: Ledger, t: Track, q: Packet)
    requires Corrects(cfg, info) && q.dts.Some? && t.nextDts.Some?
    ensures var dts, jump := ToMicro(q.dts.value, info.timeBase), Jump(cfg, info, d, t, q);
            && Detect(cfg, info, d, t, q).1.dts ==
                 Some(if jump != 0 then q.dts.value - FromMicro(jump, info.timeBase) else q.dts.value)
            && (if jump != 0 then jump == dts - t.nextDts.value
                else dts == t.nextDts.value || (Abs(dts - t.nextDts.value) <= cfg.deltaThreshold && dts >= t.dts - AV_TIME_BASE / 10))
  {
    hide ToMicro, FromMicro;
  }

  lemma RescaleNonNegative(a: nat, from: Rational, to: Rational)
    requires Positive(from) && Positive(to)
    ensures RescaleQ(a, from, to) >= 0
  {
    ProductPositive(from.num, to.den);
    ProductPositive(from.den, to.num);
    assert a * (from.num * to.den) >= 0;
    RoundDivAtLeast(a * (from.num * to.den), from.den * to.num, 0);
  }

  /** Rounding to the frame grid, one step, and back never goes backwards. */
  lemma FrameStepGrows(x: int, r: Rational)
    requires Positive(r)
    ensures ToMicro(RescaleQ(x, AV_TIME_BASE_Q, Inverse(r)) + 1, Inverse(r)) >= x
  {
    var n := RescaleQ(x, AV_TIME_BASE_Q, Inverse(r));
    var a := AV_TIME_BASE * r.den;
    assert n == RoundDiv(x * r.num, a) by {
      assert AV_TIME_BASE_Q.num * Inverse(r).den == r.num && AV_TIME_BASE_Q.den * Inverse(r).num == a;
    }
    assert 2 * (x * r.num - n * a) <= a;
    assert (n + 1) * a == n * a + a;
    assert (n + 1) * a >= x * r.num;
    RoundDivAtLeast((n + 1) * a, r.num, x);
    assert Inverse(r).num * AV_TIME_BASE_Q.den == a && Inverse(r).den * AV_TIME_BASE_Q.num == r.num;
  }

  lemma PredictionGrows(info: StreamInfo, next: int, duration: nat)
    requires InfoOk(info)
    ensures Predict(info, next, duration) >= next
  {
    RescaleNonNegative(duration, info.timeBase, AV_TIME_BASE_Q);
    if info.codec.Audio? && info.sampleRate != 0 {
      DivisionNonNegative(AV_TIME_BASE * info.frameSize, info.sampleRate);
    }
    if info.codec.Video? {
      if info.framerate.num != 0 {
        FrameStepGrows(next, info.framerate);
      }
      if info.parFramerate.num != 0 {
        RescaleNonNegative(info.fields, Inverse(Rational(info.parFramerate.num * 2, info.parFramerate.den)), AV_TIME_BASE_Q);
      }
    }
  }

  lemma DivisionNonNegative(a: nat, b: nat)
    requires b > 0
    ensures a / b >= 0
  {
  }

  // ---- Whole runs over any number of streams ----------------------------------------------------------

  datatype World = World(d: Ledger, tracks: seq<Track>)

  function Start(n: nat): World {
    World(Ledger(0, Some(0)), seq(n, i => Track(0, None, false)))
  }

  /** One packet of stream k through ts_discontinuity_process and ist_dts_update. */
  function Step(cfg: Settings, infos: seq<StreamInfo>, w: World, k: nat, p: Packet): (r: World)
    requires k < |w.tracks| == |infos| && InfoOk(infos[k])
    ensures |r.tracks| == |w.tracks|
  {
    var (d, q) := Process(cfg, infos[k], w.d, w.tracks[k], p);
    World(d, w.tracks[k := Update(infos[k], w.tracks[k], q)])
  }

  predicate AllCorrect(cfg: Settings, infos: seq<StreamInfo>) {
    forall i | 0 <= i < |infos| :: Corrects(cfg, infos[i])
  }

  predicate PacketsFit(ps: seq<(nat, Packet)>, n: nat) {
    forall i | 0 <= i < |ps| :: ps[i].0 < n
  }

  function After(cfg: Settings, infos: seq<StreamInfo>, ps: seq<(nat, Packet)>): (w: World)
    requires AllCorrect(cfg, infos) && PacketsFit(ps, |infos|)
    ensures |w.tracks| == |infos|
  {
    if ps == [] then Start(|infos|)
    else
      var front, last := ps[..|ps| - 1], ps[|ps| - 1];
      assert Corrects(cfg, infos[last.0]);
      Step(cfg, infos, After(cfg, infos, front), last.0, last.1)
  }

  /** A prediction is never before the dts it was made from. */
  predicate Ahead(t: Track) {
    t.nextDts.Some? ==> t.nextDts.value >= t.dts
  }

  lemma {:induction false} PredictionsAreAhead(cfg: Settings, infos: seq<StreamInfo>, ps: seq<(nat, Packet)>)
    requires AllCorrect(cfg, infos) && PacketsFit(ps, |infos|)
    ensures forall i | 0 <= i < |infos| :: Ahead(After(cfg, infos, ps).tracks[i])
  {
    hide Process, Predict;
    if ps != [] {
      var front, last := ps[..|ps| - 1], ps[|ps| - 1];
      PredictionsAreAhead(cfg, infos, front);
      assert Corrects(cfg, infos[last.0]);
      var w := After(cfg, infos, front);
      var q := Process(cfg, infos[last.0], w.d, w.tracks[last.0], last.1).1;
      var t := Update(infos[last.0], w.tracks[last.0], q);
      PredictionGrows(infos[last.0], t.dts, q.duration);
    }
  }

  /** Whether q is odd where p / q are the microseconds of a tick in lowest terms. */
  predicate OddPart(tb: Rational)
    requires Positive(tb)
  {
    (tb.den / Gcd(TickMicros(tb), tb.den)) % 2 == 1
  }

  /**
   A tick of a / den microseconds, in lowest terms p / q, is safe if it is shorter than 200000
   microseconds, twice the step back that is allowed; for an odd q it may also be 200000 or 200000 + 1 / q.
   */
  predicate SafeTicks(tb: Rational)
    requires Positive(tb)
  {
    var a := TickMicros(tb);
    if OddPart(tb) then a <= 200_000 * tb.den + Gcd(a, tb.den) else a < 200_000 * tb.den
  }

  /** The 1/90000 of MPEG and the 1/1000000 of the demuxer itself are far finer. */
  lemma MpegTicksAreSafe()
    ensures SafeTicks(Rational(1, 90_000)) && SafeTicks(AV_TIME_BASE_Q)
  {
  }

  lemma NextMultiple(h: int, g: int, q: int)
    requires g > 0 && h * g <= q * g && h != q
    ensures h * g <= q * g - g
  {
    if h > q {
      assert (q + 1) * g == q * g + g;
      FactorOrder(h, q + 1, g);
    }
    MultiplyOrder(h, q - 1, g);
    assert (q - 1) * g == q * g - g;
  }

  /** An even multiple of g within an odd multiple of g is within the next even one. */
  lemma EvenWithinOdd(h: int, g: int, q: int)
    requires g > 0 && -(q * g) <= h * g <= q * g && h % 2 == 0 && q % 2 == 1
    ensures -(q * g - g) <= h * g <= q * g - g
  {
    NextMultiple(h, g, q);
    assert (-h) * g == -(h * g);
    NextMultiple(-h, g, q);
  }

  lemma CommonFactor(x: int, p: int, y: int, q: int, g: int)
    ensures 2 * (x * (p * g) - y * (q * g)) == (2 * (x * p - y * q)) * g
  {
    assert x * (p * g) == (x * p) * g && y * (q * g) == (y * q) * g;
    Spread(x * p, y * q, g);
  }

  lemma OddResidue(x: int, p: int, y: int, q: int, g: int)
    requires g > 0 && q % 2 == 1 && -(q * g) <= 2 * (x * (p * g) - y * (q * g)) <= q * g
    ensures -(q * g - g) <= 2 * (x * (p * g) - y * (q * g)) <= q * g - g
  {
    CommonFactor(x, p, y, q, g);
    EvenWithinOdd(2 * (x * p - y * q), g, q);
  }

  lemma Quotients(a: nat, b: nat) returns (p: nat, q: nat)
    requires a > 0 && b > 0
    ensures a == p * Gcd(a, b) && b == q * Gcd(a, b) && q == b / Gcd(a, b)
  {
    var g := Gcd(a, b);
    p, q := a / g, b / g;
  }

  /** The rounding error of a timestamp, in units of 1 / den microseconds; smaller where den has an odd part. */
  lemma ResidueBound(ts: int, tb: Rational)
    requires Positive(tb)
    ensures var r := ts * TickMicros(tb) - ToMicro(ts, tb) * tb.den;
            && -tb.den <= 2 * r <= tb.den
            && (OddPart(tb) ==> -(tb.den - Gcd(TickMicros(tb), tb.den)) <= 2 * r <= tb.den - Gcd(TickMicros(tb), tb.den))
  {
    ToMicroError(ts, tb);
    TickPositive(tb);
    var p, q := Quotients(TickMicros(tb), tb.den);
    hide ToMicro, TickMicros, Gcd;
    if OddPart(tb) {
      OddResidue(ts, p, ToMicro(ts, tb), q, Gcd(TickMicros(tb), tb.den));
    }
  }

  /** A dts from which its distance to `next` is taken away lands at most a tenth of a second before it. */
  lemma LandsSafely(ts: int, next: int, tb: Rational)
    requires Positive(tb) && SafeTicks(tb)
    ensures ToMicro(ts - FromMicro(ToMicro(ts, tb) - next, tb), tb) >= next - 100_000
  {
    var was := ToMicro(ts, tb);
    var f := FromMicro(was - next, tb);
    ResidueBound(ts, tb);
    ResidueBound(ts - f, tb);
    FromMicroError(was - next, tb);
    hide ToMicro, FromMicro, TickMicros, OddPart;
    LandsInReach(ts, f, was, next, ToMicro(ts - f, tb), TickMicros(tb), tb.den, Gcd(TickMicros(tb), tb.den), OddPart(tb));
  }

  lemma LandsInReach(ts: int, f: int, was: int, next: int, landed: int, a: int, den: int, g: int, odd: bool)
    requires den > 0 && g > 0 && if odd then a <= 200_000 * den + g else a < 200_000 * den
    requires -den <= 2 * (ts * a - was * den) <= den && -den <= 2 * ((ts - f) * a - landed * den) <= den
    requires odd ==> -(den - g) <= 2 * (ts * a - was * den) <= den - g
    requires odd ==> -(den - g) <= 2 * ((ts - f) * a - landed * den) <= den - g
    requires -a <= 2 * ((was - next) * den - f * a) <= a
    ensures landed >= next - 100_000
  {
    Spread(ts, f, a);
    Spread(was, next, den);
    ProductsInReach(ts * a, f * a, was * den, next * den, landed * den, a, den, g, odd);
    Spread(next, 100_001, den);
    FactorOrder(next - 100_001, landed, den);
  }

  lemma ProductsInReach(ts: int, f: int, was: int, next: int, landed: int, a: int, den: int, g: int, odd: bool)
    requires den > 0 && g > 0 && if odd then a <= 200_000 * den + g else a < 200_000 * den
    requires -den <= 2 * (ts - was) <= den && -den <= 2 * (ts - f - landed) <= den
    requires odd ==> -(den - g) <= 2 * (ts - was) <= den - g && -(den - g) <= 2 * (ts - f - landed) <= den - g
    requires -a <= 2 * (was - next - f) <= a
    ensures landed > next - 100_001 * den
  {
  }

  /**
   Over any run of packets of any streams, an audio or video stream with safe ticks that has a
   prediction never steps back by more than a tenth of a second, corrected or not.
   */
  lemma NeverFarBack(cfg: Settings, infos: seq<StreamInfo>, ps: seq<(nat, Packet)>, k: nat, p: Packet)
    requires AllCorrect(cfg, infos) && PacketsFit(ps, |infos|) && k < |infos| && !infos[k].codec.OtherCodec?
    requires Positive(infos[k].timeBase) && SafeTicks(infos[k].timeBase)
    requires After(cfg, infos, ps).tracks[k].nextDts.Some?
    ensures InfoOk(infos[k])
    ensures var w := After(cfg, infos, ps);
            Step(cfg, infos, w, k, p).tracks[k].dts >= w.tracks[k].dts - AV_TIME_BASE / 10
  {
    assert Corrects(cfg, infos[k]);
    PredictionsAreAhead(cfg, infos, ps);
    var w := After(cfg, infos, ps);
    var t := w.tracks[k];
    assert Ahead(t);
    hide After, Process, Predict;
    if p.dts.Some? {
      ProcessedNotFarBack(cfg, infos[k], w.d, t, p);
    } else {
      NoDtsNoChange(cfg, infos[k], w.d, t, p);
    }
  }

  lemma ProcessedNotFarBack(cfg: Settings, info: StreamInfo, d: Ledger, t: Track, p: Packet)
    requires Corrects(cfg, info) && !info.codec.OtherCodec? && p.dts.Some? && t.nextDts.Some? && Ahead(t) && SafeTicks(info.timeBase)
    ensures var q := Process(cfg, info, d, t, p).1;
            q.dts.Some? && ToMicro(q.dts.value, info.timeBase) >= t.dts - AV_TIME_BASE / 10
  {
    var tb := info.timeBase;
    var q := Shift(p, FromMicro(d.offset, tb));
    hide ToMicro, FromMicro, TickMicros;
    DetectedDts(cfg, info, d, t, q);
    if Jump(cfg, info, d, t, q) != 0 {
      LandsSafely(q.dts.value, t.nextDts.value, tb);
    }
  }

  lemma NoDtsNoChange(cfg: Settings, info: StreamInfo, d: Ledger, t: Track, p: Packet)
    requires Positive(info.timeBase) && p.dts.None?
    ensures Process(cfg, info, d, t, p).1.dts.None? && Process(cfg, info, d, t, p).0 == d
  {
  }

  lemma QuotientIs(m: int, d: int, k: int)
    requires d > 0 && k * d <= m < k * d + d
    ensures m / d == k
  {
    DivisionBounds(m, d);
    var q := m / d;
    assert (k + 1) * d == k * d + d && (q + 1) * d == q * d + d;
    FactorOrder(q, k + 1, d);
    FactorOrder(k, q + 1, d);
  }

  lemma RoundDivIs(n: int, d: int, k: int)
    requires d > 0 && n > 0 && 2 * (k * d) <= 2 * n + d < 2 * (k * d) + 2 * d
    ensures RoundDiv(n, d) == k && RoundDiv(-n, d) == -k
  {
    assert k * (2 * d) == 2 * (k * d);
    QuotientIs(2 * n + d, 2 * d, k);
  }

  /** The two parts of a / b in lowest terms, and a multiple of the numerator that is 1 modulo the denominator. */
  lemma LowestTerms(a: nat, b: nat) returns (p: nat, q: nat, u: nat, v: nat)
    requires a > 0 && b > 0
    ensures a == p * Gcd(a, b) && b == q * Gcd(a, b) && p > 0 && q > 0
    ensures u > 0 && u * p == v * q + 1
    decreases b
  {
    var k, r := GcdStep(a, b);
    hide Gcd;
    if r == 0 {
      p, q, u, v := k, 1, 1, k - 1;
    } else {
      var p1, q1;
      p1, q1, u, v := LowestTerms(b, r);
      Scaled(k, p1, q1, Gcd(a, b));
      p, q := k * p1 + q1, p1;
      u, v := EuclidStep(k, p1, q1, u, v);
    }
  }

  lemma GcdStep(a: nat, b: nat) returns (k: nat, r: nat)
    requires a > 0 && b > 0
    ensures a == k * b + r && r < b && (r == 0 ==> k > 0)
    ensures Gcd(a, b) == if r == 0 then b else Gcd(b, r)
  {
    k, r := a / b, a % b;
  }

  lemma Scaled(k: int, p: int, q: int, g: int)
    ensures k * (p * g) + q * g == (k * p + q) * g
  {
    assert k * (p * g) == (k * p) * g;
    Sum(k * p, q, g);
  }

  lemma Sum(x: int, y: int, k: int)
    ensures (x + y) * k == x * k + y * k
  {
  }

  lemma EuclidStep(k: nat, p: nat, q: nat, x: nat, y: nat) returns (u: nat, v: nat)
    requires p > 0 && q > 0 && x * p == y * q + 1
    ensures u > 0 && u * (k * p + q) == v * p + 1
  {
    var n := (y + 1) * p - y;
    assert n == y * (p - 1) + p by { Sum(y, 1, p); Spread(p, 1, y); }
    MultiplyOrder(0, p - 1, y);
    var w := n * k + (y + 1) * q - x;
    assert n * q == ((y + 1) * q) * p - y * q by {
      Spread((y + 1) * p, y, q);
      assert ((y + 1) * p) * q == ((y + 1) * q) * p;
    }
    assert w * p == (n * k) * p + ((y + 1) * q) * p - x * p by {
      Spread(n * k + (y + 1) * q, x, p);
      Sum(n * k, (y + 1) * q, p);
    }
    assert n * (k * p + q) == (n * k) * p + n * q by {
      Sum(k * p, q, n);
      assert (k * p) * n == (n * k) * p;
    }
    ProductPositive(n, k * p + q);
    FactorOrder(-1, w, p);
    u, v := n, w;
  }

  /** A timestamp of x ticks whose doubled length is an odd number j of microseconds, or 1 / q more. */
  lemma HalfwayUp(p: nat, q: nat, u: nat, v: nat) returns (x: nat, j: nat, s: nat)
    requires p > 0 && q > 0 && u > 0 && u * p == v * q + 1
    ensures x > 0 && j % 2 == 1 && s == q % 2 && 2 * (x * p) == j * q + s
  {
    s := q % 2;
    if s == 0 {
      x, j := q / 2, p;
      EvenProduct(v, q);
      if p % 2 == 0 {
        EvenProduct(u, p);
      }
      assert 2 * ((q / 2) * p) == (2 * (q / 2)) * p;
    } else {
      x, j := HalfwayUpOdd(p, q, u, v);
    }
  }

  lemma HalfwayUpOdd(p: nat, q: nat, u: nat, v: nat) returns (x: nat, j: nat)
    requires p > 0 && q % 2 == 1 && u > 0 && u * p == v * q + 1
    ensures x > 0 && j % 2 == 1 && 2 * (x * p) == j * q + 1
  {
    if u % 2 == 0 {
      x, j := u / 2, v;
      HalfProduct(x, u, p);
    } else {
      x, j := (u + q) / 2, v + p;
      HalfProduct(x, u + q, p);
      Sum(u, q, p);
      Sum(v, p, q);
    }
    OddFactor(j, q, x * p);
  }

  lemma HalfProduct(x: int, y: int, z: int)
    requires 2 * x == y
    ensures 2 * (x * z) == y * z
  {
  }

  lemma OddFactor(j: int, q: int, n: int)
    requires 2 * n == j * q + 1
    ensures j % 2 == 1
  {
    if j % 2 == 0 {
      EvenProduct(q, j);
    }
  }

  lemma DoubleProduct(x: int, y: int)
    ensures 2 * (x * y) == (2 * x) * y
  {
  }

  lemma EvenProduct(x: int, y: int)
    requires y % 2 == 0
    ensures (x * y) % 2 == 0
  {
    assert x * y == 2 * (x * (y / 2));
  }

  /**
   Where the ticks are not safe the promise fails: a stream that starts between two ticks is corrected
   to a dts more than a tenth of a second before its prediction.
   */
  lemma UnsafeTicksFallBack(tb: Rational) returns (cfg: Settings, info: StreamInfo, p: Packet, q: Packet)
    requires Positive(tb) && !SafeTicks(tb)
    ensures Corrects(cfg, info) && info.timeBase == tb && info.codec.Video? && info.initialDts <= 0
    ensures var w := Step(cfg, [info], Start(1), 0, p);
            && w.tracks[0].nextDts.Some?
            && Step(cfg, [info], w, 0, q).tracks[0].dts < w.tracks[0].dts - AV_TIME_BASE / 10
  {
    var x, m, start := FallBackStart(tb);
    cfg := Settings(false, true, 0, 0);
    info := StreamInfo(Video, tb, 33, start, 0, 0, Rational(0, 1), Rational(0, 1), 0);
    p, q := Packet(None, None, 0), Packet(Some(x), None, 0);
    var w := Step(cfg, [info], Start(1), 0, p);
    assert w == World(Ledger(0, Some(0)), [Track(start, Some(start), true)]);
    ZeroMicro(tb);
    hide ToMicro, FromMicro;
    var (d, r) := Process(cfg, info, w.d, w.tracks[0], q);
    assert r.dts == Some(-x);
  }

  /** x is rounded up, its correction of 2x ticks to a start in between is too long, and -x is rounded down. */
  lemma FallBackStart(tb: Rational) returns (x: int, m: int, start: int)
    requires Positive(tb) && !SafeTicks(tb)
    ensures ToMicro(x, tb) == m && ToMicro(-x, tb) == -m && x > 0 && m != start
    ensures FromMicro(m - start, tb) == 2 * x && start <= 0 && -m < start - 100_000
  {
    ZeroMicro(tb);
    hide ToMicro, FromMicro, TickMicros, SafeTicks;
    var p, q, g, j, s;
    p, q, g, x, j, s := UnsafeParameters(tb);
    LongTicks(p, q, x, j, s);
    m := (j + 1) / 2;
    start := m - (j - 100_000);
    HalfwayRounds(tb, p, q, g, x, j, s);
    CorrectionRounds(tb, p, q, g, x, j, s);
  }

  lemma UnsafeParameters(tb: Rational) returns (p: nat, q: nat, g: nat, x: nat, j: nat, s: nat)
    requires Positive(tb) && !SafeTicks(tb)
    ensures g > 0 && q > 0 && TickMicros(tb) == p * g && tb.den == q * g && p >= 200_000 * q + 2 * s
    ensures x > 0 && j % 2 == 1 && s <= 1 && 2 * (x * p) == j * q + s
  {
    TickPositive(tb);
    hide TickMicros, SafeTicks, Gcd;
    var u, v;
    p, q, u, v := LowestTerms(TickMicros(tb), tb.den);
    g := Gcd(TickMicros(tb), tb.den);
    UnsafeInLowestTerms(tb, p, q);
    x, j, s := HalfwayUp(p, q, u, v);
  }

  lemma UnsafeInLowestTerms(tb: Rational, p: nat, q: nat)
    requires Positive(tb) && !SafeTicks(tb) && q > 0
    requires var g := Gcd(TickMicros(tb), tb.den); TickMicros(tb) == p * g && tb.den == q * g
    ensures p >= 200_000 * q + 2 * (q % 2)
  {
    var g := Gcd(TickMicros(tb), tb.den);
    MultipleDivides(q, g);
    hide Gcd, TickMicros;
    UnsafeParts(p, q, g);
  }

  lemma UnsafeParts(p: int, q: nat, g: int)
    requires g > 0 && if q % 2 == 1 then p * g > 200_000 * (q * g) + g else p * g >= 200_000 * (q * g)
    ensures p >= 200_000 * q + 2 * (q % 2)
  {
    var w := 200_000 * q;
    assert w * g == 200_000 * (q * g);
    if q % 2 == 0 {
      Spread(w, 1, g);
      FactorOrder(w - 1, p, g);
    } else {
      Sum(w, 1, g);
      FactorOrder(w + 1, p, g);
    }
  }

  /** Two ticks and more fit into j microseconds: the start is not positive. */
  lemma LongTicks(p: nat, q: nat, x: nat, j: nat, s: nat)
    requires q > 0 && x > 0 && s <= 1 && 2 * (x * p) == j * q + s && p >= 200_000 * q + 2 * s
    ensures j >= 400_000
  {
    MultiplyOrder(1, x, p);
    FactorOrder(399_999, j, q);
  }

  lemma HalfwayRounds(tb: Rational, p: int, q: int, g: int, x: int, j: int, s: int)
    requires Positive(tb) && g > 0 && q > 0 && TickMicros(tb) == p * g && tb.den == q * g
    requires x > 0 && j > 0 && j % 2 == 1 && 0 <= s <= 1 && 2 * (x * p) == j * q + s
    ensures ToMicro(x, tb) == (j + 1) / 2 && ToMicro(-x, tb) == -((j + 1) / 2)
  {
    TickPositive(tb);
    var a, den := TickMicros(tb), tb.den;
    assert tb.num * AV_TIME_BASE_Q.den == a && tb.den * AV_TIME_BASE_Q.num == den;
    HalfwayProducts(p, q, g, x, j, s);
    HalfwayQuotient(x * a, den, g, j, s, q);
    ProductPositive(x, a);
    RoundDivIs(x * a, den, (j + 1) / 2);
    Negated(x, a);
  }

  lemma Negated(x: int, y: int)
    ensures (-x) * y == -(x * y)
  {
  }

  lemma HalfwayQuotient(n: int, den: int, g: int, j: int, s: int, q: int)
    requires g > 0 && q > 0 && den == q * g && j % 2 == 1 && 0 <= s <= 1 && 2 * n == j * den + s * g
    ensures 2 * (((j + 1) / 2) * den) <= 2 * n + den < 2 * (((j + 1) / 2) * den) + 2 * den
  {
    DoubleProduct((j + 1) / 2, den);
    Sum(j, 1, den);
    MultiplyOrder(1, q, g);
    MultiplyOrder(s, 1, g);
    MultiplyOrder(0, s, g);
  }

  lemma HalfwayProducts(p: int, q: int, g: int, x: int, j: int, s: int)
    requires 2 * (x * p) == j * q + s
    ensures 2 * (x * (p * g)) == j * (q * g) + s * g
  {
    assert x * (p * g) == (x * p) * g;
    DoubleProduct(x * p, g);
    Sum(j * q, s, g);
    assert (j * q) * g == j * (q * g);
  }

  lemma CorrectionRounds(tb: Rational, p: int, q: int, g: int, x: int, j: int, s: int)
    requires Positive(tb) && g > 0 && q > 0 && TickMicros(tb) == p * g && tb.den == q * g
    requires x > 0 && s >= 0 && 2 * (x * p) == j * q + s && p >= 200_000 * q + 2 * s && j > 100_000
    ensures FromMicro(j - 100_000, tb) == 2 * x
  {
    TickPositive(tb);
    var a, den := TickMicros(tb), tb.den;
    assert AV_TIME_BASE_Q.den * tb.num == a && AV_TIME_BASE_Q.num * tb.den == den;
    hide TickMicros, RoundDiv;
    HalfwayProducts(p, q, g, x, j, s);
    CorrectionProducts(p, q, g, s);
    Spread(j, 100_000, den);
    DoubleProduct(x, a);
    ProductPositive(j - 100_000, den);
    RoundDivIs((j - 100_000) * den, a, 2 * x);
  }

  lemma CorrectionProducts(p: int, q: int, g: int, s: int)
    requires g > 0 && q > 0 && s >= 0 && p >= 200_000 * q + 2 * s
    ensures 200_000 * (q * g) + 2 * (s * g) <= p * g
    ensures q * g > 0 && s * g >= 0
  {
    MultiplyOrder(200_000 * q + 2 * s, p, g);
    Sum(200_000 * q, 2 * s, g);
    assert (200_000 * q) * g == 200_000 * (q * g);
    DoubleProduct(s, g);
    ProductPositive(q, g);
    MultiplyOrder(0, s, g);
  }
}
