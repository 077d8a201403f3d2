/**
 Fixing subtitle durations with one element of lookahead (process_subtitle and
 fix_sub_duration_heartbeat of ffmpeg_dec.c).
 */
module SubtitleDuration {
  import opened Common
  import opened Rescaling

  /** endDisplayTime is a uint32_t in milliseconds, pts is in microseconds. */
  datatype Subtitle = Subtitle(pts: int, endDisplayTime: int, numRects: nat)

  predicate SubtitleOk(s: Subtitle) {
    0 <= s.endDisplayTime < 0x1_0000_0000
  }

  /** The milliseconds from one event to another, as process_subtitle computes them. */
  function Gap(from: int, to: int): int {
    ToInt32(Rescale(to - from, 1000, AV_TIME_BASE))
  }

  /** The comparison `end < end_display_time` converts end to unsigned. */
  function Reduced(s: Subtitle, end: int): (r: Subtitle)
    ensures SubtitleOk(s) ==> SubtitleOk(r)
  {
    var unsigned := end % 0x1_0000_0000;
    if unsigned < s.endDisplayTime then s.(endDisplayTime := unsigned) else s
  }

  /** What a call sends on, and what it holds back. */
  datatype Outcome = Outcome(sent: Option<Subtitle>, held: Option<Subtitle>)

  function Process(held: Option<Subtitle>, s: Subtitle): Outcome {
    if held.None? then Outcome(None, Some(s))
    else
      var end := Gap(held.value.pts, s.pts);
      Outcome(if end <= 0 then None else Some(Reduced(held.value, end)), Some(s))
  }

  function Heartbeat(held: Option<Subtitle>, signalPts: int): Outcome {
    if held.None? || held.value.numRects == 0 || signalPts <= held.value.pts then Outcome(None, held)
    else Process(held, held.value.(pts := signalPts))
  }

  class DecoderPriv {
    const fixSubDuration: bool
    var subPrev0: Option<Subtitle>
    var subPrev1: Option<Subtitle>

    constructor (fixSubDuration: bool)
      ensures this.fixSubDuration == fixSubDuration && subPrev0 == None && subPrev1 == None
    {
      this.fixSubDuration := fixSubDuration;
      subPrev0, subPrev1 := None, None;
    }

    method ProcessSubtitle(frame: Subtitle) returns (sent: Option<Subtitle>)
      modifies this
      ensures Outcome(sent, subPrev0) ==
        if fixSubDuration then Process(old(subPrev0), frame) else Outcome(Some(frame), old(subPrev0))
    {
      var subtitle := Some(frame);
      if fixSubDuration {
        var end := 1;
        if subPrev0.Some? {
          end := ToInt32(Rescale(frame.pts - subPrev0.value.pts, 1000, AV_TIME_BASE));
          if end % 0x1_0000_0000 < subPrev0.value.endDisplayTime {
            subPrev0 := Some(subPrev0.value.(endDisplayTime := end % 0x1_0000_0000));
          }
        }
        subPrev1 := Some(frame);
        subtitle := subPrev0;
        subPrev0, subPrev1 := subPrev1, subPrev0;
        if end <= 0 {
          return None;
        }
      }
      return subtitle;
    }

    method FixSubDurationHeartbeat(signalPts: int) returns (sent: Option<Subtitle>)
      modifies this
      ensures Outcome(sent, subPrev0) ==
        if fixSubDuration then Heartbeat(old(subPrev0), signalPts) else Outcome(None, old(subPrev0))
    {
      if !fixSubDuration || subPrev0.None? || subPrev0.value.numRects == 0 || signalPts <= subPrev0.value.pts {
        return None;
      }
      sent := ProcessSubtitle(subPrev0.value.(pts := signalPts));
    }
  }

  // ---- Whole runs ---------------------------------------------------------------------------------

  datatype Event = Decoded(s: Subtitle) | Signal(pts: int)

  function Time(e: Event): int {
    if e.Decoded? then e.s.pts else e.pts
  }

  datatype Run = Run(sent: seq<Subtitle>, held: Option<Subtitle>)

  function Step(r: Run, e: Event): Run {
    var o := match e case Decoded(s) => Process(r.held, s) case Signal(pts) => Heartbeat(r.held, pts);
    Run(if o.sent.Some? then r.sent + [o.sent.value] else r.sent, o.held)
  }

  function RunAll(es: seq<Event>): Run {
    if es == [] then Run([], None) else Step(RunAll(es[..|es| - 1]), es[|es| - 1])
  }

  // ---- Without heartbeats: a list function ----------------------------------------------------------

  function Min(a: int, b: int): int {
    if a < b then a else b
  }

  /** A subtitle cut to the gap before its successor, or nothing if there is no gap. */
  function Cut(s: Subtitle, next: Subtitle): seq<Subtitle> {
    var gap := Gap(s.pts, next.pts);
    if gap > 0 then [s.(endDisplayTime := Min(s.endDisplayTime, gap))] else []
  }

  lemma StepCuts(r: Run, next: Subtitle)
    requires r.held.Some? && SubtitleOk(r.held.value)
    ensures Step(r, Decoded(next)) == Run(r.sent + Cut(r.held.value, next), Some(next))
  {
  }

  function Emitted(ss: seq<Subtitle>, i: nat): seq<Subtitle>
    requires i + 1 < |ss|
  {
    Cut(ss[i], ss[i + 1])
  }

  function EmittedUpTo(ss: seq<Subtitle>, n: nat): seq<Subtitle>
    requires n == 0 || n < |ss|
  {
    if n == 0 then [] else EmittedUpTo(ss, n - 1) + Emitted(ss, n - 1)
  }

  function DecodedOnly(ss: seq<Subtitle>): (es: seq<Event>)
    ensures |es| == |ss| && forall i | 0 <= i < |ss| :: es[i] == Decoded(ss[i])
  {
    seq(|ss|, i requires 0 <= i < |ss| => Decoded(ss[i]))
  }

  lemma {:induction false} EmittedUpToPrefix(ss: seq<Subtitle>, m: nat, n: nat)
    requires m <= |ss| && (n == 0 || n < m)
    ensures EmittedUpTo(ss[..m], n) == EmittedUpTo(ss, n)
  {
    if n > 0 {
      EmittedUpToPrefix(ss, m, n - 1);
    }
  }

  /** Every subtitle but the last with a positive gap, its end cut to the gap; the last is held back. */
  lemma {:induction false} WithoutHeartbeats(ss: seq<Subtitle>)
    requires forall s | s in ss :: SubtitleOk(s)
    ensures RunAll(DecodedOnly(ss)).sent == if ss == [] then [] else EmittedUpTo(ss, |ss| - 1)
    ensures RunAll(DecodedOnly(ss)).held == if ss == [] then None else Some(ss[|ss| - 1])
  {
    hide Step, Cut;
    if ss != [] {
      var n := |ss| - 1;
      var front := ss[..n];
      var es := DecodedOnly(ss);
      assert es[..n] == DecodedOnly(front);
      WithoutHeartbeats(front);
      if n > 0 {
        EmittedUpToPrefix(ss, n, n - 1);
        assert SubtitleOk(ss[n - 1]);
        StepCuts(RunAll(es[..n]), ss[n]);
      } else {
        FirstIsHeld(ss[0]);
      }
    }
  }

  lemma FirstIsHeld(s: Subtitle)
    ensures Step(Run([], None), Decoded(s)) == Run([], Some(s))
  {
  }

  // ---- With heartbeats: no overlap --------------------------------------------------------------------

  /** The end of a subtitle's display in microseconds. */
  function EndsAt(s: Subtitle): int {
    s.pts + 1000 * s.endDisplayTime
  }

  ghost predicate Ordered(es: seq<Event>) {
    forall i, j | 0 <= i < j < |es| :: Time(es[i]) <= Time(es[j])
  }

  ghost predicate EventsOk(es: seq<Event>) {
    forall i | 0 <= i < |es| && es[i].Decoded? :: SubtitleOk(es[i].s)
  }

  /** Every subtitle sent ends at most half a millisecond after the start of any later one, held or sent. */
  ghost predicate NoOverlap(r: Run) {
    && (forall i, j | 0 <= i < j < |r.sent| :: EndsAt(r.sent[i]) <= r.sent[j].pts + 500)
    && (forall i | 0 <= i < |r.sent| && r.held.Some? :: EndsAt(r.sent[i]) <= r.held.value.pts + 500)
  }

  /** A positive gap, even one that was truncated to an int, is no longer than the time passed. */
  lemma GapBound(from: int, to: int)
    requires from <= to && Gap(from, to) > 0
    ensures 1000 * Gap(from, to) <= to - from + 500
  {
    var ms := Rescale(to - from, 1000, AV_TIME_BASE);
    assert ms >= 0 by { RoundDivAtLeast((to - from) * 1000, AV_TIME_BASE, 0); }
    assert ToInt32(ms) <= ms;
  }

  lemma ReducedEnds(held: Subtitle, to: int)
    requires SubtitleOk(held) && held.pts <= to && Gap(held.pts, to) > 0
    ensures EndsAt(Reduced(held, Gap(held.pts, to))) <= to + 500
  {
    GapBound(held.pts, to);
  }

  lemma {:induction false} HeartbeatsKeepOrder(es: seq<Event>)
    requires Ordered(es) && EventsOk(es)
    ensures var r := RunAll(es);
            && NoOverlap(r)
            && (r.held.Some? ==> SubtitleOk(r.held.value) && es != [] && r.held.value.pts <= Time(es[|es| - 1]))
            && (r.sent != [] ==> r.held.Some?)
  {
    if es != [] {
      var front, e := es[..|es| - 1], es[|es| - 1];
      HeartbeatsKeepOrder(front);
      var before, r := RunAll(front), RunAll(es);
      if before.held.Some? {
        var h := before.held.value;
        assert h.pts <= Time(front[|front| - 1]) <= Time(e);
        if r.sent != before.sent {
          ReducedEnds(h, Time(e));
          assert r.sent == before.sent + [Reduced(h, Gap(h.pts, Time(e)))];
        }
      }
    }
  }

  /** For events in time order each subtitle sent ends at most 500 microseconds into any later one. */
  lemma NoSubtitleOverlaps(es: seq<Event>)
    requires Ordered(es) && EventsOk(es)
    ensures NoOverlap(RunAll(es))
  {
    HeartbeatsKeepOrder(es);
  }

  /**
   A subtitle whose successor starts before it is dropped, whatever its end. The negative gap is
   compared as an unsigned number, so the end is left alone, and the message about dropping the
   subtitle not logged, exactly if it is no later than that number.
   */
  lemma BackwardsSuccessorDrops(held: Subtitle, s: Subtitle)
    requires SubtitleOk(held) && Gap(held.pts, s.pts) < 0
    ensures Process(Some(held), s) == Outcome(None, Some(s))
    ensures Reduced(held, Gap(held.pts, s.pts)) == held <==> held.endDisplayTime <= 0x1_0000_0000 + Gap(held.pts, s.pts)
  {
    assert -0x8000_0000 <= Gap(held.pts, s.pts);
  }

  /** An end of 0xFFFFFFFF, which means "no end", is changed by a successor one second earlier. */
  lemma NoEndIsReduced() returns (held: Subtitle, s: Subtitle)
    ensures SubtitleOk(held) && held.endDisplayTime == 0xFFFF_FFFF && s.pts == held.pts - AV_TIME_BASE
    ensures Gap(held.pts, s.pts) == -1000 && Reduced(held, -1000) == held.(endDisplayTime := 0xFFFF_FC18)
  {
    held, s := Subtitle(AV_TIME_BASE, 0xFFFF_FFFF, 1), Subtitle(0, 0, 1);
    RoundDivExact(-1000, AV_TIME_BASE);
  }
}
