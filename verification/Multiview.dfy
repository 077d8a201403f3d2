/**
 Mapping requested views to decoder outputs (dec_request_view and multiview_setup of
 ffmpeg_dec.c). Bit masks are natural numbers; the bit operations of C are defined on them.
 */
module Multiview {
  import opened Common

  // ---- Bits -------------------------------------------------------------------------------------

  predicate Bit(m: nat, i: nat) {
    if i == 0 then m % 2 == 1 else Bit(m / 2, i - 1)
  }

  /** a | b */
  function Or(a: nat, b: nat): nat
    decreases a + b
  {
    if a == 0 && b == 0 then 0
    else 2 * Or(a / 2, b / 2) + (if a % 2 == 1 || b % 2 == 1 then 1 else 0)
  }

  /** m & ~(1 << i) */
  function Clear(m: nat, i: nat): nat {
    if i == 0 then m / 2 * 2 else 2 * Clear(m / 2, i - 1) + m % 2
  }

  /** stdc_count_ones */
  function CountOnes(m: nat): nat {
    if m == 0 then 0 else m % 2 + CountOnes(m / 2)
  }

  /** stdc_trailing_zeros of a nonzero mask. */
  function TrailingZeros(m: nat): nat
    requires m > 0
  {
    if m % 2 == 1 then 0 else 1 + TrailingZeros(m / 2)
  }

  lemma {:induction false} BitOfZero(i: nat)
    ensures !Bit(0, i)
  {
    if i > 0 {
      BitOfZero(i - 1);
    }
  }

  lemma {:induction false} BitOfOr(a: nat, b: nat, i: nat)
    ensures Bit(Or(a, b), i) <==> Bit(a, i) || Bit(b, i)
    decreases i
  {
    if a == 0 && b == 0 {
      BitOfZero(i);
    } else {
      assert Or(a, b) / 2 == Or(a / 2, b / 2);
      if i > 0 {
        BitOfOr(a / 2, b / 2, i - 1);
      }
    }
  }

  lemma {:induction false} BitOfPow2(n: nat, i: nat)
    ensures Bit(Pow2(n), i) <==> i == n
    decreases i
  {
    if n == 0 {
      if i > 0 {
        BitOfZero(i - 1);
      }
    } else {
      assert Pow2(n) / 2 == Pow2(n - 1) && Pow2(n) % 2 == 0;
      if i > 0 {
        BitOfPow2(n - 1, i - 1);
      }
    }
  }

  /** (1 << n) - 1 */
  lemma {:induction false} BitOfAllOnes(n: nat, i: nat)
    ensures Bit(Pow2(n) - 1, i) <==> i < n
    decreases n
  {
    if n == 0 {
      BitOfZero(i);
    } else {
      assert (Pow2(n) - 1) / 2 == Pow2(n - 1) - 1 && (Pow2(n) - 1) % 2 == 1;
      if i > 0 {
        BitOfAllOnes(n - 1, i - 1);
      }
    }
  }

  lemma {:induction false} NonzeroHasBit(m: nat) returns (i: nat)
    requires m > 0
    ensures Bit(m, i)
  {
    if m % 2 == 1 {
      i := 0;
    } else {
      var j := NonzeroHasBit(m / 2);
      i := j + 1;
    }
  }

  // ---- The positions of the set bits ----------------------------------------------------------------

  /** The set bits of m, lowest first, counted from `base`. */
  function Ones(m: nat, base: nat): (r: seq<nat>)
    ensures |r| == CountOnes(m)
    decreases m
  {
    if m == 0 then []
    else if m % 2 == 1 then [base] + Ones(m / 2, base + 1)
    else Ones(m / 2, base + 1)
  }

  ghost predicate Ascending(s: seq<nat>) {
    forall i, j | 0 <= i < j < |s| :: s[i] < s[j]
  }

  lemma {:induction false} OnesAre(m: nat, base: nat, p: nat)
    ensures p in Ones(m, base) <==> p >= base && Bit(m, p - base)
    decreases m
  {
    if m == 0 {
      if p >= base {
        BitOfZero(p - base);
      }
    } else {
      OnesAre(m / 2, base + 1, p);
    }
  }

  lemma {:induction false} OnesAscend(m: nat, base: nat)
    ensures Ascending(Ones(m, base)) && forall i | 0 <= i < |Ones(m, base)| :: Ones(m, base)[i] >= base
    decreases m
  {
    if m != 0 {
      OnesAscend(m / 2, base + 1);
    }
  }

  lemma {:induction false} LowestIsFirst(m: nat, base: nat)
    requires m > 0
    ensures Ones(m, base) != [] && Ones(m, base)[0] == base + TrailingZeros(m)
    ensures Ones(Clear(m, TrailingZeros(m)), base) == Ones(m, base)[1..]
    decreases m
  {
    var t := TrailingZeros(m);
    var c := Clear(m, t);
    if m % 2 == 1 {
      assert c == m / 2 * 2 && c / 2 == m / 2 && c % 2 == 0;
      if c == 0 {
        assert m / 2 == 0;
      }
    } else {
      LowestIsFirst(m / 2, base + 1);
      assert c == 2 * Clear(m / 2, t - 1);
      assert c / 2 == Clear(m / 2, t - 1) && c % 2 == 0;
      if c == 0 {
        assert Clear(m / 2, t - 1) == 0;
      }
    }
  }

  // ---- Requests -------------------------------------------------------------------------------------

  datatype ViewType = ViewNone | ViewIdx | ViewId | ViewPos | ViewAll

  datatype ViewSpecifier = ViewSpecifier(kind: ViewType, val: nat)

  datatype Request = Request(vs: ViewSpecifier, outIdx: nat)

  datatype MapEntry = MapEntry(id: nat, outMask: nat)

  datatype Error = EINVAL | ENOSYS

  /** The width of out_mask, a uintptr_t, on 64-bit targets. */
  const MASK_BITS := 64
  /** The width of views_wanted, an unsigned int. */
  const WANTED_BITS := 32
  const AV_STEREO3D_VIEW_UNSPEC := 3

  predicate SameView(a: ViewSpecifier, b: ViewSpecifier) {
    a.kind == b.kind && (a.kind.ViewAll? || a.val == b.val)
  }

  /** The position of the first view with the given property value. */
  predicate FirstAt(values: seq<nat>, val: nat, v: nat) {
    v < |values| && values[v] == val && val !in values[..v]
  }

  /** A request resolves to view v of the available ones. */
  predicate Resolves(vs: ViewSpecifier, ids: seq<nat>, positions: Option<seq<nat>>, v: nat) {
    v < |ids| &&
    match vs.kind
    case ViewNone => false
    case ViewIdx => vs.val == v
    case ViewId => FirstAt(ids, vs.val, v)
    case ViewPos => positions.Some? && FirstAt(positions.value, vs.val, v)
    case ViewAll => true
  }

  /** The positions of the entries with a nonzero mask, in ascending order. */
  function WantedPositions(entries: seq<MapEntry>, n: nat): seq<nat>
    requires n <= |entries|
  {
    if n == 0 then []
    else WantedPositions(entries, n - 1) + (if entries[n - 1].outMask != 0 then [n - 1] else [])
  }

  lemma {:induction false} WantedAre(entries: seq<MapEntry>, n: nat, p: nat)
    requires n <= |entries|
    ensures p in WantedPositions(entries, n) <==> p < n && entries[p].outMask != 0
  {
    if n > 0 {
      WantedAre(entries, n - 1, p);
    }
  }

  lemma {:induction false} WantedAscend(entries: seq<MapEntry>, n: nat)
    requires n <= |entries|
    ensures Ascending(WantedPositions(entries, n))
    ensures forall i | 0 <= i < |WantedPositions(entries, n)| :: WantedPositions(entries, n)[i] < n
  {
    if n > 0 {
      WantedAscend(entries, n - 1);
    }
  }

  lemma HasItsFirst(a: seq<nat>)
    requires a != []
    ensures a[0] in a
  {
  }

  lemma {:induction false} AscendingSame(a: seq<nat>, b: seq<nat>)
    requires Ascending(a) && Ascending(b) && forall x: nat :: x in a <==> x in b
    ensures a == b
    decreases |a|
  {
    if a == [] {
      if b != [] {
        HasItsFirst(b);
      }
    } else {
      assert a[0] in b && b != [] && b[0] in a;
      assert a[0] == b[0];
      TailIs(a);
      TailIs(b);
      AscendingSame(a[1..], b[1..]);
      assert a == [a[0]] + a[1..] && b == [b[0]] + b[1..];
    }
  }

  lemma TailIs(a: seq<nat>)
    requires a != [] && Ascending(a)
    ensures Ascending(a[1..]) && forall x: nat :: x in a[1..] <==> x in a && x != a[0]
  {
    var c := a[1..];
    assert forall i | 0 <= i < |c| :: c[i] == a[i + 1];
    forall x: nat ensures x in c <==> x in a && x != a[0] {
      assert a == [a[0]] + c;
      if x in c {
        var i :| 0 <= i < |c| && c[i] == x;
        assert a[0] < a[i + 1];
      }
    }
  }

  /** A request that no available view satisfies. */
  ghost predicate Unresolved(vs: ViewSpecifier, ids: seq<nat>, positions: Option<seq<nat>>) {
    forall v: nat :: !Resolves(vs, ids, positions, v)
  }

  class DecoderPriv {
    const multiviewUserConfig: bool
    var viewsRequested: seq<Request>
    var viewMap: seq<MapEntry>
    var nbOutputs: nat

    constructor (multiviewUserConfig: bool)
      ensures Valid() && viewsRequested == [] && viewMap == []
    {
      this.multiviewUserConfig := multiviewUserConfig;
      viewsRequested, viewMap, nbOutputs := [], [], 1;
    }

    /** Request i has output i, and no view is requested twice. */
    ghost predicate Valid()
      reads this
    {
      && |viewsRequested| <= MASK_BITS
      && nbOutputs == (if |viewsRequested| <= 1 then 1 else |viewsRequested|)
      && (forall i | 0 <= i < |viewsRequested| ::
            viewsRequested[i].outIdx == i && !viewsRequested[i].vs.kind.ViewNone?)
      && (forall i, j | 0 <= i < j < |viewsRequested| ::
            !SameView(viewsRequested[i].vs, viewsRequested[j].vs))
    }

    /** sch_add_dec_output(): a new output, numbered after the ones there are. */
    method AddOutput() returns (idx: nat)
      modifies this`nbOutputs
      ensures idx == old(nbOutputs) && nbOutputs == old(nbOutputs) + 1
    {
      idx := nbOutputs;
      nbOutputs := nbOutputs + 1;
    }

    /** dec_request_view(): no specifier, or one of type NONE, asks for the base view. */
    method RequestView(spec: Option<ViewSpecifier>) returns (r: Result<nat, Error>)
      requires Valid()
      modifies this`viewsRequested, this`nbOutputs
      ensures Valid() && old(viewsRequested) <= viewsRequested
      ensures var none := spec.None? || spec.value.kind.ViewNone?;
              var vs := if none then ViewSpecifier(ViewIdx, 0) else spec.value;
              if multiviewUserConfig then
                viewsRequested == old(viewsRequested) && r == if none then Ok(0) else Err(EINVAL)
              else if exists i :: 0 <= i < |old(viewsRequested)| && SameView(vs, old(viewsRequested)[i].vs) then
                viewsRequested == old(viewsRequested) && r.Ok? && r.value < |viewsRequested| && SameView(vs, viewsRequested[r.value].vs)
              else if |old(viewsRequested)| >= MASK_BITS then
                viewsRequested == old(viewsRequested) && r == Err(ENOSYS)
              else viewsRequested == old(viewsRequested) + [Request(vs, |old(viewsRequested)|)] && r == Ok(|old(viewsRequested)|)
    {
      var none := spec.None? || spec.value.kind.ViewNone?;
      if multiviewUserConfig {
        return if none then Ok(0) else Err(EINVAL);
      }
      var vs := if none then ViewSpecifier(ViewIdx, 0) else spec.value;
      var i := 0;
      while i < |viewsRequested|
        invariant 0 <= i <= |viewsRequested|
        invariant forall j | 0 <= j < i :: !SameView(vs, viewsRequested[j].vs)
      {
        var vs1 := viewsRequested[i].vs;
        if vs.kind == vs1.kind && (vs.kind.ViewAll? || vs.val == vs1.val) {
          return Ok(viewsRequested[i].outIdx);
        }
        i := i + 1;
      }
      if |viewsRequested| >= MASK_BITS {
        return Err(ENOSYS);
      }
      var outIdx := 0;
      if |viewsRequested| + 1 > 1 {
        outIdx := AddOutput();
      }
      viewsRequested := viewsRequested + [Request(vs, outIdx)];
      return Ok(outIdx);
    }

    /** Bit i of every mask says whether request i, of the first `done` ones, resolves to the view. */
    ghost predicate Mapped(ids: seq<nat>, positions: Option<seq<nat>>, done: nat)
      reads this
      requires done <= |viewsRequested|
    {
      && |viewMap| == |ids|
      && (forall v | 0 <= v < |ids| :: viewMap[v].id == ids[v])
      && (forall v, i: nat {:trigger Bit(viewMap[v].outMask, i)} | 0 <= v < |ids| ::
            Bit(viewMap[v].outMask, i) <==> i < done && Resolves(viewsRequested[i].vs, ids, positions, v))
    }

    ghost predicate WantedAgrees(wanted: nat)
      reads this
    {
      forall v: nat :: Bit(wanted, v) <==> v < |viewMap| && viewMap[v].outMask != 0
    }

    /** The loop body for a request that resolves to exactly the view v. */
    method MapView(ids: seq<nat>, positions: Option<seq<nat>>, i: nat, v: nat, wanted: nat) returns (now: nat)
      requires i < |viewsRequested| && v < |ids| && Mapped(ids, positions, i) && WantedAgrees(wanted)
      requires forall w: nat :: Resolves(viewsRequested[i].vs, ids, positions, w) <==> w == v
      modifies this`viewMap
      ensures Mapped(ids, positions, i + 1) && WantedAgrees(now)
    {
      now := Or(wanted, Pow2(v));
      SetBit(i, v);
      forall w: nat ensures Bit(now, w) <==> Bit(wanted, w) || w == v {
        BitOfOr(wanted, Pow2(v), w);
        BitOfPow2(v, w);
      }
    }

    /** view_map[v].out_mask |= 1ULL << i */
    method SetBit(i: nat, v: nat)
      requires v < |viewMap|
      modifies this`viewMap
      ensures |viewMap| == |old(viewMap)| && viewMap[v].id == old(viewMap)[v].id && viewMap[v].outMask != 0
      ensures forall w | 0 <= w < |viewMap| && w != v :: viewMap[w] == old(viewMap)[w]
      ensures forall j: nat :: Bit(viewMap[v].outMask, j) <==> Bit(old(viewMap)[v].outMask, j) || j == i
    {
      var m := Or(viewMap[v].outMask, Pow2(i));
      forall j: nat ensures Bit(m, j) <==> Bit(viewMap[v].outMask, j) || j == i {
        BitOfOr(viewMap[v].outMask, Pow2(i), j);
        BitOfPow2(i, j);
      }
      BitOfZero(i);
      assert Bit(m, i);
      viewMap := viewMap[v := MapEntry(viewMap[v].id, m)];
    }

    /** The loop body for a request of all views. */
    method MapAll(ids: seq<nat>, positions: Option<seq<nat>>, i: nat, wanted: nat) returns (now: nat)
      requires i < |viewsRequested| && viewsRequested[i].vs.kind.ViewAll?
      requires Mapped(ids, positions, i) && WantedAgrees(wanted)
      modifies this`viewMap
      ensures Mapped(ids, positions, i + 1) && WantedAgrees(now)
    {
      hide Bit, Or, Pow2;
      now := Or(wanted, Pow2(|ids|) - 1);
      forall w: nat ensures Bit(now, w) <==> w < |ids| {
        BitOfOr(wanted, Pow2(|ids|) - 1, w);
        BitOfAllOnes(|ids|, w);
      }
      var j := 0;
      while j < |viewMap|
        invariant 0 <= j <= |viewMap| == |ids|
        invariant forall v | 0 <= v < |ids| :: viewMap[v].id == ids[v]
        invariant forall v | 0 <= v < j :: viewMap[v].outMask != 0
        invariant forall v, k: nat {:trigger Bit(viewMap[v].outMask, k)} | 0 <= v < |ids| ::
          Bit(viewMap[v].outMask, k) <==> (k < i && Resolves(viewsRequested[k].vs, ids, positions, v)) || (k == i && v < j)
      {
        ghost var before := viewMap;
        SetBit(i, j);
        forall v, k: nat {:trigger Bit(viewMap[v].outMask, k)} | 0 <= v < |ids|
          ensures Bit(viewMap[v].outMask, k) <==> Bit(before[v].outMask, k) || (k == i && v == j)
        {
          assert v != j ==> viewMap[v] == before[v];
        }
        j := j + 1;
      }
      assert forall v | 0 <= v < |ids| :: Resolves(viewsRequested[i].vs, ids, positions, v);
    }

    /** A request that resolves to nothing leaves the masks alone. */
    lemma SkipRequest(ids: seq<nat>, positions: Option<seq<nat>>, i: nat)
      requires i < |viewsRequested| && Mapped(ids, positions, i)
      requires forall w: nat :: !Resolves(viewsRequested[i].vs, ids, positions, w)
      ensures Mapped(ids, positions, i + 1)
    {
    }

    /** "figure out which views should go to which output" */
    method MapRequests(ids: seq<nat>, positions: Option<seq<nat>>, exitOnError: bool) returns (r: Result<nat, Error>)
      requires Valid() && Mapped(ids, positions, 0) && WantedAgrees(0) && ids != []
      requires positions.Some? ==> |positions.value| == |ids|
      modifies this`viewMap
      ensures r.Ok? ==> Mapped(ids, positions, |viewsRequested|) && WantedAgrees(r.value)
      ensures r.Ok? <==> !(exitOnError && exists i :: 0 <= i < |viewsRequested| && Unresolved(viewsRequested[i].vs, ids, positions))
      ensures r.Err? ==> r.error == EINVAL
    {
      var wanted := 0;
      var i := 0;
      while i < |viewsRequested|
        invariant 0 <= i <= |viewsRequested| && Valid()
        invariant Mapped(ids, positions, i) && WantedAgrees(wanted)
        invariant exitOnError ==> forall k | 0 <= k < i :: !Unresolved(viewsRequested[k].vs, ids, positions)
      {
        var vs := viewsRequested[i].vs;
        if vs.kind.ViewAll? {
          assert Resolves(vs, ids, positions, 0);
          wanted := MapAll(ids, positions, i, wanted);
        } else {
          var v := Lookup(vs, ids, positions);
          if v.None? {
            if exitOnError {
              assert Unresolved(viewsRequested[i].vs, ids, positions);
              return Err(EINVAL);
            }
            SkipRequest(ids, positions, i);
          } else {
            assert Resolves(vs, ids, positions, v.value);
            wanted := MapView(ids, positions, i, v.value, wanted);
          }
        }
        i := i + 1;
      }
      return Ok(wanted);
    }

    /** multiview_setup(): ids and positions are what the decoder offers; the chosen IDs are returned. */
    method MultiviewSetup(idsOffered: Option<seq<nat>>, positionsOffered: Option<seq<nat>>, exitOnError: bool)
      returns (r: Result<Option<seq<nat>>, Error>)
      requires Valid()
      modifies this`viewMap
      ensures var trivial := viewsRequested == [] || (|viewsRequested| == 1 && viewsRequested[0].vs == ViewSpecifier(ViewIdx, 0));
              if trivial then r == Ok(None) && viewMap == old(viewMap)
              else if idsOffered.None? then r == Err(ENOSYS) && viewMap == []
              else if |idsOffered.value| >= WANTED_BITS then r == Err(ENOSYS) && viewMap == []
              else
                var ids := if idsOffered.value == [] then [0] else idsOffered.value;
                var positions := if idsOffered.value == [] then Some([AV_STEREO3D_VIEW_UNSPEC])
                                 else if positionsOffered.Some? && |positionsOffered.value| == |ids| then positionsOffered else None;
                && (r.Err? <==>
                      (exitOnError && exists i :: 0 <= i < |viewsRequested| && Unresolved(viewsRequested[i].vs, ids, positions))
                      || forall i | 0 <= i < |viewsRequested| :: Unresolved(viewsRequested[i].vs, ids, positions))
                && (r.Err? ==> r.error == EINVAL)
                && (r.Ok? ==> Mapped(ids, positions, |viewsRequested|) && r.value == Some(Chosen()))
    {
      if |viewsRequested| == 0 || (|viewsRequested| == 1 && viewsRequested[0].vs.kind.ViewIdx? && viewsRequested[0].vs.val == 0) {
        return Ok(None);
      }
      viewMap := [];
      if idsOffered.None? {
        return Err(ENOSYS);
      }
      var ids := idsOffered.value;
      var positions := None;
      if |ids| != 0 {
        if |ids| >= WANTED_BITS {
          return Err(ENOSYS);
        }
        if positionsOffered.Some? && |positionsOffered.value| == |ids| {
          positions := positionsOffered;
        }
      } else {
        ids, positions := [0], Some([AV_STEREO3D_VIEW_UNSPEC]);
      }
      viewMap := seq(|ids|, i requires 0 <= i < |ids| => MapEntry(ids[i], 0));
      forall i: nat ensures !Bit(0, i) {
        BitOfZero(i);
      }
      hide Bit, Ones, WantedPositions, Resolves;
      var wanted := MapRequests(ids, positions, exitOnError);
      if wanted.Err? {
        return Err(wanted.error);
      }
      if wanted.value == 0 {
        NothingWanted(ids, positions);
        return Err(EINVAL);
      }
      SomethingWanted(ids, positions, wanted.value);
      var viewIds := Extract(ids, wanted.value);
      ChosenIs(ids, positions, wanted.value, viewIds);
      return Ok(Some(viewIds));
    }

    lemma SomethingWanted(ids: seq<nat>, positions: Option<seq<nat>>, wanted: nat)
      requires Valid() && Mapped(ids, positions, |viewsRequested|) && WantedAgrees(wanted) && wanted > 0
      ensures exists i :: 0 <= i < |viewsRequested| && !Unresolved(viewsRequested[i].vs, ids, positions)
    {
      var v := NonzeroHasBit(wanted);
      assert v < |viewMap| && viewMap[v].outMask != 0;
      var i := NonzeroHasBit(viewMap[v].outMask);
      assert i < |viewsRequested| && Resolves(viewsRequested[i].vs, ids, positions, v);
    }

    lemma ChosenIs(ids: seq<nat>, positions: Option<seq<nat>>, wanted: nat, viewIds: seq<nat>)
      requires Mapped(ids, positions, |viewsRequested|) && WantedAgrees(wanted)
      requires |viewIds| == CountOnes(wanted)
      requires forall k | 0 <= k < |viewIds| :: Ones(wanted, 0)[k] < |ids| && viewIds[k] == ids[Ones(wanted, 0)[k]]
      ensures viewIds == Chosen()
    {
      OnesAreWanted(wanted);
    }

    /** The IDs of the views with a nonzero mask, in ascending position. */
    ghost function Chosen(): seq<nat>
      reads this
    {
      var entries := viewMap;
      var w := WantedPositions(entries, |entries|);
      WantedAscend(entries, |entries|);
      seq(|w|, k requires 0 <= k < |w| => entries[w[k]].id)
    }

    lemma NothingWanted(ids: seq<nat>, positions: Option<seq<nat>>)
      requires Valid() && Mapped(ids, positions, |viewsRequested|) && WantedAgrees(0)
      ensures forall i | 0 <= i < |viewsRequested| :: Unresolved(viewsRequested[i].vs, ids, positions)
    {
      forall i: nat, v: nat | i < |viewsRequested| && v < |ids|
        ensures !Resolves(viewsRequested[i].vs, ids, positions, v)
      {
        BitOfZero(v);
        BitOfZero(i);
        assert viewMap[v].outMask == 0;
      }
    }

    lemma OnesAreWanted(wanted: nat)
      requires WantedAgrees(wanted)
      ensures Ones(wanted, 0) == WantedPositions(viewMap, |viewMap|)
    {
      OnesAscend(wanted, 0);
      WantedAscend(viewMap, |viewMap|);
      forall p: nat ensures p in Ones(wanted, 0) <==> p in WantedPositions(viewMap, |viewMap|) {
        OnesAre(wanted, 0, p);
        WantedAre(viewMap, |viewMap|, p);
      }
      AscendingSame(Ones(wanted, 0), WantedPositions(viewMap, |viewMap|));
    }
  }

  /** The search of a request that names one view. */
  method Lookup(vs: ViewSpecifier, ids: seq<nat>, positions: Option<seq<nat>>) returns (v: Option<nat>)
    requires !vs.kind.ViewNone? && !vs.kind.ViewAll? && (positions.Some? ==> |positions.value| == |ids|)
    ensures v.None? ==> forall w: nat :: !Resolves(vs, ids, positions, w)
    ensures v.Some? ==> v.value < |ids| && forall w: nat :: Resolves(vs, ids, positions, w) <==> w == v.value
  {
    match vs.kind {
      case ViewIdx =>
        return if vs.val >= |ids| then None else Some(vs.val);
      case ViewId =>
        v := FindFirst(ids, vs.val);
      case ViewPos =>
        if positions.None? {
          return None;
        }
        v := FindFirst(positions.value, vs.val);
    }
  }

  method FindFirst(values: seq<nat>, val: nat) returns (v: Option<nat>)
    ensures v.None? ==> forall w: nat :: !FirstAt(values, val, w)
    ensures v.Some? ==> v.value < |values| && forall w: nat :: FirstAt(values, val, w) <==> w == v.value
  {
    var j := 0;
    while j < |values|
      invariant 0 <= j <= |values| && val !in values[..j]
    {
      if values[j] == val {
        forall w: nat ensures FirstAt(values, val, w) <==> w == j {
          if j < w < |values| {
            assert values[..w][j] == val;
          }
          if w < j {
            assert values[..j][w] == values[w];
          }
        }
        return Some(j);
      }
      assert values[..j + 1] == values[..j] + [values[j]];
      j := j + 1;
    }
    assert values[..j] == values;
    return None;
  }

  /** The extraction loop: the lowest set bit is taken and cleared until all have been. */
  method Extract(ids: seq<nat>, wanted: nat) returns (viewIds: seq<nat>)
    requires forall p: nat | Bit(wanted, p) :: p < |ids|
    ensures |viewIds| == CountOnes(wanted)
    ensures forall k | 0 <= k < |viewIds| :: Ones(wanted, 0)[k] < |ids| && viewIds[k] == ids[Ones(wanted, 0)[k]]
  {
    var nbViewIds := CountOnes(wanted);
    ghost var all := Ones(wanted, 0);
    forall k | 0 <= k < |all| ensures all[k] < |ids| {
      OnesAre(wanted, 0, all[k]);
    }
    var left := wanted;
    viewIds := [];
    while |viewIds| < nbViewIds
      invariant |viewIds| <= nbViewIds && Ones(left, 0) == all[|viewIds|..]
      invariant forall k | 0 <= k < |viewIds| :: viewIds[k] == ids[all[k]]
    {
      LowestIsFirst(left, 0);
      var pos := TrailingZeros(left);
      assert pos == all[|viewIds|];
      left := Clear(left, pos);
      viewIds := viewIds + [ids[pos]];
    }
  }
}
