/**
 stream_specifier_match of cmdutils.c: an early-exit loop that must agree with "filter the list,
 then take the idx-th".
 */
module StreamMatch {
  import opened Common

  datatype MediaType = TypeUnknown | TypeVideo | TypeAudio | TypeData | TypeSubtitle | TypeAttachment

  datatype StreamList = ListAll | ListStreamId | ListProgram | ListGroupId | ListGroupIdx

  /** An absent index is negative, as in the original. */
  datatype StreamSpecifier = StreamSpecifier(
    idx: int, list: StreamList, listId: int, mediaType: MediaType, noApic: bool,
    usableOnly: bool, disposition: set<nat>, metaKey: Option<string>, metaVal: Option<string>, remainder: Option<string>)

  datatype CodecParameters = CodecParameters(
    codecType: MediaType, sampleRate: int, nbChannels: int, sampleFormatKnown: bool,
    width: int, height: int, pixelFormatKnown: bool)

  datatype Stream = Stream(id: int, par: CodecParameters, disposition: set<nat>, metadata: seq<(string, string)>)

  /** Programs and groups list streams by their index. */
  datatype Program = Program(id: int, streams: seq<nat>)
  datatype Group = Group(id: int, streams: seq<nat>)

  datatype FormatContext = FormatContext(streams: seq<Stream>, programs: seq<Program>, groups: seq<Group>)

  predicate Indices(list: seq<nat>, n: nat) {
    forall i | 0 <= i < |list| :: list[i] < n
  }

  predicate ContextOk(s: FormatContext) {
    && (forall i | 0 <= i < |s.programs| :: Indices(s.programs[i].streams, |s.streams|))
    && (forall i | 0 <= i < |s.groups| :: Indices(s.groups[i].streams, |s.streams|))
  }

  /** Dispositions are sets of flag positions; AV_DISPOSITION_ATTACHED_PIC is 1 << 10. */
  const DISPOSITION_ATTACHED_PIC: nat := 10

  // ---- Filters --------------------------------------------------------------------------------------

  function Upper(c: char): char {
    if 'a' <= c <= 'z' then (c as int - 32) as char else c
  }

  predicate SameIgnoringCase(a: string, b: string) {
    |a| == |b| && forall i | 0 <= i < |a| :: Upper(a[i]) == Upper(b[i])
  }

  /** av_dict_get without flags: the first entry whose key agrees up to ASCII case. */
  function DictGet(dict: seq<(string, string)>, key: string): Option<string> {
    if dict == [] then None
    else if SameIgnoringCase(dict[0].0, key) then Some(dict[0].1)
    else DictGet(dict[1..], key)
  }

  predicate PassesType(ss: StreamSpecifier, c: Stream) {
    ss.mediaType.TypeUnknown? ||
    (ss.mediaType == c.par.codecType && !(ss.noApic && DISPOSITION_ATTACHED_PIC in c.disposition))
  }

  predicate PassesMetadata(ss: StreamSpecifier, c: Stream) {
    ss.metaKey.None? ||
    (DictGet(c.metadata, ss.metaKey.value).Some? &&
     (ss.metaVal.None? || DictGet(c.metadata, ss.metaKey.value) == ss.metaVal))
  }

  predicate Usable(par: CodecParameters) {
    match par.codecType
    case TypeAudio => par.sampleRate != 0 && par.nbChannels != 0 && par.sampleFormatKnown
    case TypeVideo => par.width != 0 && par.height != 0 && par.pixelFormatKnown
    case TypeUnknown => false
    case _ => true
  }

  predicate Passes(ss: StreamSpecifier, c: Stream) {
    && PassesType(ss, c)
    && PassesMetadata(ss, c)
    && (ss.usableOnly ==> Usable(c.par))
    && ss.disposition <= c.disposition
  }

  // ---- The specification: a list, a filter, a rank -----------------------------------------------------

  function FindProgram(ps: seq<Program>, id: int): Option<Program> {
    if ps == [] then None else if ps[0].id == id then Some(ps[0]) else FindProgram(ps[1..], id)
  }

  function FindGroup(gs: seq<Group>, id: int): Option<Group> {
    if gs == [] then None else if gs[0].id == id then Some(gs[0]) else FindGroup(gs[1..], id)
  }

  /** The streams the specifier is about, in the order its index counts them. */
  function Listed(ss: StreamSpecifier, s: FormatContext): seq<nat> {
    match ss.list
    case ListAll => seq(|s.streams|, i => i)
    case ListStreamId => WithId(s.streams, ss.listId, |s.streams|)
    case ListProgram =>
      var p := FindProgram(s.programs, ss.listId);
      if p.Some? then p.value.streams else []
    case ListGroupId =>
      var g := FindGroup(s.groups, ss.listId);
      if g.Some? then g.value.streams else []
    case ListGroupIdx =>
      if 0 <= ss.listId < |s.groups| then s.groups[ss.listId].streams else []
  }

  /** The first n streams that have the ID. */
  function WithId(streams: seq<Stream>, id: int, n: nat): seq<nat>
    requires n <= |streams|
  {
    if n == 0 then []
    else WithId(streams, id, n - 1) + (if streams[n - 1].id == id then [n - 1] else [])
  }

  function Filtered(ss: StreamSpecifier, s: FormatContext, list: seq<nat>): seq<nat>
    requires Indices(list, |s.streams|)
  {
    if list == [] then []
    else
      var rest := Filtered(ss, s, list[1..]);
      if Passes(ss, s.streams[list[0]]) then [list[0]] + rest else rest
  }

  /** How many passing entries come before the first entry for st. */
  function Rank(passing: seq<nat>, st: nat): nat {
    if passing == [] || passing[0] == st then 0 else 1 + Rank(passing[1..], st)
  }

  /** The stream is listed, passes, and is the idx-th to pass if an index is given. */
  predicate Selects(ss: StreamSpecifier, s: FormatContext, st: nat)
    requires Indices(Listed(ss, s), |s.streams|)
  {
    var passing := Filtered(ss, s, Listed(ss, s));
    st in passing && (ss.idx < 0 || ss.idx == Rank(passing, st))
  }

  // ---- The code ---------------------------------------------------------------------------------------

  /** What the entry at i adds to the candidates from i on. */
  lemma Entry(ss: StreamSpecifier, s: FormatContext, list: seq<nat>, i: nat, st: nat)
    requires Indices(list, |s.streams|) && i < |list|
    ensures Indices(list[i..], |s.streams|) && Indices(list[i + 1..], |s.streams|)
    ensures var here, next := Filtered(ss, s, list[i..]), Filtered(ss, s, list[i + 1..]);
            var passes, found := Passes(ss, s.streams[list[i]]), list[i] == st;
            && (st in here <==> (passes && found) || st in next)
            && Rank(here, st) == (if !passes then Rank(next, st) else if found then 0 else 1 + Rank(next, st))
  {
    assert list[i..][0] == list[i] && list[i..][1..] == list[i + 1..];
    hide Passes;
  }

  /** The filters of the loop body, in their order. */
  method PassesFilters(ss: StreamSpecifier, candidate: Stream) returns (r: bool)
    ensures r == Passes(ss, candidate)
  {
    hide DictGet;
    if !ss.mediaType.TypeUnknown? &&
       (ss.mediaType != candidate.par.codecType || (ss.noApic && DISPOSITION_ATTACHED_PIC in candidate.disposition)) {
      return false;
    }
    if ss.metaKey.Some? {
      var tag := DictGet(candidate.metadata, ss.metaKey.value);
      if tag.None? {
        return false;
      }
      if ss.metaVal.Some? && tag.value != ss.metaVal.value {
        return false;
      }
    }
    if ss.usableOnly && !Usable(candidate.par) {
      return false;
    }
    if ss.disposition != {} && !(ss.disposition <= candidate.disposition) {
      return false;
    }
    return true;
  }

  /** The loop of the matcher: `list` holds the candidates from start_stream to nb_streams. */
  method MatchInList(ss: StreamSpecifier, s: FormatContext, st: nat, list: seq<nat>) returns (r: bool)
    requires Indices(list, |s.streams|)
    ensures var passing := Filtered(ss, s, list);
            r == (st in passing && (ss.idx < 0 || ss.idx == Rank(passing, st)))
  {
    assert list[0..] == list;
    hide Filtered, Rank, Passes;
    var nbMatched := 0;
    var i := 0;
    while i < |list|
      invariant 0 <= i <= |list|
      invariant Indices(list[i..], |s.streams|)
      invariant st in Filtered(ss, s, list) <==> st in Filtered(ss, s, list[i..])
      invariant Rank(Filtered(ss, s, list), st) == nbMatched + Rank(Filtered(ss, s, list[i..]), st)
    {
      Entry(ss, s, list, i, st);
      var candidate := s.streams[list[i]];
      i := i + 1;
      var passes := PassesFilters(ss, candidate);
      if !passes {
        continue;
      }
      if st == list[i - 1] {
        return ss.idx < 0 || ss.idx == nbMatched;
      }
      nbMatched := nbMatched + 1;
    }
    FilteredIs(ss, s, list[i..], st);
    return false;
  }

  /** The precondition on idx is the assertion of the original; the parser establishes it. */
  method Match(ss: StreamSpecifier, s: FormatContext, st: nat) returns (r: bool)
    requires ContextOk(s) && st < |s.streams|
    requires ss.list.ListStreamId? ==> ss.idx < 0
    ensures Indices(Listed(ss, s), |s.streams|) && r == Selects(ss, s, st)
  {
    ListedIndices(ss, s);
    match ss.list {
      case ListStreamId =>
        OnlyItself(ss, s, st);
        if s.streams[st].id != ss.listId {
          return false;
        }
        r := MatchInList(ss, s, st, [st]);
      case ListAll =>
        var startStream := if ss.idx >= 0 then 0 else st;
        UpToItself(ss, s, st, startStream);
        r := MatchInList(ss, s, st, seq(st + 1 - startStream, i => startStream + i));
      case ListProgram =>
        var p := FindProgram(s.programs, ss.listId);
        if p.None? {
          return false;
        }
        r := MatchInList(ss, s, st, p.value.streams);
      case ListGroupId =>
        var g := FindGroup(s.groups, ss.listId);
        if g.None? {
          return false;
        }
        r := MatchInList(ss, s, st, g.value.streams);
      case ListGroupIdx =>
        if !(0 <= ss.listId < |s.groups|) {
          return false;
        }
        r := MatchInList(ss, s, st, s.groups[ss.listId].streams);
    }
  }

  // ---- Why the short lists are enough -------------------------------------------------------------------

  lemma FindProgramIn(ps: seq<Program>, id: int)
    ensures FindProgram(ps, id).Some? ==> FindProgram(ps, id).value in ps
  {
    if ps != [] {
      FindProgramIn(ps[1..], id);
    }
  }

  lemma FindGroupIn(gs: seq<Group>, id: int)
    ensures FindGroup(gs, id).Some? ==> FindGroup(gs, id).value in gs
  {
    if gs != [] {
      FindGroupIn(gs[1..], id);
    }
  }

  lemma {:induction false} WithIdIs(streams: seq<Stream>, id: int, n: nat, x: nat)
    requires n <= |streams|
    ensures x in WithId(streams, id, n) <==> x < n && streams[x].id == id
    ensures Indices(WithId(streams, id, n), n)
  {
    if n > 0 {
      WithIdIs(streams, id, n - 1, x);
    }
  }

  lemma ListedIndices(ss: StreamSpecifier, s: FormatContext)
    requires ContextOk(s)
    ensures Indices(Listed(ss, s), |s.streams|)
  {
    FindProgramIn(s.programs, ss.listId);
    FindGroupIn(s.groups, ss.listId);
    WithIdIs(s.streams, ss.listId, |s.streams|, 0);
  }

  /** An entry survives the filter exactly if it is listed and passes. */
  lemma {:induction false} FilteredIs(ss: StreamSpecifier, s: FormatContext, list: seq<nat>, x: nat)
    requires Indices(list, |s.streams|)
    ensures x in Filtered(ss, s, list) <==> x in list && x < |s.streams| && Passes(ss, s.streams[x])
  {
    if list != [] {
      assert list == [list[0]] + list[1..];
      FilteredIs(ss, s, list[1..], x);
    }
  }

  lemma {:induction false} FilteredAppend(ss: StreamSpecifier, s: FormatContext, a: seq<nat>, b: seq<nat>)
    requires Indices(a + b, |s.streams|) && Indices(a, |s.streams|) && Indices(b, |s.streams|)
    ensures Filtered(ss, s, a + b) == Filtered(ss, s, a) + Filtered(ss, s, b)
  {
    if a == [] {
      assert a + b == b;
    } else {
      assert (a + b)[1..] == a[1..] + b;
      assert forall i | 0 <= i < |a[1..] + b| :: (a[1..] + b)[i] == (a + b)[i + 1];
      assert forall i | 0 <= i < |a[1..]| :: a[1..][i] == a[i + 1];
      FilteredAppend(ss, s, a[1..], b);
    }
  }

  lemma {:induction false} RankAppend(a: seq<nat>, b: seq<nat>, st: nat)
    requires st in a
    ensures Rank(a + b, st) == Rank(a, st)
  {
    if a[0] != st {
      assert (a + b)[1..] == a[1..] + b;
      RankAppend(a[1..], b, st);
    }
  }

  /** With a stream ID and no index, looking at the stream alone is enough. */
  lemma OnlyItself(ss: StreamSpecifier, s: FormatContext, st: nat)
    requires ContextOk(s) && ss.list.ListStreamId? && ss.idx < 0 && st < |s.streams|
    requires Indices(Listed(ss, s), |s.streams|)
    ensures Indices([st], |s.streams|)
    ensures Selects(ss, s, st) <==> s.streams[st].id == ss.listId && st in Filtered(ss, s, [st])
  {
    WithIdIs(s.streams, ss.listId, |s.streams|, st);
    FilteredIs(ss, s, Listed(ss, s), st);
    FilteredIs(ss, s, [st], st);
  }

  /** In the list of all streams nothing after the stream matters, and without an index nothing before it. */
  lemma UpToItself(ss: StreamSpecifier, s: FormatContext, st: nat, start: nat)
    requires ContextOk(s) && ss.list.ListAll? && st < |s.streams|
    requires start == 0 || (ss.idx < 0 && start == st)
    requires Indices(Listed(ss, s), |s.streams|)
    ensures var list := seq(st + 1 - start, i => start + i);
            Indices(list, |s.streams|) &&
            (Selects(ss, s, st) <==>
             st in Filtered(ss, s, list) && (ss.idx < 0 || ss.idx == Rank(Filtered(ss, s, list), st)))
  {
    var all := Listed(ss, s);
    var list := seq(st + 1 - start, i => start + i);
    assert all[st] == st && list[st - start] == st;
    FilteredIs(ss, s, all, st);
    FilteredIs(ss, s, list, st);
    if start == 0 {
      var rest := all[st + 1..];
      assert all == list + rest;
      FilteredAppend(ss, s, list, rest);
      if st in Filtered(ss, s, list) {
        RankAppend(Filtered(ss, s, list), Filtered(ss, s, rest), st);
      }
    }
  }

  // ---- What an index promises -----------------------------------------------------------------------------

  lemma {:induction false} RankFinds(passing: seq<nat>, st: nat)
    requires st in passing
    ensures Rank(passing, st) < |passing| && passing[Rank(passing, st)] == st
  {
    if passing[0] != st {
      RankFinds(passing[1..], st);
    }
  }

  /** With an index, at most one stream of the file matches. */
  lemma AtMostOneMatches(ss: StreamSpecifier, s: FormatContext, a: nat, b: nat)
    requires Indices(Listed(ss, s), |s.streams|) && ss.idx >= 0
    requires Selects(ss, s, a) && Selects(ss, s, b)
    ensures a == b
  {
    var passing := Filtered(ss, s, Listed(ss, s));
    RankFinds(passing, a);
    RankFinds(passing, b);
  }

  ghost predicate Distinct(list: seq<nat>) {
    forall i, j | 0 <= i < j < |list| :: list[i] != list[j]
  }

  lemma {:induction false} FilteredDistinct(ss: StreamSpecifier, s: FormatContext, list: seq<nat>)
    requires Indices(list, |s.streams|) && Distinct(list)
    ensures Distinct(Filtered(ss, s, list))
  {
    if list != [] {
      var rest := list[1..];
      assert Distinct(rest) by {
        assert forall i | 0 <= i < |rest| :: rest[i] == list[i + 1];
      }
      FilteredDistinct(ss, s, rest);
      FilteredIs(ss, s, rest, list[0]);
      assert list[0] !in rest;
    }
  }

  lemma {:induction false} RankOfEntry(passing: seq<nat>, k: nat)
    requires k < |passing| && Distinct(passing)
    ensures Rank(passing, passing[k]) == k
  {
    if k > 0 {
      var rest := passing[1..];
      assert Distinct(rest) by {
        assert forall i | 0 <= i < |rest| :: rest[i] == passing[i + 1];
      }
      assert rest[k - 1] == passing[k];
      RankOfEntry(rest, k - 1);
    }
  }

  /** In a list of distinct streams the idx-th passing one matches, so exactly one does if enough pass. */
  lemma ExactlyOneMatches(ss: StreamSpecifier, s: FormatContext)
    requires Indices(Listed(ss, s), |s.streams|) && ss.idx >= 0 && Distinct(Listed(ss, s))
    ensures var passing := Filtered(ss, s, Listed(ss, s));
            if ss.idx < |passing| then Selects(ss, s, passing[ss.idx]) && forall st: nat | Selects(ss, s, st) :: st == passing[ss.idx]
            else forall st: nat :: !Selects(ss, s, st)
  {
    var passing := Filtered(ss, s, Listed(ss, s));
    FilteredDistinct(ss, s, Listed(ss, s));
    if ss.idx < |passing| {
      RankOfEntry(passing, ss.idx);
      forall st: nat | Selects(ss, s, st) ensures st == passing[ss.idx] {
        AtMostOneMatches(ss, s, st, passing[ss.idx]);
      }
    } else {
      forall st: nat ensures !Selects(ss, s, st) {
        if Selects(ss, s, st) {
          RankFinds(passing, st);
        }
      }
    }
  }

  lemma {:induction false} RankIsFirst(passing: seq<nat>, k: nat)
    requires k < |passing|
    ensures Rank(passing, passing[k]) == k <==> passing[k] !in passing[..k]
    ensures Rank(passing, passing[k]) <= k
  {
    if k > 0 {
      var rest := passing[1..];
      assert rest[k - 1] == passing[k] && passing[..k] == [passing[0]] + rest[..k - 1];
      RankIsFirst(rest, k - 1);
    }
  }

  /**
   For every list: an index selects a stream exactly if enough entries pass and the entry it
   counts to is the first of its stream; a later entry of the same stream can never be selected.
   */
  lemma SelectsIff(ss: StreamSpecifier, s: FormatContext)
    requires Indices(Listed(ss, s), |s.streams|) && ss.idx >= 0
    ensures var passing := Filtered(ss, s, Listed(ss, s));
            && (forall st: nat :: Selects(ss, s, st) <==>
                  ss.idx < |passing| && st == passing[ss.idx] && passing[ss.idx] !in passing[..ss.idx])
            && ((exists st: nat :: Selects(ss, s, st)) <==> ss.idx < |passing| && passing[ss.idx] !in passing[..ss.idx])
  {
    var passing := Filtered(ss, s, Listed(ss, s));
    forall st: nat
      ensures Selects(ss, s, st) <==>
              ss.idx < |passing| && st == passing[ss.idx] && passing[ss.idx] !in passing[..ss.idx]
    {
      if ss.idx < |passing| {
        RankIsFirst(passing, ss.idx);
      }
      if st in passing {
        RankFinds(passing, st);
      }
    }
    if ss.idx < |passing| && passing[ss.idx] !in passing[..ss.idx] {
      assert Selects(ss, s, passing[ss.idx]);
    }
  }

  /** A listed stream may occur twice in a program; then an index in range can select nothing. */
  lemma RepeatedEntryHidesTheNext() returns (ss: StreamSpecifier, s: FormatContext)
    ensures ContextOk(s) && Indices(Listed(ss, s), |s.streams|)
    ensures 0 <= ss.idx < |Filtered(ss, s, Listed(ss, s))| && !Selects(ss, s, 0)
  {
    var par := CodecParameters(TypeAudio, 48000, 2, true, 0, 0, false);
    s := FormatContext([Stream(1, par, {}, [])], [Program(7, [0, 0])], []);
    ss := StreamSpecifier(1, ListProgram, 7, TypeUnknown, false, false, {}, None, None, None);
    assert FindProgram(s.programs, 7) == Some(s.programs[0]);
    assert Listed(ss, s) == [0, 0];
    var once: seq<nat>, twice: seq<nat> := [0], [0, 0];
    assert twice[1..] == once && once[1..] == [];
    assert Filtered(ss, s, once) == once;
    assert Filtered(ss, s, twice) == twice;
  }
}
