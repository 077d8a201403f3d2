/**
 stream_specifier_parse of cmdutils.c. The reference is a list of parts: what the parser accepts
 is a well-formed list of parts, and every well-formed list, printed, is read back.
 */
module StreamSpecParse {
  import opened Common
  import opened StreamMatch

  // ---- strtol(s, &end, 0) -----------------------------------------------------------------------

  const LONG_MAX: int := 0x7FFF_FFFF_FFFF_FFFF

  function Digit(c: char): nat {
    if '0' <= c <= '9' then c as int - '0' as int
    else if 'a' <= c <= 'z' then c as int - 'a' as int + 10
    else if 'A' <= c <= 'Z' then c as int - 'A' as int + 10
    else 36
  }

  function Spaces(s: string): (n: nat)
    ensures n <= |s|
  {
    if s == [] || !IsSpace(s[0]) then 0 else 1 + Spaces(s[1..])
  }

  /** How many digits of the base s starts with. */
  function Run(s: string, base: nat): (n: nat)
    ensures n <= |s|
  {
    if s == [] || Digit(s[0]) >= base then 0 else 1 + Run(s[1..], base)
  }

  function Value(s: string, base: nat): nat {
    if s == [] then 0 else Value(s[..|s| - 1], base) * base + Digit(s[|s| - 1])
  }

  /** The base that the text after the sign is in. */
  function Base(s: string): nat {
    if s == [] || s[0] != '0' then 10
    else if |s| >= 3 && (s[1] == 'x' || s[1] == 'X') && Digit(s[2]) < 16 then 16
    else 8
  }

  function Saturated(v: int): int {
    if v > LONG_MAX then LONG_MAX else if v < -LONG_MAX - 1 then -LONG_MAX - 1 else v
  }

  /** `used` is end - s. */
  datatype Number = Number(value: int, used: nat)

  function Strtol(s: string): (n: Number)
    ensures n.used <= |s| && -LONG_MAX - 1 <= n.value <= LONG_MAX
    ensures s != [] && '0' <= s[0] <= '9' ==> n.used > 0
  {
    var i := Spaces(s);
    var sign := i < |s| && (s[i] == '-' || s[i] == '+');
    var j := if sign then i + 1 else i;
    var base := Base(s[j..]);
    var k := if base == 16 then j + 2 else j;
    var n := Run(s[k..], base);
    var v: int := Value(s[k..k + n], base);
    if n == 0 then Number(0, 0) else Number(Saturated(if sign && s[i] == '-' then -v else v), k + n)
  }

  // ---- Parts ------------------------------------------------------------------------------------

  datatype Part =
    | Index(idx: int)
    | Media(letter: char)
    | GroupPart(byId: bool, id: int)
    | ProgramPart(id: int)
    | Disposition(flags: set<nat>)
    | StreamIdPart(id: int)
    | Metadata(key: string, val: Option<string>)
    | Usable

  /** Foreign functions: av_opt_eval_flags on the disposition option, and av_get_token up to ":". */
  datatype Env = Env(evalFlags: string -> Option<set<nat>>, getToken: string -> (string, nat))

  datatype Error =
    | MultipleTypes | MultipleLists | ExpectedNumber
    | MultipleDispositions | InvalidDisposition | TrailingGarbage

  /** The parts that terminate the specifier. */
  predicate Last(p: Part) {
    p.Index? || p.StreamIdPart? || p.Metadata? || p.Usable?
  }

  predicate IsList(p: Part) {
    p.GroupPart? || p.ProgramPart? || p.StreamIdPart?
  }

  predicate IsMediaLetter(c: char) {
    c == 'v' || c == 'a' || c == 's' || c == 'd' || c == 't' || c == 'V'
  }

  function MediaTypeOf(letter: char): MediaType
    requires IsMediaLetter(letter)
  {
    match letter
    case 'a' => TypeAudio
    case 's' => TypeSubtitle
    case 'd' => TypeData
    case 't' => TypeAttachment
    case _ => TypeVideo
  }

  predicate PartOk(p: Part) {
    p.Media? ==> IsMediaLetter(p.letter)
  }

  const BLANK := StreamSpecifier(-1, ListAll, 0, TypeUnknown, false, false, {}, None, None, None)

  function Apply(ss: StreamSpecifier, p: Part): StreamSpecifier
    requires PartOk(p)
  {
    match p
    case Index(idx) => ss.(idx := idx)
    case Media(letter) => ss.(mediaType := MediaTypeOf(letter), noApic := ss.noApic || letter == 'V')
    case GroupPart(byId, id) => ss.(list := if byId then ListGroupId else ListGroupIdx, listId := id)
    case ProgramPart(id) => ss.(list := ListProgram, listId := id)
    case Disposition(flags) => ss.(disposition := flags)
    case StreamIdPart(id) => ss.(list := ListStreamId, listId := id)
    case Metadata(key, val) => ss.(metaKey := Some(key), metaVal := val)
    case Usable => ss.(usableOnly := true)
  }

  predicate IsAlnum(c: char) {
    '0' <= c <= '9' || 'A' <= c <= 'Z' || 'a' <= c <= 'z'
  }

  /** The length of "#" or "i:" in front of an ID. */
  function IdMark(s: string): (n: nat)
    ensures n <= |s|
  {
    if StartsWith(s, "#") then 1 else if StartsWith(s, "i:") then 2 else 0
  }

  predicate IsFlagChar(c: char) {
    IsAlnum(c) || c == '_' || c == '+'
  }

  function FlagRun(s: string): (n: nat)
    ensures n <= |s|
  {
    if s == [] || !IsFlagChar(s[0]) then 0 else 1 + FlagRun(s[1..])
  }

  /** av_get_token never leaves the string. */
  function Token(env: Env, s: string): (r: (string, nat))
    ensures r.1 <= |s|
  {
    var t := env.getToken(s);
    if t.1 <= |s| then t else (t.0, |s|)
  }

  /** ss lets p be read. */
  predicate Accepts(ss: StreamSpecifier, p: Part) {
    && (p.Media? ==> ss.mediaType.TypeUnknown?)
    && (IsList(p) ==> ss.list.ListAll?)
    && (p.Disposition? ==> ss.disposition == {})
  }

  datatype Lexed = NoPart | Bad(error: Error) | Got(part: Part, used: nat)

  function Numbered(s: string, skip: nat, make: int -> Part): Lexed
    requires skip <= |s|
  {
    var n := Strtol(s[skip..]);
    if n.used == 0 then Bad(ExpectedNumber) else Got(make(n.value), skip + n.used)
  }

  function ReadMetadata(env: Env, s: string): (r: Lexed)
    requires StartsWith(s, "m:")
    ensures r.Got? && r.part.Metadata? && 2 <= r.used <= |s|
  {
    var key := Token(env, s[2..]);
    var at := 2 + key.1;
    if at < |s| && s[at] == ':' then
      var val := Token(env, s[at + 1..]);
      Got(Metadata(key.0, Some(val.0)), at + 1 + val.1)
    else Got(Metadata(key.0, None), at)
  }

  /** The part that s starts with, given what has been read before. */
  function ReadPart(env: Env, ss: StreamSpecifier, s: string): (r: Lexed)
    requires s != []
    ensures r.Got? ==> 0 < r.used <= |s| && PartOk(r.part) && Accepts(ss, r.part)
  {
    if '0' <= s[0] <= '9' then
      Got(Index(ToInt32(Strtol(s).value)), Strtol(s).used)
    else if IsMediaLetter(s[0]) && !(|s| > 1 && IsAlnum(s[1])) then
      if !ss.mediaType.TypeUnknown? then Bad(MultipleTypes) else Got(Media(s[0]), 1)
    else if StartsWith(s, "g:") then
      if !ss.list.ListAll? then Bad(MultipleLists)
      else Numbered(s, 2 + IdMark(s[2..]), id => GroupPart(IdMark(s[2..]) > 0, id))
    else if StartsWith(s, "p:") then
      if !ss.list.ListAll? then Bad(MultipleLists)
      else Numbered(s, 2, id => ProgramPart(id))
    else if StartsWith(s, "disp:") then
      if ss.disposition != {} then Bad(MultipleDispositions)
      else
        var len := FlagRun(s[5..]);
        var flags := env.evalFlags(s[5..5 + len]);
        if flags.None? then Bad(InvalidDisposition) else Got(Disposition(flags.value), 5 + len)
    else if IdMark(s) > 0 then
      if !ss.list.ListAll? then Bad(MultipleLists)
      else Numbered(s, IdMark(s), id => StreamIdPart(id))
    else if StartsWith(s, "m:") then
      ReadMetadata(env, s)
    else if s[0] == 'u' && (|s| == 1 || s[1] == ':') then
      Got(Usable, 1)
    else NoPart
  }

  function SkipColon(s: string): string {
    if s != [] && s[0] == ':' then s[1..] else s
  }

  datatype Scanned = Scanned(parts: seq<Part>, rest: string)

  /** All parts of s, and what is left behind them. */
  function Scan(env: Env, ss: StreamSpecifier, s: string): (r: Result<Scanned, Error>)
    ensures r.Ok? ==> forall i | 0 <= i < |r.value.parts| :: PartOk(r.value.parts[i])
    decreases |s|
  {
    if s == [] then Ok(Scanned([], []))
    else
      match ReadPart(env, ss, s)
      case NoPart => Ok(Scanned([], s))
      case Bad(error) => Err(error)
      case Got(p, used) =>
        if Last(p) then Ok(Scanned([p], s[used..]))
        else
          var more := Scan(env, Apply(ss, p), SkipColon(s[used..]));
          if more.Err? then more else Ok(Scanned([p] + more.value.parts, more.value.rest))
  }

  predicate AllOk(parts: seq<Part>) {
    forall i | 0 <= i < |parts| :: PartOk(parts[i])
  }

  function Meaning(ss: StreamSpecifier, parts: seq<Part>): StreamSpecifier
    requires AllOk(parts)
    decreases |parts|
  {
    if parts == [] then ss else Meaning(Apply(ss, parts[0]), parts[1..])
  }

  function Finished(ss: StreamSpecifier, rest: string, allowRemainder: bool): Result<StreamSpecifier, Error> {
    if rest == [] then Ok(ss)
    else if !allowRemainder then Err(TrailingGarbage)
    else Ok(ss.(remainder := Some(SkipColon(rest))))
  }

  /** Continuing to parse s, with ss filled so far. */
  function ParseFrom(env: Env, ss: StreamSpecifier, s: string, allowRemainder: bool): Result<StreamSpecifier, Error> {
    var r := Scan(env, ss, s);
    if r.Err? then Err(r.error) else Finished(Meaning(ss, r.value.parts), r.value.rest, allowRemainder)
  }

  // ---- The code -----------------------------------------------------------------------------------

  /** No terminating part has been read yet. */
  predicate Open(ss: StreamSpecifier) {
    ss.idx == -1 && !ss.list.ListStreamId? && ss.metaKey.None? && ss.metaVal.None?
  }

  /** strtol and the check that it has found a number. */
  method ReadNumber(spec0: string) returns (id: int, spec: string, ok: bool)
    ensures var n := Strtol(spec0);
            ok == (n.used > 0) && id == n.value && spec == spec0[n.used..]
  {
    var n := Strtol(spec0);
    id, spec, ok := n.value, spec0[n.used..], n.used > 0;
  }

  /** One turn of the loop; `more` tells whether the loop goes on. */
  method ParsePart(env: Env, ss0: StreamSpecifier, spec0: string)
    returns (error: Option<Error>, ss: StreamSpecifier, spec: string, more: bool)
    requires spec0 != [] && Open(ss0)
    ensures match ReadPart(env, ss0, spec0)
            case NoPart => error.None? && !more && ss == ss0 && spec == spec0
            case Bad(e) => error == Some(e)
            case Got(p, used) => error.None? && more == !Last(p) && ss == Apply(ss0, p) && spec == spec0[used..]
  {
    hide Strtol, IsAlnum, FlagRun, IsMediaLetter, MediaTypeOf, Saturated, ToInt32, Token, ReadMetadata;
    ss, spec, error, more := ss0, spec0, None, false;
    if '0' <= spec[0] <= '9' {
      var n := Strtol(spec);
      ss := ss.(idx := ToInt32(n.value));
      assert n.used > 0;
      spec := spec[n.used..];
      return;
    }
    if IsMediaLetter(spec[0]) && !(|spec| > 1 && IsAlnum(spec[1])) {
      if !ss.mediaType.TypeUnknown? {
        return Some(MultipleTypes), ss, spec, false;
      }
      ss := SetMediaType(ss, spec[0]);
      spec, more := spec[1..], true;
    } else if StartsWith(spec, "g:") {
      if !ss.list.ListAll? {
        return Some(MultipleLists), ss, spec, false;
      }
      var ok;
      ss, spec, ok := ParseGroup(ss, spec);
      if !ok {
        return Some(ExpectedNumber), ss, spec, false;
      }
      more := true;
    } else if StartsWith(spec, "p:") {
      if !ss.list.ListAll? {
        return Some(MultipleLists), ss, spec, false;
      }
      ss := ss.(list := ListProgram);
      var id, rest, ok := ReadNumber(spec[2..]);
      if !ok {
        return Some(ExpectedNumber), ss, spec, false;
      }
      ss, spec, more := ss.(listId := id), rest, true;
    } else if StartsWith(spec, "disp:") {
      if ss.disposition != {} {
        return Some(MultipleDispositions), ss, spec, false;
      }
      spec := spec[5..];
      var len := FlagRun(spec);
      assert spec0[5..][..len] == spec0[5..5 + len];
      var flags := env.evalFlags(spec[..len]);
      if flags.None? {
        return Some(InvalidDisposition), ss, spec, false;
      }
      ss, spec, more := ss.(disposition := flags.value), spec[len..], true;
    } else if IdMark(spec) > 0 {
      if !ss.list.ListAll? {
        return Some(MultipleLists), ss, spec, false;
      }
      ss := ss.(list := ListStreamId);
      var id, rest, ok := ReadNumber(spec[IdMark(spec)..]);
      if !ok {
        return Some(ExpectedNumber), ss, spec, false;
      }
      ss, spec := ss.(listId := id), rest;
    } else if StartsWith(spec, "m:") {
      assert ss.metaKey.None? && ss.metaVal.None?;
      ss, spec := ParseMetadata(env, ss, spec);
    } else if spec[0] == 'u' && (|spec| == 1 || spec[1] == ':') {
      ss, spec := ss.(usableOnly := true), spec[1..];
    }
  }

  method SetMediaType(ss0: StreamSpecifier, letter: char) returns (ss: StreamSpecifier)
    requires IsMediaLetter(letter)
    ensures ss == Apply(ss0, Media(letter))
  {
    match letter {
      case 'v' => ss := ss0.(mediaType := TypeVideo);
      case 'a' => ss := ss0.(mediaType := TypeAudio);
      case 's' => ss := ss0.(mediaType := TypeSubtitle);
      case 'd' => ss := ss0.(mediaType := TypeData);
      case 't' => ss := ss0.(mediaType := TypeAttachment);
      case _ => ss := ss0.(mediaType := TypeVideo, noApic := true);
    }
  }

  method ParseGroup(ss0: StreamSpecifier, spec0: string) returns (ss: StreamSpecifier, spec: string, ok: bool)
    requires StartsWith(spec0, "g:")
    ensures var mark := IdMark(spec0[2..]);
            match Numbered(spec0, 2 + mark, id => GroupPart(mark > 0, id))
            case NoPart => false
            case Bad(_) => !ok
            case Got(p, used) => ok && PartOk(p) && ss == Apply(ss0, p) && spec == spec0[used..]
  {
    hide Strtol;
    spec := spec0[2..];
    var mark := IdMark(spec);
    ss := ss0.(list := if mark > 0 then ListGroupId else ListGroupIdx);
    assert spec[mark..] == spec0[2 + mark..];
    var id;
    id, spec, ok := ReadNumber(spec[mark..]);
    ss := ss.(listId := id);
  }

  method ParseMetadata(env: Env, ss0: StreamSpecifier, spec0: string) returns (ss: StreamSpecifier, spec: string)
    requires StartsWith(spec0, "m:") && ss0.metaVal.None?
    ensures ss == Apply(ss0, ReadMetadata(env, spec0).part) && spec == spec0[ReadMetadata(env, spec0).used..]
  {
    spec := spec0[2..];
    var key := Token(env, spec);
    ss, spec := ss0.(metaKey := Some(key.0)), spec[key.1..];
    assert spec == spec0[2 + key.1..];
    if spec != [] && spec[0] == ':' {
      spec := spec[1..];
      assert spec == spec0[2 + key.1 + 1..];
      var val := Token(env, spec);
      ss, spec := ss.(metaVal := Some(val.0)), spec[val.1..];
    }
  }

  method Parse(env: Env, spec0: string, allowRemainder: bool) returns (r: Result<StreamSpecifier, Error>)
    ensures r == ParseFrom(env, BLANK, spec0, allowRemainder)
  {
    hide ReadPart, Apply, Last;
    var ss, spec := BLANK, spec0;
    var more := true;
    while more && spec != []
      invariant more ==> Open(ss) && ParseFrom(env, ss, spec, allowRemainder) == ParseFrom(env, BLANK, spec0, allowRemainder)
      invariant !more ==> Finished(ss, spec, allowRemainder) == ParseFrom(env, BLANK, spec0, allowRemainder)
      decreases more, |spec|
    {
      ghost var before := ss;
      var error, ss', spec', more' := ParsePart(env, ss, spec);
      Turn(env, ss, spec, allowRemainder);
      if error.Some? {
        return Err(error.value);
      }
      ss, spec, more := ss', spec', more';
      if more {
        spec := SkipColon(spec);
      }
    }
    if spec != [] {
      if !allowRemainder {
        return Err(TrailingGarbage);
      }
      spec := SkipColon(spec);
      return Ok(ss.(remainder := Some(spec)));
    }
    return Ok(ss);
  }

  /** What one part leaves to be parsed. */
  lemma Turn(env: Env, ss: StreamSpecifier, s: string, allowRemainder: bool)
    requires s != [] && Open(ss)
    ensures var whole := ParseFrom(env, ss, s, allowRemainder);
            match ReadPart(env, ss, s)
            case NoPart => whole == Finished(ss, s, allowRemainder)
            case Bad(e) => whole == Err(e)
            case Got(p, used) =>
              if Last(p) then whole == Finished(Apply(ss, p), s[used..], allowRemainder)
              else Open(Apply(ss, p)) && whole == ParseFrom(env, Apply(ss, p), SkipColon(s[used..]), allowRemainder)
  {
    hide ReadPart;
    var r := ReadPart(env, ss, s);
    if r.Got? {
      if Last(r.part) {
        assert [r.part][1..] == [];
        assert Meaning(ss, [r.part]) == Apply(ss, r.part);
      } else {
        var more := Scan(env, Apply(ss, r.part), SkipColon(s[r.used..]));
        if more.Ok? {
          assert ([r.part] + more.value.parts)[1..] == more.value.parts;
        }
      }
    }
  }

  // ---- What is accepted ---------------------------------------------------------------------------

  predicate Compatible(a: Part, b: Part) {
    && !Last(a)
    && !(IsList(a) && IsList(b))
    && !(a.Media? && b.Media?)
    && (a.Disposition? && b.Disposition? ==> a.flags == {})
  }

  /** One list designator and one type at most, and nothing behind a part that terminates. */
  ghost predicate WellFormed(parts: seq<Part>) {
    AllOk(parts) && forall i, j | 0 <= i < j < |parts| :: Compatible(parts[i], parts[j])
  }

  ghost predicate AllAccepted(ss: StreamSpecifier, parts: seq<Part>) {
    forall i | 0 <= i < |parts| :: Accepts(ss, parts[i])
  }

  lemma AcceptsNext(ss: StreamSpecifier, p: Part, q: Part)
    requires PartOk(p) && Accepts(ss, p) && !Last(p)
    ensures Accepts(Apply(ss, p), q) <==> Accepts(ss, q) && Compatible(p, q)
  {
  }

  /** Reading p first: the rest must be well-formed and accepted with p read. */
  lemma WellFormedCons(ss: StreamSpecifier, p: Part, rest: seq<Part>)
    requires PartOk(p) && Accepts(ss, p) && !Last(p)
    requires WellFormed(rest) && AllAccepted(Apply(ss, p), rest)
    ensures WellFormed([p] + rest) && AllAccepted(ss, [p] + rest)
  {
    hide Accepts, Compatible, Apply, PartOk;
    var parts := [p] + rest;
    forall i | 0 <= i < |rest| ensures Accepts(ss, rest[i]) && Compatible(p, rest[i]) {
      AcceptsNext(ss, p, rest[i]);
    }
    forall i, j | 0 <= i < j < |parts| ensures Compatible(parts[i], parts[j]) {
      if i > 0 {
        assert Compatible(rest[i - 1], rest[j - 1]);
      }
    }
  }

  lemma WellFormedTail(ss: StreamSpecifier, parts: seq<Part>)
    requires parts != [] && WellFormed(parts) && AllAccepted(ss, parts)
    ensures WellFormed(parts[1..]) && PartOk(parts[0]) && Accepts(ss, parts[0])
    ensures if Last(parts[0]) then parts[1..] == [] else AllAccepted(Apply(ss, parts[0]), parts[1..])
  {
    hide Accepts, Apply, PartOk;
    var p, rest := parts[0], parts[1..];
    assert PartOk(p);
    if |parts| > 1 {
      assert Compatible(parts[0], parts[1]);
    }
    hide Compatible;
    forall i, j | 0 <= i < j < |rest| ensures Compatible(rest[i], rest[j]) {
      assert Compatible(parts[i + 1], parts[j + 1]);
    }
    if !Last(p) {
      forall i | 0 <= i < |rest| ensures Accepts(Apply(ss, p), rest[i]) {
        assert Compatible(parts[0], parts[i + 1]) && Accepts(ss, parts[i + 1]);
        AcceptsNext(ss, p, rest[i]);
      }
    }
  }

  /** The parts that are found are well-formed, whatever the input. */
  lemma {:induction false} ScanWellFormed(env: Env, ss: StreamSpecifier, s: string)
    requires Scan(env, ss, s).Ok?
    ensures WellFormed(Scan(env, ss, s).value.parts) && AllAccepted(ss, Scan(env, ss, s).value.parts)
    decreases |s|
  {
    hide Apply, Compatible, PartOk, ReadPart;
    if s != [] {
      var r := ReadPart(env, ss, s);
      if r.Got? {
        if !Last(r.part) {
          var rest := SkipColon(s[r.used..]);
          ScanWellFormed(env, Apply(ss, r.part), rest);
          WellFormedCons(ss, r.part, Scan(env, Apply(ss, r.part), rest).value.parts);
        }
      }
    }
  }

  /** Every part has set its field of ss. */
  ghost predicate Describes(ss: StreamSpecifier, p: Part)
    requires PartOk(p)
  {
    match p
    case Index(idx) => ss.idx == idx
    case Media(letter) => ss.mediaType == MediaTypeOf(letter) && (letter == 'V' ==> ss.noApic)
    case GroupPart(byId, id) => ss.list == (if byId then ListGroupId else ListGroupIdx) && ss.listId == id
    case ProgramPart(id) => ss.list.ListProgram? && ss.listId == id
    case Disposition(flags) => flags == {} || ss.disposition == flags
    case StreamIdPart(id) => ss.list.ListStreamId? && ss.listId == id
    case Metadata(key, val) => ss.metaKey == Some(key) && ss.metaVal == val
    case Usable => ss.usableOnly
  }

  /** Reading q does not touch what p has set. */
  lemma LaterPartKeeps(ss: StreamSpecifier, p: Part, q: Part)
    requires PartOk(p) && PartOk(q) && Describes(ss, p) && Compatible(p, q)
    ensures Describes(Apply(ss, q), p)
  {
  }

  lemma {:induction false} LaterPartsKeep(ss: StreamSpecifier, p: Part, parts: seq<Part>)
    requires PartOk(p) && Describes(ss, p) && AllOk(parts)
    requires forall i | 0 <= i < |parts| :: Compatible(p, parts[i])
    ensures Describes(Meaning(ss, parts), p)
    decreases |parts|
  {
    hide Apply, Compatible, Describes, PartOk;
    if parts != [] {
      LaterPartKeeps(ss, p, parts[0]);
      assert forall i | 0 <= i < |parts[1..]| :: parts[1..][i] == parts[i + 1];
      LaterPartsKeep(Apply(ss, parts[0]), p, parts[1..]);
    }
  }

  datatype Field = IndexField | TypeField | ApicField | ListField | DispositionField | MetadataField | UsableField

  predicate Sets(p: Part, f: Field) {
    match f
    case IndexField => p.Index?
    case TypeField => p.Media?
    case ApicField => p == Media('V')
    case ListField => IsList(p)
    case DispositionField => p.Disposition? && p.flags != {}
    case MetadataField => p.Metadata?
    case UsableField => p.Usable?
  }

  predicate Blank(ss: StreamSpecifier, f: Field) {
    match f
    case IndexField => ss.idx == -1
    case TypeField => ss.mediaType.TypeUnknown?
    case ApicField => !ss.noApic
    case ListField => ss.list.ListAll?
    case DispositionField => ss.disposition == {}
    case MetadataField => ss.metaKey.None? && ss.metaVal.None?
    case UsableField => !ss.usableOnly
  }

  lemma AbsentPartKeeps(ss: StreamSpecifier, p: Part, f: Field)
    requires PartOk(p) && Blank(ss, f) && !Sets(p, f)
    ensures Blank(Apply(ss, p), f)
  {
    hide IsMediaLetter, MediaTypeOf;
  }

  /** What no part sets stays blank. */
  lemma {:induction false} AbsentPartsKeep(ss: StreamSpecifier, parts: seq<Part>, f: Field)
    requires AllOk(parts) && Blank(ss, f)
    requires forall i | 0 <= i < |parts| :: !Sets(parts[i], f)
    ensures Blank(Meaning(ss, parts), f)
    decreases |parts|
  {
    hide PartOk, Apply, Sets, Blank;
    if parts != [] {
      AbsentPartKeeps(ss, parts[0], f);
      assert forall k | 0 <= k < |parts[1..]| :: parts[1..][k] == parts[k + 1];
      AbsentPartsKeep(Apply(ss, parts[0]), parts[1..], f);
    }
  }

  /** Each part of a well-formed list has its say in what the list means. */
  lemma {:induction false} EveryPartCounts(ss: StreamSpecifier, parts: seq<Part>, i: nat)
    requires WellFormed(parts) && i < |parts|
    ensures Describes(Meaning(ss, parts), parts[i])
    decreases |parts|
  {
    hide Compatible;
    var p, rest := parts[0], parts[1..];
    assert PartOk(p);
    assert forall k | 0 <= k < |rest| :: rest[k] == parts[k + 1];
    if i == 0 {
      LaterPartsKeep(Apply(ss, p), p, rest);
    } else {
      EveryPartCounts(Apply(ss, p), rest, i - 1);
    }
  }

  /** A specifier means a list of parts if each part is in it and every other field is blank. */
  ghost predicate Represents(ss: StreamSpecifier, parts: seq<Part>) {
    && WellFormed(parts)
    && (forall i | 0 <= i < |parts| :: Describes(ss, parts[i]))
    && (forall f: Field | (forall i | 0 <= i < |parts| :: !Sets(parts[i], f)) :: Blank(ss, f))
  }

  lemma MeaningRepresents(parts: seq<Part>)
    requires WellFormed(parts)
    ensures Represents(Meaning(BLANK, parts), parts)
  {
    hide Compatible, Apply, Sets, Blank, Describes, Meaning;
    var m := Meaning(BLANK, parts);
    forall i | 0 <= i < |parts| ensures Describes(m, parts[i]) {
      EveryPartCounts(BLANK, parts, i);
    }
    forall f: Field | (forall i | 0 <= i < |parts| :: !Sets(parts[i], f)) ensures Blank(m, f) {
      BlankIsBlank(f);
      AbsentPartsKeep(BLANK, parts, f);
    }
  }

  lemma BlankIsBlank(f: Field)
    ensures Blank(BLANK, f)
  {
  }

  /** Every accepted string is a well-formed list of parts and a remainder, and means just that. */
  lemma AcceptedIsWellFormed(env: Env, spec: string, allowRemainder: bool)
    requires ParseFrom(env, BLANK, spec, allowRemainder).Ok?
    ensures Scan(env, BLANK, spec).Ok?
    ensures var ss := ParseFrom(env, BLANK, spec, allowRemainder).value;
            var found := Scan(env, BLANK, spec).value;
            && Represents(ss, found.parts)
            && ss.remainder == (if found.rest == [] then None else Some(SkipColon(found.rest)))
            && (found.rest != [] ==> allowRemainder)
  {
    hide Scan, Compatible, Blank, Describes, Apply;
    var found := Scan(env, BLANK, spec).value;
    ScanWellFormed(env, BLANK, spec);
    MeaningRepresents(found.parts);
    var m := Meaning(BLANK, found.parts);
    KeepsRemainder(BLANK, found.parts);
    RemainderIsNotAPart(m, found.parts, Some(SkipColon(found.rest)));
  }

  lemma {:induction false} KeepsRemainder(ss: StreamSpecifier, parts: seq<Part>)
    requires AllOk(parts)
    ensures Meaning(ss, parts).remainder == ss.remainder
    decreases |parts|
  {
    if parts != [] {
      KeepsRemainder(Apply(ss, parts[0]), parts[1..]);
    }
  }

  lemma RemainderIsNotAPart(ss: StreamSpecifier, parts: seq<Part>, remainder: Option<string>)
    requires Represents(ss, parts)
    ensures Represents(ss.(remainder := remainder), parts)
  {
    hide Compatible, Sets;
    var after := ss.(remainder := remainder);
    forall i | 0 <= i < |parts| ensures Describes(after, parts[i]) {
      assert Describes(ss, parts[i]);
    }
    forall f: Field | (forall i | 0 <= i < |parts| :: !Sets(parts[i], f)) ensures Blank(after, f) {
      assert Blank(ss, f);
    }
  }

  lemma OnlyTheLastIsLast(parts: seq<Part>)
    requires WellFormed(parts)
    ensures forall i | 0 <= i < |parts| - 1 :: !Last(parts[i])
  {
    forall i | 0 <= i < |parts| - 1 ensures !Last(parts[i]) {
      assert Compatible(parts[i], parts[i + 1]);
    }
  }

  /** An index and a stream ID exclude each other, since both terminate the specifier. */
  lemma IndexOrStreamId(ss: StreamSpecifier, parts: seq<Part>)
    requires Represents(ss, parts) && ss.list.ListStreamId?
    ensures ss.idx == -1
  {
    assert !Blank(ss, ListField);
    var i :| 0 <= i < |parts| && Sets(parts[i], ListField);
    assert Describes(ss, parts[i]) && parts[i].StreamIdPart?;
    hide Describes, Compatible;
    assert Last(parts[i]);
    OnlyTheLastIsLast(parts);
    assert forall k | 0 <= k < |parts| :: !Sets(parts[k], IndexField);
    assert Blank(ss, IndexField);
  }

  /** No assertion of the matcher can fire on an accepted specifier. */
  lemma AcceptedCanBeMatched(env: Env, spec: string, allowRemainder: bool)
    requires ParseFrom(env, BLANK, spec, allowRemainder).Ok?
    ensures var ss := ParseFrom(env, BLANK, spec, allowRemainder).value;
            ss.list.ListStreamId? ==> ss.idx == -1
  {
    hide Represents, ParseFrom;
    AcceptedIsWellFormed(env, spec, allowRemainder);
    var ss := ParseFrom(env, BLANK, spec, allowRemainder).value;
    if ss.list.ListStreamId? {
      IndexOrStreamId(ss, Scan(env, BLANK, spec).value.parts);
    }
  }

  // ---- What is printed is read back -------------------------------------------------------------------

  function Decimal(n: nat): (s: string)
    ensures s != []
  {
    if n < 10 then [('0' as int + n) as char] else Decimal(n / 10) + [('0' as int + n % 10) as char]
  }

  function Signed(v: int): string {
    if v < 0 then "-" + Decimal(-v) else Decimal(v)
  }

  lemma {:induction false} DecimalValue(n: nat)
    ensures Value(Decimal(n), 10) == n
    ensures forall i | 0 <= i < |Decimal(n)| :: '0' <= Decimal(n)[i] <= '9'
    ensures Decimal(n)[0] == '0' ==> n == 0 && Decimal(n) == "0"
  {
    var s := Decimal(n);
    if n < 10 {
      assert s[..0] == [];
    } else {
      DecimalValue(n / 10);
      assert s[..|s| - 1] == Decimal(n / 10);
    }
  }

  /** What may follow a part: the end, or a colon. */
  predicate Delimited(tail: string) {
    tail == [] || tail[0] == ':'
  }

  lemma {:induction false} RunStops(digits: string, tail: string, base: nat)
    requires forall i | 0 <= i < |digits| :: Digit(digits[i]) < base
    requires Delimited(tail) && base <= 36
    ensures Run(digits + tail, base) == |digits|
  {
    var s := digits + tail;
    if digits == [] {
      assert s == tail;
    } else {
      assert s[1..] == digits[1..] + tail;
      RunStops(digits[1..], tail, base);
    }
  }

  predicate IsLong(v: int) {
    -LONG_MAX - 1 <= v <= LONG_MAX
  }

  lemma DigitsRead(n: nat, tail: string)
    requires Delimited(tail)
    ensures var digits, base := Decimal(n), if n == 0 then 8 else 10;
            Base(digits + tail) == base && Run(digits + tail, base) == |digits| && Value(digits, base) == n
  {
    hide Run, Value;
    var digits, base := Decimal(n), if n == 0 then 8 else 10;
    DecimalValue(n);
    ZeroIsZero();
    assert n > 0 ==> digits[0] != '0';
    RunStops(digits, tail, base);
  }

  lemma StartsAt(s: string)
    requires s != [] && (s[0] == '-' || '0' <= s[0] <= '9')
    ensures Spaces(s) == 0 && s[0] != '+'
  {
  }

  lemma DropHead(head: char, t: string)
    ensures ([head] + t)[1..] == t && ([head] + t)[0] == head
  {
  }

  /** A sign in front of digits is taken, and nothing else. */
  lemma SignIsRead(v: int, tail: string)
    ensures var s := Signed(v) + tail;
            s != [] && Spaces(s) == 0 && (s[0] == '-' <==> v < 0) && s[0] != '+'
            && s[if v < 0 then 1 else 0..] == Decimal(if v < 0 then -v else v) + tail
  {
    var digits := Decimal(if v < 0 then -v else v);
    DecimalValue(if v < 0 then -v else v);
    hide Decimal, Value, Spaces;
    assert '0' <= digits[0] <= '9';
    StartsAt(Signed(v) + tail);
    if v < 0 {
      ConcatAssociates("-", digits, tail);
      DropHead('-', digits + tail);
    } else {
      assert (digits + tail)[0..] == digits + tail;
    }
  }

  lemma StrtolReads(v: int, tail: string)
    requires Delimited(tail)
    ensures Strtol(Signed(v) + tail) == Number(Saturated(v), |Signed(v)|)
  {
    var n := if v < 0 then -v else v;
    var digits := Decimal(n);
    SignIsRead(v, tail);
    DigitsRead(n, tail);
    var j := if v < 0 then 1 else 0;
    assert |Signed(v)| == j + |digits|;
    hide Run, Value, Decimal, Base, Digit, Saturated, Spaces, Signed;
    var s := Signed(v) + tail;
    assert s[j..][..|digits|] == digits;
    assert s[j..j + |digits|] == s[j..][..|digits|];
  }

  lemma ZeroIsZero()
    ensures Value("0", 8) == 0
  {
    var s := "0";
    assert s[..0] == [];
  }

  /** A way to spell what only the foreign functions can read, and either mark of an ID. */
  datatype Speller = Speller(mark: string, flagNames: set<nat> -> string, quote: string -> string)

  ghost predicate SpellsToken(env: Env, sp: Speller, token: string) {
    forall tail | Delimited(tail) :: env.getToken(sp.quote(token) + tail) == (token, |sp.quote(token)|)
  }

  predicate SpellsFlags(env: Env, sp: Speller, flags: set<nat>) {
    && (forall i | 0 <= i < |sp.flagNames(flags)| :: IsFlagChar(sp.flagNames(flags)[i]))
    && env.evalFlags(sp.flagNames(flags)) == Some(flags)
  }

  ghost predicate Spellable(env: Env, sp: Speller, p: Part) {
    && (sp.mark == "#" || sp.mark == "i:")
    && match p
       case Index(idx) => 0 <= idx < 0x8000_0000
       case Media(letter) => IsMediaLetter(letter)
       case GroupPart(_, id) => IsLong(id)
       case ProgramPart(id) => IsLong(id)
       case Disposition(flags) => SpellsFlags(env, sp, flags)
       case StreamIdPart(id) => IsLong(id)
       case Metadata(key, val) => SpellsToken(env, sp, key) && (val.Some? ==> SpellsToken(env, sp, val.value))
       case Usable => true
  }

  function Text(sp: Speller, p: Part): string {
    match p
    case Index(idx) => Signed(idx)
    case Media(letter) => [letter]
    case GroupPart(byId, id) => "g:" + (if byId then sp.mark else "") + Signed(id)
    case ProgramPart(id) => "p:" + Signed(id)
    case Disposition(flags) => "disp:" + sp.flagNames(flags)
    case StreamIdPart(id) => sp.mark + Signed(id)
    case Metadata(key, val) => "m:" + sp.quote(key) + (if val.Some? then ":" + sp.quote(val.value) else "")
    case Usable => "u"
  }

  /** The parts and what is left behind them, separated by colons. */
  function Print(sp: Speller, parts: seq<Part>, rest: string): string {
    if parts == [] then rest
    else Text(sp, parts[0]) + (if |parts| == 1 && rest == [] then "" else ":" + Print(sp, parts[1..], rest))
  }

  predicate EndsInLast(parts: seq<Part>) {
    parts != [] && Last(parts[|parts| - 1])
  }

  /** The rest is not taken for another part, or for the value of a metadata key. */
  predicate IsRest(env: Env, ss: StreamSpecifier, parts: seq<Part>, rest: string)
    requires AllOk(parts)
  {
    rest == [] ||
    if EndsInLast(parts) then !(parts[|parts| - 1].Metadata? && parts[|parts| - 1].val.None?)
    else ReadPart(env, Meaning(ss, parts), rest).NoPart?
  }

  /** What the loop leaves: behind a terminating part the colon stays. */
  function Unread(parts: seq<Part>, rest: string): string {
    if EndsInLast(parts) && rest != [] then ":" + rest else rest
  }

  lemma {:induction false} FlagRunStops(flags: string, tail: string)
    requires Delimited(tail) && forall i | 0 <= i < |flags| :: IsFlagChar(flags[i])
    ensures FlagRun(flags + tail) == |flags|
  {
    if flags == [] {
      assert flags + tail == tail;
    } else {
      assert (flags + tail)[1..] == flags[1..] + tail;
      FlagRunStops(flags[1..], tail);
    }
  }

  lemma IdReads(mark: string, id: int, tail: string, before: string, make: int -> Part)
    requires IsLong(id) && Delimited(tail)
    ensures Numbered(before + mark + Signed(id) + tail, |before| + |mark|, make) == Got(make(id), |before| + |mark| + |Signed(id)|)
  {
    hide Signed, Strtol;
    StrtolReads(id, tail);
    var s := before + mark + Signed(id) + tail;
    assert s[|before| + |mark|..] == Signed(id) + tail;
    SignedStart(id);
  }

  lemma SignedStart(v: int)
    ensures Signed(v) != [] && (Signed(v)[0] == '-' || '0' <= Signed(v)[0] <= '9')
    ensures v >= 0 ==> Signed(v)[0] != '-'
  {
    DecimalValue(if v < 0 then -v else v);
  }

  lemma IdMarkReads(mark: string, id: int, tail: string)
    requires mark == "" || mark == "#" || mark == "i:"
    ensures IdMark(mark + Signed(id) + tail) == |mark|
  {
    hide Signed;
    SignedStart(id);
    var s := mark + Signed(id) + tail;
    if mark == "" {
      assert s[0] == Signed(id)[0];
    } else if mark == "#" {
      assert s[..1] == "#";
    } else {
      assert s[..2] == "i:" && s[0] == 'i';
    }
  }

  lemma GroupReads(env: Env, sp: Speller, ss: StreamSpecifier, p: Part, tail: string)
    requires p.GroupPart? && ss.list.ListAll? && Spellable(env, sp, p) && Delimited(tail)
    ensures ReadPart(env, ss, Text(sp, p) + tail) == Got(p, |Text(sp, p)|)
  {
    hide Signed, Numbered, SpellsToken, IdMark, Strtol, FlagRun, Token, ReadMetadata, ToInt32;
    var s, mark := Text(sp, p) + tail, if p.byId then sp.mark else "";
    assert s == "g:" + mark + Signed(p.id) + tail;
    assert s[2..] == mark + Signed(p.id) + tail;
    IdMarkReads(mark, p.id, tail);
    IdReads(mark, p.id, tail, "g:", id => GroupPart(IdMark(s[2..]) > 0, id));
  }

  lemma ProgramReads(env: Env, sp: Speller, ss: StreamSpecifier, p: Part, tail: string)
    requires p.ProgramPart? && ss.list.ListAll? && Spellable(env, sp, p) && Delimited(tail)
    ensures ReadPart(env, ss, Text(sp, p) + tail) == Got(p, |Text(sp, p)|)
  {
    hide Signed, Numbered, SpellsToken;
    var s := Text(sp, p) + tail;
    assert s == "p:" + "" + Signed(p.id) + tail;
    IdReads("", p.id, tail, "p:", id => ProgramPart(id));
  }

  lemma StreamIdReads(env: Env, sp: Speller, ss: StreamSpecifier, p: Part, tail: string)
    requires p.StreamIdPart? && ss.list.ListAll? && Spellable(env, sp, p) && Delimited(tail)
    ensures ReadPart(env, ss, Text(sp, p) + tail) == Got(p, |Text(sp, p)|)
  {
    hide Signed, Numbered, SpellsToken, IdMark, Strtol, FlagRun, Token, ReadMetadata, ToInt32;
    var s := Text(sp, p) + tail;
    assert s == "" + sp.mark + Signed(p.id) + tail;
    IdMarkReads(sp.mark, p.id, tail);
    assert sp.mark + Signed(p.id) + tail == s;
    IdReads(sp.mark, p.id, tail, "", id => StreamIdPart(id));
  }

  lemma FlagsRead(env: Env, sp: Speller, ss: StreamSpecifier, p: Part, tail: string)
    requires p.Disposition? && ss.disposition == {} && Spellable(env, sp, p) && Delimited(tail)
    ensures ReadPart(env, ss, Text(sp, p) + tail) == Got(p, |Text(sp, p)|)
  {
    hide Numbered, FlagRun, SpellsToken, ReadMetadata;
    var s, names := Text(sp, p) + tail, sp.flagNames(p.flags);
    FlagRunStops(names, tail);
    assert s[5..] == names + tail && s[5..5 + |names|] == names;
  }

  lemma TokenReads(env: Env, sp: Speller, token: string, tail: string)
    requires SpellsToken(env, sp, token) && Delimited(tail)
    ensures Token(env, sp.quote(token) + tail) == (token, |sp.quote(token)|)
  {
  }

  lemma MetadataReads(env: Env, sp: Speller, p: Part, tail: string)
    requires p.Metadata? && Spellable(env, sp, p) && Delimited(tail) && (p.val.None? ==> tail == [])
    ensures StartsWith(Text(sp, p) + tail, "m:") && ReadMetadata(env, Text(sp, p) + tail) == Got(p, |Text(sp, p)|)
  {
    hide Token, SpellsToken;
    var s, key := Text(sp, p) + tail, sp.quote(p.key);
    var more := if p.val.Some? then ":" + sp.quote(p.val.value) + tail else "";
    assert s[2..] == key + more;
    TokenReads(env, sp, p.key, more);
    if p.val.Some? {
      var val := sp.quote(p.val.value);
      TokenReads(env, sp, p.val.value, tail);
      assert s[2 + |key| + 1..] == val + tail;
    }
  }

  lemma MetadataIsRead(env: Env, ss: StreamSpecifier, s: string)
    requires StartsWith(s, "m:")
    ensures ReadPart(env, ss, s) == ReadMetadata(env, s)
  {
    hide ReadMetadata, Numbered, Strtol, FlagRun, IsAlnum;
    assert s[0] == 'm' && s[1] == ':';
  }

  lemma IndexReads(env: Env, sp: Speller, ss: StreamSpecifier, p: Part, tail: string)
    requires p.Index? && Spellable(env, sp, p) && Delimited(tail)
    ensures ReadPart(env, ss, Text(sp, p) + tail) == Got(p, |Text(sp, p)|)
  {
    hide Signed, Strtol, SpellsToken;
    StrtolReads(p.idx, tail);
    SignedStart(p.idx);
  }

  lemma MediaReads(env: Env, sp: Speller, ss: StreamSpecifier, p: Part, tail: string)
    requires p.Media? && ss.mediaType.TypeUnknown? && Spellable(env, sp, p) && Delimited(tail)
    ensures ReadPart(env, ss, Text(sp, p) + tail) == Got(p, |Text(sp, p)|)
  {
    hide Numbered, Strtol, FlagRun, SpellsToken, ReadMetadata;
    assert !IsAlnum(':');
  }

  lemma UsableReads(env: Env, sp: Speller, ss: StreamSpecifier, tail: string)
    requires Delimited(tail)
    ensures ReadPart(env, ss, Text(sp, Usable) + tail) == Got(Usable, |Text(sp, Usable)|)
  {
    hide Numbered, Strtol, FlagRun, ReadMetadata;
  }

  /** Any part that ss lets be read is read from its text. */
  lemma PartReads(env: Env, sp: Speller, ss: StreamSpecifier, p: Part, tail: string)
    requires Accepts(ss, p) && Spellable(env, sp, p) && Delimited(tail)
    requires p.Metadata? && p.val.None? ==> tail == []
    ensures ReadPart(env, ss, Text(sp, p) + tail) == Got(p, |Text(sp, p)|)
  {
    hide Spellable, ReadPart, Text;
    match p {
      case Index(_) => IndexReads(env, sp, ss, p, tail);
      case Media(_) => MediaReads(env, sp, ss, p, tail);
      case GroupPart(_, _) => GroupReads(env, sp, ss, p, tail);
      case ProgramPart(_) => ProgramReads(env, sp, ss, p, tail);
      case Disposition(_) => FlagsRead(env, sp, ss, p, tail);
      case StreamIdPart(_) => StreamIdReads(env, sp, ss, p, tail);
      case Metadata(_, _) =>
        MetadataReads(env, sp, p, tail);
        MetadataIsRead(env, ss, Text(sp, p) + tail);
      case Usable => UsableReads(env, sp, ss, tail);
    }
  }

  lemma ScanStep(env: Env, ss: StreamSpecifier, text: string, tail: string, p: Part)
    requires text != [] && ReadPart(env, ss, text + tail) == Got(p, |text|)
    ensures PartOk(p)
    ensures Scan(env, ss, text + tail) ==
            if Last(p) then Ok(Scanned([p], tail))
            else
              var more := Scan(env, Apply(ss, p), SkipColon(tail));
              if more.Err? then more else Ok(Scanned([p] + more.value.parts, more.value.rest))
  {
    hide ReadPart, Apply, Last, PartOk, SkipColon;
    assert (text + tail)[|text|..] == tail;
  }

  /** What is read behind the first part: the other parts, and the same rest. */
  lemma RestOfTail(env: Env, ss: StreamSpecifier, parts: seq<Part>, rest: string)
    requires parts != [] && WellFormed(parts) && AllAccepted(ss, parts) && IsRest(env, ss, parts, rest)
    ensures WellFormed(parts[1..]) && PartOk(parts[0]) && Accepts(ss, parts[0])
    ensures parts[0].Metadata? && parts[0].val.None? ==> |parts| == 1 && rest == []
    ensures if Last(parts[0]) then parts == [parts[0]] && Unread(parts, rest) == (if rest == [] then "" else ":" + rest)
            else AllAccepted(Apply(ss, parts[0]), parts[1..]) && IsRest(env, Apply(ss, parts[0]), parts[1..], rest)
                 && Unread(parts, rest) == Unread(parts[1..], rest)
  {
    WellFormedTail(ss, parts);
    hide ReadPart, Apply, Accepts, Compatible, WellFormed;
    if |parts| > 1 {
      assert parts[1..][|parts| - 2] == parts[|parts| - 1];
    }
  }

  /** What is printed behind the first part. */
  function Behind(sp: Speller, parts: seq<Part>, rest: string): string
    requires parts != []
  {
    if |parts| == 1 && rest == [] then "" else ":" + Print(sp, parts[1..], rest)
  }

  lemma PrintSplits(sp: Speller, parts: seq<Part>, rest: string)
    requires parts != []
    ensures var tail := Behind(sp, parts, rest);
            && Print(sp, parts, rest) == Text(sp, parts[0]) + tail && Delimited(tail)
            && SkipColon(tail) == Print(sp, parts[1..], rest)
            && (|parts| == 1 ==> tail == (if rest == [] then "" else ":" + rest))
  {
    hide Text;
  }

  lemma {:induction false} ScanReadsBack(env: Env, sp: Speller, ss: StreamSpecifier, parts: seq<Part>, rest: string)
    requires WellFormed(parts) && AllAccepted(ss, parts) && IsRest(env, ss, parts, rest)
    requires forall i | 0 <= i < |parts| :: Spellable(env, sp, parts[i])
    ensures Scan(env, ss, Print(sp, parts, rest)) == Ok(Scanned(parts, Unread(parts, rest)))
    decreases |parts|
  {
    if parts == [] {
      hide ReadPart;
    } else {
      hide ReadPart, Text, Spellable, AllAccepted, IsRest, Unread, Apply, Accepts, WellFormed, Scan, Last, Print, Behind, SkipColon, Delimited;
      var p, more := parts[0], parts[1..];
      RestOfTail(env, ss, parts, rest);
      PrintSplits(sp, parts, rest);
      TextIsNotEmpty(env, sp, p);
      PartReads(env, sp, ss, p, Behind(sp, parts, rest));
      ScanStep(env, ss, Text(sp, p), Behind(sp, parts, rest), p);
      if !Last(p) {
        assert forall k | 0 <= k < |more| :: more[k] == parts[k + 1];
        ScanReadsBack(env, sp, Apply(ss, p), more, rest);
        assert parts == [p] + more;
      }
    }
  }

  lemma TextIsNotEmpty(env: Env, sp: Speller, p: Part)
    requires Spellable(env, sp, p)
    ensures Text(sp, p) != []
  {
    hide SpellsToken, SpellsFlags;
  }

  /**
   Every well-formed list of parts has a spelling, and the parser reads back what it means. What
   is written behind it becomes the remainder, or is refused where none is allowed.
   */
  lemma ParseReadsBack(env: Env, sp: Speller, parts: seq<Part>, rest: string, allowRemainder: bool)
    requires WellFormed(parts) && forall i | 0 <= i < |parts| :: Spellable(env, sp, parts[i])
    requires IsRest(env, BLANK, parts, rest)
    ensures var remainder := if EndsInLast(parts) then rest else SkipColon(rest);
            ParseFrom(env, BLANK, Print(sp, parts, rest), allowRemainder) ==
              if rest == [] then Ok(Meaning(BLANK, parts))
              else if !allowRemainder then Err(TrailingGarbage)
              else Ok(Meaning(BLANK, parts).(remainder := Some(remainder)))
    ensures Represents(Meaning(BLANK, parts), parts)
  {
    hide Scan, Print, Spellable, Compatible, Represents, IsRest;
    assert AllAccepted(BLANK, parts);
    ScanReadsBack(env, sp, BLANK, parts, rest);
    MeaningRepresents(parts);
    assert rest != [] ==> SkipColon(":" + rest) == rest;
  }

  /** A stream index is read as a long and kept as an int: exactly those below 2^31 survive. */
  lemma IndexSurvivesIff(env: Env, n: nat)
    ensures ParseFrom(env, BLANK, Decimal(n), false) == Ok(BLANK.(idx := n)) <==> n < 0x8000_0000
  {
    hide Decimal, Strtol;
    var s := Decimal(n);
    StrtolReads(n, "");
    SignedStart(n);
    assert s + "" == s && s[|s|..] == "";
    assert '0' <= s[0] <= '9';
    var p := Index(ToInt32(Saturated(n)));
    assert ReadPart(env, BLANK, s) == Got(p, |s|);
    hide ReadPart;
    assert Scan(env, BLANK, s) == Ok(Scanned([p], ""));
    assert Meaning(BLANK, [p]) == Apply(BLANK, p);
  }
}
