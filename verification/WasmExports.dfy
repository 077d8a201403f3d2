/**
 read_uleb and wasm_exports of scripts/verify-binary-exports.py: reading the export names of a
 WebAssembly module. The reader is compared with the encoder of the binary format (sections
 5.2.2, 5.5.2 and 5.5.10 of the WebAssembly Core Specification), integers padded at will.
 */
module WasmExports {
  import opened Common
  import Utf8Log

  datatype Error =
    | NotAModule | MalformedLeb | TruncatedSection | TruncatedExport
    | BadName | InvalidKind(kind: Byte) | MalformedExportSection | NoExports

  lemma {:induction false} Pow2Seven(n: nat)
    ensures Pow2(n + 7) == 128 * Pow2(n)
  {
    assert Pow2(n + 7) == 2 * Pow2(n + 6) && Pow2(n + 6) == 2 * Pow2(n + 5) && Pow2(n + 5) == 2 * Pow2(n + 4);
    assert Pow2(n + 4) == 2 * Pow2(n + 3) && Pow2(n + 3) == 2 * Pow2(n + 2) && Pow2(n + 2) == 2 * Pow2(n + 1);
  }

  // ---- The binary format --------------------------------------------------------------------------

  /** An unsigned integer and the number of bytes it is written in. */
  datatype Num = Num(value: nat, width: nat)

  /** read_uleb reads at most six bytes. */
  predicate NumOk(n: Num) {
    1 <= n.width <= 6 && n.value < Pow2(7 * n.width)
  }

  function Uleb(n: Num): (r: seq<Byte>)
    requires n.width >= 1
    ensures |r| == n.width
    decreases n.width
  {
    if n.width == 1 then
      var b: Byte := n.value % 128; [b]
    else
      var b: Byte := n.value % 128 + 128; [b] + Uleb(Num(n.value / 128, n.width - 1))
  }

  /** The shortest encoding, as the specification's grammar allows but does not require. */
  function Canonical(n: nat): (r: Num)
    ensures r.value == n && r.width >= 1 && n < Pow2(7 * r.width)
    ensures r.width > 1 ==> n >= Pow2(7 * (r.width - 1))
  {
    if n < 128 then
      assert Pow2(7) == 128 by { Pow2Seven(0); }
      Num(n, 1)
    else
      var w := Canonical(n / 128).width;
      Pow2Seven(7 * w);
      assert w > 1 ==> Pow2(7 * w) == 128 * Pow2(7 * (w - 1)) by { if w > 1 { Pow2Seven(7 * (w - 1)); } }
      assert w == 1 ==> Pow2(7 * w) == 128 by { Pow2Seven(0); }
      Num(n, w + 1)
  }

  datatype Export = Export(length: Num, name: seq<Byte>, kind: Byte, index: Num)

  datatype Section =
    | Other(id: Byte, size: Num, body: seq<Byte>)
    | Exports(size: Num, count: Num, exports: seq<Export>)

  ghost predicate ExportOk(e: Export) {
    NumOk(e.length) && e.length.value == |e.name| && ValidUtf8(e.name) && e.kind <= 4 && NumOk(e.index)
  }

  ghost predicate ValidUtf8(s: seq<Byte>) {
    Utf8Log.WellFormed(s)
  }

  function ExportBytes(e: Export): seq<Byte>
    requires e.length.width >= 1 && e.index.width >= 1
  {
    Uleb(e.length) + (e.name + ([e.kind] + Uleb(e.index)))
  }

  ghost predicate ExportsOk(es: seq<Export>) {
    forall i | 0 <= i < |es| :: ExportOk(es[i])
  }

  ghost function ExportsBytes(es: seq<Export>): seq<Byte>
    requires ExportsOk(es)
  {
    if es == [] then []
    else
      assert ExportOk(es[0]) && forall i | 0 <= i < |es[1..]| :: es[1..][i] == es[i + 1];
      ExportBytes(es[0]) + ExportsBytes(es[1..])
  }

  ghost predicate SectionOk(s: Section) {
    NumOk(s.size) &&
    match s
    case Other(id, size, body) => id != 7 && size.value == |body|
    case Exports(size, count, exports) =>
      NumOk(count) && count.value == |exports| && ExportsOk(exports)
      && size.value == |Uleb(count) + ExportsBytes(exports)|
  }

  ghost function SectionBytes(s: Section): (r: seq<Byte>)
    requires SectionOk(s)
    ensures |r| > 1
  {
    match s
    case Other(id, size, body) => [id] + (Uleb(size) + body)
    case Exports(size, count, exports) => [7] + (Uleb(size) + (Uleb(count) + ExportsBytes(exports)))
  }

  ghost predicate ModuleOk(m: seq<Section>) {
    forall i | 0 <= i < |m| :: SectionOk(m[i])
  }

  ghost function ModuleBytes(m: seq<Section>): seq<Byte>
    requires ModuleOk(m)
  {
    if m == [] then []
    else
      assert SectionOk(m[0]) && forall i | 0 <= i < |m[1..]| :: m[1..][i] == m[i + 1];
      SectionBytes(m[0]) + ModuleBytes(m[1..])
  }

  const HEADER: seq<Byte> := [0, 0x61, 0x73, 0x6D, 1, 0, 0, 0]

  function ExportNames(es: seq<Export>): seq<seq<Byte>> {
    if es == [] then [] else [es[0].name] + ExportNames(es[1..])
  }

  function Names(m: seq<Section>): seq<seq<Byte>> {
    if m == [] then []
    else (if m[0].Exports? then ExportNames(m[0].exports) else []) + Names(m[1..])
  }

  // ---- The reader -----------------------------------------------------------------------------------

  /** The bytes of `b` are those of data at `at`. */
  predicate At(data: seq<Byte>, at: nat, b: seq<Byte>) {
    at + |b| <= |data| && data[at..at + |b|] == b
  }

  lemma AtSplit(data: seq<Byte>, at: nat, a: seq<Byte>, b: seq<Byte>)
    ensures At(data, at, a + b) <==> At(data, at, a) && At(data, at + |a|, b)
  {
    if at + |a| + |b| <= |data| {
      var d := data[at..at + |a| + |b|];
      assert d[..|a|] == data[at..at + |a|] && d[|a|..] == data[at + |a|..at + |a| + |b|];
      assert d == d[..|a|] + d[|a|..];
      assert (a + b)[..|a|] == a && (a + b)[|a|..] == b;
    }
  }

  /** What is left to read of an integer whose first `taken` bytes have been read. */
  function ReadRest(data: seq<Byte>, offset: nat, taken: nat): (r: Result<Num, Error>)
    ensures r.Ok? ==> r.value.width >= 1 && offset + r.value.width <= |data|
    decreases |data| - offset
  {
    if offset >= |data| || taken > 5 then Err(MalformedLeb)
    else if data[offset] < 128 then Ok(Num(data[offset], 1))
    else
      var r := ReadRest(data, offset + 1, taken + 1);
      if r.Err? then r
      else Ok(Num(data[offset] - 128 + 128 * r.value.value, r.value.width + 1))
  }

  /** x << shift */
  function Shifted(x: nat, shift: nat): nat {
    x * Pow2(shift)
  }

  /** The whole integer, when `taken` bytes have given `result` and `rest` is what the others give. */
  function Combined(result: nat, taken: nat, rest: Result<Num, Error>): Result<Num, Error> {
    if rest.Err? then rest
    else Ok(Num(result + Shifted(rest.value.value, 7 * taken), taken + rest.value.width))
  }

  lemma CombinedStep(data: seq<Byte>, offset: nat, taken: nat, result: nat)
    requires offset < |data| && taken <= 5 && data[offset] >= 128
    ensures Combined(result, taken, ReadRest(data, offset, taken)) ==
            Combined(result + Shifted(data[offset] % 128, 7 * taken), taken + 1, ReadRest(data, offset + 1, taken + 1))
  {
    Pow2Seven(7 * taken);
    hide Pow2;
    var p := Pow2(7 * taken);
    var rest := ReadRest(data, offset + 1, taken + 1);
    if rest.Ok? {
      SevenBits(data[offset] - 128, rest.value.value, p);
      assert data[offset] % 128 == data[offset] - 128;
    }
  }

  lemma SevenBits(low: nat, high: nat, p: nat)
    ensures (low + 128 * high) * p == low * p + high * (128 * p)
  {
  }

  /** Where the loop of read_uleb ends. */
  lemma LastByte(data: seq<Byte>, offset: nat, taken: nat, result: nat)
    ensures var whole := Combined(result, taken, ReadRest(data, offset, taken));
            if offset >= |data| || taken > 5 then whole == Err(MalformedLeb)
            else data[offset] < 128 ==> whole == Ok(Num(result + Shifted(data[offset] % 128, 7 * taken), taken + 1))
  {
  }

  lemma ShiftedStaysBelow(result: nat, x: nat, shift: nat)
    requires result < Pow2(shift) && x < 128
    ensures result + Shifted(x, shift) < Pow2(shift + 7)
  {
    Pow2Seven(shift);
    hide Pow2;
    var p := Pow2(shift);
    assert x * p <= 127 * p;
  }

  method ReadUleb(data: seq<Byte>, start: nat) returns (r: Result<(nat, nat), Error>)
    ensures var spec := ReadRest(data, start, 0);
            r == if spec.Err? then Err(spec.error) else Ok((spec.value.value, start + spec.value.width))
  {
    ghost var spec := ReadRest(data, start, 0);
    var result: nat, shift: nat, offset: nat := 0, 0, start;
    ghost var taken: nat := 0;
    assert Combined(0, 0, spec) == spec && Pow2(0) == 1;
    hide Pow2, ReadRest, Shifted, Combined;
    while true
      invariant offset == start + taken && shift == 7 * taken && taken <= 6
      invariant spec == Combined(result, taken, ReadRest(data, offset, taken))
      invariant result < Pow2(shift) // so the bitwise or of the original is a sum
      decreases 7 - taken
    {
      LastByte(data, offset, taken, result);
      if offset >= |data| || shift > 35 {
        return Err(MalformedLeb);
      }
      var byte := data[offset];
      if byte >= 128 {
        CombinedStep(data, offset, taken, result);
      }
      ShiftedStaysBelow(result, byte % 128, shift);
      offset := offset + 1;
      result := result + Shifted(byte % 128, shift);
      if byte < 128 {
        return Ok((result, offset));
      }
      shift := shift + 7;
      taken := taken + 1;
    }
  }

  /** One entry of the export section; `end` is the end of the section. */
  function ReadExport(data: seq<Byte>, at: nat, end: nat): (r: Result<Export, Error>)
    requires end <= |data|
    ensures r.Ok? ==> r.value.length.width >= 1 && r.value.index.width >= 1 && At(data, at + r.value.length.width, r.value.name)
  {
    var length := ReadRest(data, at, 0);
    if length.Err? then Err(length.error)
    else
      var p := at + length.value.width;
      if p + length.value.value + 1 > end then Err(TruncatedExport)
      else
        var name := data[p..p + length.value.value];
        if Utf8Log.Sanitize(name) != name then Err(BadName)
        else
          var q := p + length.value.value;
          var index := ReadRest(data, q + 1, 0);
          if index.Err? then Err(index.error)
          else if data[q] > 4 then Err(InvalidKind(data[q]))
          else Ok(Export(length.value, name, data[q], index.value))
  }

  function ReadExports(data: seq<Byte>, at: nat, end: nat, count: nat): (r: Result<(seq<Export>, nat), Error>)
    requires end <= |data|
    ensures r.Ok? ==> r.value.1 >= at && |r.value.0| == count
    decreases count
  {
    if count == 0 then Ok(([], at))
    else
      var e := ReadExport(data, at, end);
      if e.Err? then Err(e.error)
      else
        var rest := ReadExports(data, at + |ExportBytes(e.value)|, end, count - 1);
        if rest.Err? then Err(rest.error) else Ok(([e.value] + rest.value.0, rest.value.1))
  }

  function ReadSection(data: seq<Byte>, at: nat): (r: Result<(Section, nat), Error>)
    requires at < |data|
    ensures r.Ok? ==> at < r.value.1 <= |data|
  {
    var size := ReadRest(data, at + 1, 0);
    if size.Err? then Err(size.error)
    else
      var p := at + 1 + size.value.width;
      var end := p + size.value.value;
      if end > |data| then Err(TruncatedSection)
      else if data[at] == 7 then
        var count := ReadRest(data, p, 0);
        if count.Err? then Err(count.error)
        else
          var es := ReadExports(data, p + count.value.width, end, count.value.value);
          if es.Err? then Err(es.error)
          else if es.value.1 != end then Err(MalformedExportSection)
          else Ok((Exports(size.value, count.value, es.value.0), end))
      else Ok((Other(data[at], size.value, data[p..end]), end))
  }

  function ReadSections(data: seq<Byte>, at: nat): Result<seq<Section>, Error>
    decreases |data| - at
  {
    if at >= |data| then Ok([])
    else
      var s := ReadSection(data, at);
      if s.Err? then Err(s.error)
      else
        var rest := ReadSections(data, s.value.1);
        if rest.Err? then rest else Ok([s.value.0] + rest.value)
  }

  function ReadModule(data: seq<Byte>): Result<seq<Section>, Error> {
    if !At(data, 0, HEADER) then Err(NotAModule) else ReadSections(data, 8)
  }

  /** One turn of the loop over the entries of the export section. */
  method ReadEntry(data: seq<Byte>, start: nat, end: nat) returns (r: Result<(seq<Byte>, nat), Error>)
    requires end <= |data|
    ensures var spec := ReadExport(data, start, end);
            r == if spec.Err? then Err(spec.error) else Ok((spec.value.name, start + |ExportBytes(spec.value)|))
  {
    hide Utf8Log.Sanitize, Uleb, ReadRest;
    var length := ReadUleb(data, start);
    if length.Err? {
      return Err(length.error);
    }
    var position := length.value.1;
    if position + length.value.0 + 1 > end {
      return Err(TruncatedExport);
    }
    var name := data[position..position + length.value.0];
    if Utf8Log.Sanitize(name) != name {
      return Err(BadName);
    }
    position := position + length.value.0;
    var kind := data[position];
    var index := ReadUleb(data, position + 1);
    if index.Err? {
      return Err(index.error);
    }
    position := index.value.1;
    if kind > 4 {
      return Err(InvalidKind(kind));
    }
    r := Ok((name, position));
  }

  /** The loop itself. */
  method ReadNames(data: seq<Byte>, start: nat, end: nat, count: nat) returns (r: Result<(seq<seq<Byte>>, nat), Error>)
    requires end <= |data|
    ensures var spec := ReadExports(data, start, end, count);
            r == if spec.Err? then Err(spec.error) else Ok((ExportNames(spec.value.0), spec.value.1))
  {
    hide ReadExport, ExportBytes, At;
    ghost var spec := ReadExports(data, start, end, count);
    var names: seq<seq<Byte>>, position: nat, done: nat := [], start, 0;
    while done < count
      invariant done <= count
      invariant var rest := ReadExports(data, position, end, count - done);
                if spec.Err? then rest == Err(spec.error)
                else rest.Ok? && names + ExportNames(rest.value.0) == ExportNames(spec.value.0) && rest.value.1 == spec.value.1
    {
      ghost var at := position;
      ghost var rest := ReadExports(data, at, end, count - done);
      var entry := ReadEntry(data, position, end);
      if entry.Err? {
        return Err(entry.error);
      }
      position := entry.value.1;
      ghost var more := ReadExports(data, position, end, count - done - 1);
      if rest.Ok? {
        assert rest.value.0[1..] == more.value.0;
        ConcatAssociates(names, [entry.value.0], ExportNames(more.value.0));
      }
      names := names + [entry.value.0];
      done := done + 1;
    }
    r := Ok((names, position));
    assert names + [] == names;
  }

  /** One turn of the loop over the sections. */
  method ReadSectionNames(data: seq<Byte>, start: nat) returns (r: Result<(seq<seq<Byte>>, nat), Error>)
    requires start < |data|
    ensures var spec := ReadSection(data, start);
            r == if spec.Err? then Err(spec.error)
                 else Ok((if spec.value.0.Exports? then ExportNames(spec.value.0.exports) else [], spec.value.1))
  {
    hide ReadRest, ReadExports;
    var section := data[start];
    var size := ReadUleb(data, start + 1);
    if size.Err? {
      return Err(size.error);
    }
    var position := size.value.1;
    var end := position + size.value.0;
    if end > |data| {
      return Err(TruncatedSection);
    }
    var names: seq<seq<Byte>> := [];
    if section == 7 {
      var count := ReadUleb(data, position);
      if count.Err? {
        return Err(count.error);
      }
      var entries := ReadNames(data, count.value.1, end, count.value.0);
      if entries.Err? {
        return Err(entries.error);
      }
      names, position := entries.value.0, entries.value.1;
      if position != end {
        return Err(MalformedExportSection);
      }
    }
    r := Ok((names, end));
  }

  /** Elements of a sequence, as Python's set(). */
  ghost function SetOf(s: seq<seq<Byte>>): set<seq<Byte>> {
    set x | x in s
  }

  method ReadExportNames(data: seq<Byte>) returns (r: Result<set<seq<Byte>>, Error>)
    ensures var spec := ReadModule(data);
            r == if spec.Err? then Err(spec.error)
                 else if Names(spec.value) == [] then Err(NoExports)
                 else Ok(SetOf(Names(spec.value)))
  {
    hide ReadSection;
    if |data| < 8 || data[..8] != HEADER {
      return Err(NotAModule);
    }
    ghost var spec := ReadSections(data, 8);
    assert ReadModule(data) == spec;
    var position := 8;
    var exports: seq<seq<Byte>> := [];
    while position < |data|
      invariant 8 <= position <= |data|
      invariant var rest := ReadSections(data, position);
                if spec.Err? then rest == Err(spec.error)
                else rest.Ok? && exports + Names(rest.value) == Names(spec.value)
      decreases |data| - position
    {
      ghost var rest := ReadSections(data, position);
      var names := ReadSectionNames(data, position);
      if names.Err? {
        return Err(names.error);
      }
      position := names.value.1;
      ghost var more := ReadSections(data, position);
      if rest.Ok? {
        assert rest.value[1..] == more.value;
        ConcatAssociates(exports, names.value.0, Names(more.value));
      }
      exports := exports + names.value.0;
    }
    assert exports + [] == exports;
    if exports == [] {
      return Err(NoExports);
    }
    r := Ok(set x | x in exports);
  }

  // ---- read_uleb inverts the encoding ------------------------------------------------------------------

  lemma {:induction false} ReadUndoesUleb(data: seq<Byte>, at: nat, taken: nat, n: Num)
    requires 1 <= n.width <= 6 - taken && n.value < Pow2(7 * n.width) && At(data, at, Uleb(n))
    ensures ReadRest(data, at, taken) == Ok(n)
    decreases n.width
  {
    var b := Uleb(n);
    assert data[at] == b[0];
    if n.width == 1 {
      assert Pow2(7) == 128 by { Pow2Seven(0); }
    } else {
      hide At, Pow2;
      var m := Num(n.value / 128, n.width - 1);
      Pow2Seven(7 * m.width);
      AtSplit(data, at, [b[0]], Uleb(m));
      ReadUndoesUleb(data, at + 1, taken + 1, m);
    }
  }

  lemma {:induction false} UlebUndoesRead(data: seq<Byte>, at: nat, taken: nat)
    requires taken <= 6 && ReadRest(data, at, taken).Ok?
    ensures var n := ReadRest(data, at, taken).value;
            n.width <= 6 - taken && n.value < Pow2(7 * n.width) && At(data, at, Uleb(n))
    decreases |data| - at
  {
    hide At, Uleb, Pow2;
    var n := ReadRest(data, at, taken).value;
    ByteAt(data, at, data[at]);
    if data[at] < 128 {
      UlebOfByte(data[at]);
    } else {
      UlebUndoesRead(data, at + 1, taken + 1);
      var m := ReadRest(data, at + 1, taken + 1).value;
      assert n == Num(data[at] - 128 + 128 * m.value, m.width + 1);
      hide ReadRest;
      Pow2Seven(7 * m.width);
      UlebCons(data[at], m);
      AtSplit(data, at, [data[at]], Uleb(m));
    }
  }

  lemma UlebOfByte(b: Byte)
    requires b < 128
    ensures Uleb(Num(b, 1)) == [b] && b < Pow2(7)
  {
    Pow2Seven(0);
  }

  lemma UlebCons(b: Byte, m: Num)
    requires b >= 128 && m.width >= 1
    ensures Uleb(Num(b - 128 + 128 * m.value, m.width + 1)) == [b] + Uleb(m)
  {
    var v := b - 128 + 128 * m.value;
    assert v / 128 == m.value && v % 128 + 128 == b;
  }

  /** read_uleb succeeds exactly where an integer of at most six bytes is written, and reads that one. */
  lemma ReadUlebIff(data: seq<Byte>, at: nat, n: Num)
    requires n.width >= 1
    ensures ReadRest(data, at, 0) == Ok(n) <==> NumOk(n) && At(data, at, Uleb(n))
  {
    if ReadRest(data, at, 0) == Ok(n) {
      UlebUndoesRead(data, at, 0);
    }
    if NumOk(n) && At(data, at, Uleb(n)) {
      ReadUndoesUleb(data, at, 0, n);
    }
  }

  lemma {:induction false} Pow2Grows(a: nat, b: nat)
    requires a <= b
    ensures Pow2(a) <= Pow2(b)
    decreases b - a
  {
    if a < b {
      Pow2Grows(a, b - 1);
    }
  }

  /** The shortest encoding of a value is read back, up to its exact end, exactly when it is below 2^42. */
  lemma CanonicalReadIff(n: nat, before: seq<Byte>, after: seq<Byte>)
    ensures var c := Canonical(n);
            ReadRest(before + Uleb(c) + after, |before|, 0) == Ok(c) <==> n < Pow2(42)
  {
    hide Pow2, ReadRest, Uleb, Canonical;
    var c := Canonical(n);
    var data := before + Uleb(c) + after;
    assert data[|before|..|before| + |Uleb(c)|] == Uleb(c);
    ReadUlebIff(data, |before|, c);
    if c.width <= 6 {
      Pow2Grows(7 * c.width, 42);
    } else {
      Pow2Grows(42, 7 * (c.width - 1));
    }
  }

  // ---- wasm_exports inverts the encoding ---------------------------------------------------------------

  lemma ByteAt(data: seq<Byte>, at: nat, b: Byte)
    ensures At(data, at, [b]) <==> at < |data| && data[at] == b
  {
    if at < |data| {
      assert data[at..at + 1] == [data[at]];
    }
  }

  /** The four parts of an entry, each where it belongs. */
  ghost predicate ExportParts(data: seq<Byte>, at: nat, e: Export)
    requires e.length.width >= 1 && e.index.width >= 1
  {
    var p := at + e.length.width;
    var q := p + |e.name|;
    At(data, at, Uleb(e.length)) && At(data, p, e.name) && At(data, q, [e.kind]) && At(data, q + 1, Uleb(e.index))
  }

  lemma ExportSplit(data: seq<Byte>, at: nat, e: Export)
    requires e.length.width >= 1 && e.index.width >= 1
    ensures At(data, at, ExportBytes(e)) <==> ExportParts(data, at, e)
  {
    hide At, Uleb;
    var p := at + e.length.width;
    AtSplit(data, at, Uleb(e.length), e.name + ([e.kind] + Uleb(e.index)));
    AtSplit(data, p, e.name, [e.kind] + Uleb(e.index));
    AtSplit(data, p + |e.name|, [e.kind], Uleb(e.index));
  }

  lemma ReadExportComplete(data: seq<Byte>, at: nat, end: nat, e: Export)
    requires end <= |data| && ExportOk(e) && ExportParts(data, at, e) && at + e.length.width + |e.name| + 1 <= end
    ensures ReadExport(data, at, end) == Ok(e)
  {
    hide Utf8Log.Sanitize, Utf8Log.EncodeAll, ReadRest, Uleb, Pow2;
    var p := at + e.length.width;
    var q := p + |e.name|;
    assert ReadRest(data, at, 0) == Ok(e.length) by { ReadUlebIff(data, at, e.length); }
    assert ReadRest(data, q + 1, 0) == Ok(e.index) by { ReadUlebIff(data, q + 1, e.index); }
    assert data[q] == e.kind by { ByteAt(data, q, e.kind); }
    assert Utf8Log.Sanitize(e.name) == e.name by { Utf8Log.IdentityIffWellFormed(e.name); }
    assert data[p..q] == e.name;
  }

  lemma ReadExportSound(data: seq<Byte>, at: nat, end: nat)
    requires end <= |data| && ReadExport(data, at, end).Ok?
    ensures var e := ReadExport(data, at, end).value;
            ExportOk(e) && ExportParts(data, at, e)
  {
    hide Utf8Log.Sanitize, Utf8Log.EncodeAll, ReadRest, Uleb, Pow2;
    var e := ReadExport(data, at, end).value;
    var p := at + e.length.width;
    var q := p + |e.name|;
    assert ReadRest(data, at, 0) == Ok(e.length) && ReadRest(data, q + 1, 0) == Ok(e.index);
    assert NumOk(e.length) && At(data, at, Uleb(e.length)) by { ReadUlebIff(data, at, e.length); }
    assert NumOk(e.index) && At(data, q + 1, Uleb(e.index)) by { ReadUlebIff(data, q + 1, e.index); }
    assert At(data, q, [e.kind]) by { ByteAt(data, q, e.kind); }
    assert ValidUtf8(e.name) by { Utf8Log.IdentityIffWellFormed(e.name); }
  }

  lemma ExportSize(e: Export)
    requires e.length.width >= 1 && e.index.width >= 1
    ensures |ExportBytes(e)| == e.length.width + |e.name| + 1 + e.index.width
  {
  }

  lemma AtBound(data: seq<Byte>, at: nat, b: seq<Byte>)
    requires At(data, at, b)
    ensures at + |b| <= |data|
  {
  }

  lemma {:induction false} ReadExportsComplete(data: seq<Byte>, at: nat, end: nat, es: seq<Export>)
    requires ExportsOk(es) && At(data, at, ExportsBytes(es)) && at + |ExportsBytes(es)| == end <= |data|
    ensures ReadExports(data, at, end, |es|) == Ok((es, end))
    decreases |es|
  {
    hide At, ExportBytes, ReadExport, NumOk, ValidUtf8;
    if es != [] {
      var e := es[0];
      assert ExportOk(e) && ExportsOk(es[1..]);
      WidthOk(e);
      AtSplit(data, at, ExportBytes(e), ExportsBytes(es[1..]));
      ExportSplit(data, at, e);
      ExportSize(e);
      ReadExportComplete(data, at, end, e);
      ReadExportsComplete(data, at + |ExportBytes(e)|, end, es[1..]);
      assert [e] + es[1..] == es;
    }
  }

  lemma WidthOk(e: Export)
    requires ExportOk(e)
    ensures e.length.width >= 1 && e.index.width >= 1
  {
  }

  lemma {:induction false} ReadExportsSound(data: seq<Byte>, at: nat, end: nat, count: nat)
    requires end <= |data| && at <= |data| && ReadExports(data, at, end, count).Ok?
    ensures var (es, last) := ReadExports(data, at, end, count).value;
            ExportsOk(es) && last == at + |ExportsBytes(es)| && At(data, at, ExportsBytes(es))
    decreases count
  {
    hide At, ExportBytes, ReadExport, ExportOk;
    if count == 0 {
      NothingAt(data, at);
    } else {
      var e := ReadExport(data, at, end).value;
      ReadExportSound(data, at, end);
      WidthOk(e);
      ExportSplit(data, at, e);
      AtBound(data, at, ExportBytes(e));
      var next := at + |ExportBytes(e)|;
      ReadExportsSound(data, next, end, count - 1);
      var rest := ReadExports(data, next, end, count - 1).value.0;
      assert ([e] + rest)[1..] == rest;
      AtSplit(data, at, ExportBytes(e), ExportsBytes(rest));
    }
  }

  lemma NothingAt(data: seq<Byte>, at: nat)
    requires at <= |data|
    ensures At(data, at, [])
  {
  }

  lemma OtherSectionIff(data: seq<Byte>, at: nat, s: Section)
    requires s.Other? && s.size.width >= 1 && at < |data|
    ensures ReadSection(data, at) == Ok((s, at + 1 + s.size.width + |s.body|)) <==>
            SectionOk(s) && At(data, at, [s.id] + (Uleb(s.size) + s.body))
  {
    hide ReadRest, Uleb, ReadExports;
    var p := at + 1 + s.size.width;
    AtSplit(data, at, [s.id], Uleb(s.size) + s.body);
    AtSplit(data, at + 1, Uleb(s.size), s.body);
    ByteAt(data, at, s.id);
    ReadUlebIff(data, at + 1, s.size);
  }

  lemma ExportsSectionComplete(data: seq<Byte>, at: nat, s: Section)
    requires s.Exports? && SectionOk(s) && At(data, at, SectionBytes(s))
    ensures at < |data| && ReadSection(data, at) == Ok((s, at + |SectionBytes(s)|))
  {
    hide At, ReadRest, Uleb, ReadExports, ExportsBytes, NumOk;
    SectionWidths(s);
    var entries := ExportsBytes(s.exports);
    var p := at + 1 + s.size.width;
    AtSplit(data, at, [7], Uleb(s.size) + (Uleb(s.count) + entries));
    AtSplit(data, at + 1, Uleb(s.size), Uleb(s.count) + entries);
    AtSplit(data, p, Uleb(s.count), entries);
    AtBound(data, p, Uleb(s.count) + entries);
    ByteAt(data, at, 7);
    ReadUlebIff(data, at + 1, s.size);
    ReadUlebIff(data, p, s.count);
    ReadExportsComplete(data, p + s.count.width, p + s.count.width + |entries|, s.exports);
  }

  lemma SectionWidths(s: Section)
    requires SectionOk(s)
    ensures s.size.width >= 1 && (s.Exports? ==> s.count.width >= 1)
  {
  }

  lemma ExportsSectionSound(data: seq<Byte>, at: nat)
    requires at < |data| && ReadSection(data, at).Ok? && ReadSection(data, at).value.0.Exports?
    ensures var (s, end) := ReadSection(data, at).value;
            SectionOk(s) && At(data, at, SectionBytes(s)) && end == at + |SectionBytes(s)|
  {
    hide At, ReadRest, Uleb, ReadExports, ExportsBytes, ExportsOk;
    var (s, end) := ReadSection(data, at).value;
    var p := at + 1 + s.size.width;
    ReadUlebIff(data, at + 1, s.size);
    ReadUlebIff(data, p, s.count);
    ReadExportsSound(data, p + s.count.width, end, s.count.value);
    var entries := ExportsBytes(s.exports);
    AtSplit(data, p, Uleb(s.count), entries);
    AtSplit(data, at + 1, Uleb(s.size), Uleb(s.count) + entries);
    ByteAt(data, at, 7);
    AtSplit(data, at, [7], Uleb(s.size) + (Uleb(s.count) + entries));
  }

  lemma ReadSectionComplete(data: seq<Byte>, at: nat, s: Section)
    requires SectionOk(s) && At(data, at, SectionBytes(s))
    ensures at < |data| && ReadSection(data, at) == Ok((s, at + |SectionBytes(s)|))
  {
    hide ReadSection, Uleb, ExportsBytes;
    if s.Exports? {
      ExportsSectionComplete(data, at, s);
    } else {
      OtherSectionIff(data, at, s);
    }
  }

  lemma ReadSectionSound(data: seq<Byte>, at: nat)
    requires at < |data| && ReadSection(data, at).Ok?
    ensures var (s, end) := ReadSection(data, at).value;
            SectionOk(s) && At(data, at, SectionBytes(s)) && end == at + |SectionBytes(s)|
  {
    hide ReadRest, ReadExports, Uleb, ExportsBytes, At;
    var (s, end) := ReadSection(data, at).value;
    if s.Exports? {
      ExportsSectionSound(data, at);
    } else {
      OtherSectionIff(data, at, s);
    }
  }

  lemma {:induction false} ReadSectionsComplete(data: seq<Byte>, at: nat, m: seq<Section>)
    requires ModuleOk(m) && At(data, at, ModuleBytes(m)) && at + |ModuleBytes(m)| == |data|
    ensures ReadSections(data, at) == Ok(m)
    decreases |m|
  {
    hide At, SectionBytes, SectionOk, ReadSection;
    if m != [] {
      assert SectionOk(m[0]) && ModuleOk(m[1..]);
      AtSplit(data, at, SectionBytes(m[0]), ModuleBytes(m[1..]));
      ReadSectionComplete(data, at, m[0]);
      ReadSectionsComplete(data, at + |SectionBytes(m[0])|, m[1..]);
      assert [m[0]] + m[1..] == m;
    }
  }

  lemma {:induction false} ReadSectionsSound(data: seq<Byte>, at: nat)
    requires at <= |data| && ReadSections(data, at).Ok?
    ensures var m := ReadSections(data, at).value;
            ModuleOk(m) && At(data, at, ModuleBytes(m)) && at + |ModuleBytes(m)| == |data|
    decreases |data| - at
  {
    hide At, SectionBytes, SectionOk, ReadSection;
    if at == |data| {
      NothingAt(data, at);
    } else {
      ReadSectionSound(data, at);
      var (s, end) := ReadSection(data, at).value;
      ReadSectionsSound(data, end);
      var rest := ReadSections(data, end).value;
      assert ([s] + rest)[1..] == rest;
      AtSplit(data, at, SectionBytes(s), ModuleBytes(rest));
    }
  }

  /** The reader accepts exactly the encoded modules, and finds the module that was encoded. */
  lemma ReadModuleIff(data: seq<Byte>, m: seq<Section>)
    ensures ReadModule(data) == Ok(m) <==> ModuleOk(m) && data == HEADER + ModuleBytes(m)
  {
    hide ReadSections, ModuleBytes, ModuleOk;
    if ReadModule(data) == Ok(m) {
      ReadSectionsSound(data, 8);
      assert data == data[..8] + data[8..];
    }
    if ModuleOk(m) && data == HEADER + ModuleBytes(m) {
      assert At(data, 0, HEADER) && At(data, 8, ModuleBytes(m));
      ReadSectionsComplete(data, 8, m);
    }
  }
}
