/**
 parseArguments and argumentsToString of FFmpegKitConfig.cpp: a command line split into
 arguments, and arguments printed as a command line.
 */
module Arguments {
  import opened Common

  datatype Quote = Unquoted | Single | Double

  /** A backslash before `next` is an escape. */
  predicate Escapes(quote: Quote, next: char) {
    next == '"' || (quote.Unquoted? && (next == '\'' || IsSpace(next)))
  }

  /** The arguments still to come, given the rest of the command and the state of the scan. */
  function Scan(rest: string, quote: Quote, started: bool, current: string): seq<string>
    decreases |rest|
  {
    if rest == [] then
      if started then [current] else []
    else
      var c, tail := rest[0], rest[1..];
      if quote.Single? then
        if c == '\'' then Scan(tail, Unquoted, true, current) else Scan(tail, Single, true, current + [c])
      else if c == '\\' && tail != [] && Escapes(quote, tail[0]) then
        Scan(tail[1..], quote, true, current + [tail[0]])
      else if quote.Double? then
        if c == '"' then Scan(tail, Unquoted, true, current) else Scan(tail, Double, true, current + [c])
      else if c == '"' then Scan(tail, Double, true, current)
      else if c == '\'' then Scan(tail, Single, true, current)
      else if IsSpace(c) then
        if started then [current] + Scan(tail, Unquoted, false, "") else Scan(tail, Unquoted, false, current)
      else Scan(tail, Unquoted, true, current + [c])
  }

  function Parse(command: string): seq<string> {
    Scan(command, Unquoted, false, "")
  }

  method ParseArguments(command: string) returns (argumentList: seq<string>)
    ensures argumentList == Parse(command)
  {
    argumentList := [];
    var currentArgument: string := "";
    var quote := Unquoted;
    var tokenStarted := false;
    var i := 0;
    while i < |command|
      invariant 0 <= i <= |command|
      invariant argumentList + Scan(command[i..], quote, tokenStarted, currentArgument) == Parse(command)
    {
      var currentChar := command[i];
      assert command[i..][1..] == command[i + 1..];
      if quote == Single {
        if currentChar == '\'' {
          quote := Unquoted;
        } else {
          currentArgument := currentArgument + [currentChar];
        }
        tokenStarted := true;
        i := i + 1;
        continue;
      }
      if currentChar == '\\' && i + 1 < |command| {
        var nextChar := command[i + 1];
        var escapedQuote := nextChar == '"' || (quote == Unquoted && nextChar == '\'');
        var escapedWhitespace := quote == Unquoted && IsSpace(nextChar);
        if escapedQuote || escapedWhitespace {
          assert command[i + 1..][1..] == command[i + 2..];
          currentArgument := currentArgument + [nextChar];
          tokenStarted := true;
          i := i + 2;
          continue;
        }
      }
      if quote != Unquoted {
        if currentChar == '"' {
          quote := Unquoted;
        } else {
          currentArgument := currentArgument + [currentChar];
        }
        tokenStarted := true;
        i := i + 1;
        continue;
      }
      if currentChar == '"' || currentChar == '\'' {
        quote := if currentChar == '"' then Double else Single;
        tokenStarted := true;
        i := i + 1;
        continue;
      }
      if IsSpace(currentChar) {
        if tokenStarted {
          argumentList := argumentList + [currentArgument];
          currentArgument := "";
          tokenStarted := false;
        }
        i := i + 1;
        continue;
      }
      currentArgument := currentArgument + [currentChar];
      tokenStarted := true;
      i := i + 1;
    }
    if tokenStarted {
      argumentList := argumentList + [currentArgument];
    }
  }

  // ---- Printing -----------------------------------------------------------------------------------

  /** The characters argumentsToString quotes an argument for. */
  predicate Special(c: char) {
    c == ' ' || c == '\t' || c == '\r' || c == '\n' || c == '"' || c == '\''
  }

  predicate NeedsQuotes(argument: string) {
    argument == "" || exists i | 0 <= i < |argument| :: Special(argument[i])
  }

  function QuotedChar(c: char): string {
    if c == '\'' then "'\\''" else [c]
  }

  function QuotedBody(argument: string): string {
    if argument == "" then "" else QuotedChar(argument[0]) + QuotedBody(argument[1..])
  }

  function Encode(argument: string): string {
    if NeedsQuotes(argument) then "'" + QuotedBody(argument) + "'" else argument
  }

  function Render(arguments: seq<string>): string {
    if arguments == [] then "" else Encode(arguments[0]) + More(arguments[1..])
  }

  /** The rest of the line after an argument. */
  function More(arguments: seq<string>): string {
    if arguments == [] then "" else " " + (Encode(arguments[0]) + More(arguments[1..]))
  }

  method QuoteArgument(argument: string) returns (quoted: string)
    ensures quoted == "'" + QuotedBody(argument) + "'"
  {
    quoted := "'";
    var j := 0;
    while j < |argument|
      invariant 0 <= j <= |argument|
      invariant quoted + QuotedBody(argument[j..]) == "'" + QuotedBody(argument)
    {
      assert argument[j..][1..] == argument[j + 1..];
      var ch := argument[j];
      if ch == '\'' {
        quoted := quoted + "'\\''";
      } else {
        quoted := quoted + [ch];
      }
      j := j + 1;
    }
    quoted := quoted + "'";
  }

  /** The part of the command line that argument k contributes. */
  function Piece(list: seq<string>, k: nat): string
    requires k < |list|
  {
    (if k == 0 then "" else " ") + Encode(list[k])
  }

  function FromArgument(list: seq<string>, k: nat): string
    requires k <= |list|
  {
    if k == 0 then Render(list) else More(list[k..])
  }

  lemma PieceThenRest(list: seq<string>, k: nat)
    requires k < |list|
    ensures FromArgument(list, k) == Piece(list, k) + FromArgument(list, k + 1)
  {
    assert list[k..][1..] == list[k + 1..];
  }

  method ArgumentsToString(arguments: Option<seq<string>>) returns (command: string)
    ensures command == if arguments.None? then "null" else Render(arguments.value)
  {
    if arguments.None? {
      return "null";
    }
    var list := arguments.value;
    command := "";
    var k := 0;
    while k < |list|
      invariant 0 <= k <= |list|
      invariant command + FromArgument(list, k) == Render(list)
    {
      PieceThenRest(list, k);
      ghost var before := command;
      var argument := list[k];
      if k != 0 {
        command := command + " ";
      }
      ghost var lead := if k == 0 then "" else " ";
      assert command == before + lead;
      ConcatAssociates(before, lead, Encode(argument));
      if !NeedsQuotes(argument) {
        command := command + argument;
      } else {
        var quoted := QuoteArgument(argument);
        command := command + quoted;
      }
      assert command == before + Piece(list, k);
      ConcatAssociates(before, Piece(list, k), FromArgument(list, k + 1));
      k := k + 1;
    }
  }

  // ---- When printing and parsing undo each other ---------------------------------------------------

  predicate VerticalSpace(c: char) {
    c == '\U{0B}' || c == '\U{0C}'
  }

  predicate Plain(u: string) {
    forall i | 0 <= i < |u| :: !Special(u[i])
  }

  /** Text printed without quotes keeps its meaning: no \v or \f, and no backslash that meets a separator. */
  predicate PlainSurvives(u: string, final: bool) {
    && (forall i | 0 <= i < |u| :: !VerticalSpace(u[i]))
    && (final || u == "" || u[|u| - 1] != '\\')
  }

  predicate Survives(argument: string, final: bool) {
    NeedsQuotes(argument) || PlainSurvives(argument, final)
  }

  predicate AllSurvive(arguments: seq<string>) {
    forall i | 0 <= i < |arguments| :: Survives(arguments[i], i == |arguments| - 1)
  }

  lemma AllSurviveTail(arguments: seq<string>)
    requires arguments != []
    ensures AllSurvive(arguments) <==>
      Survives(arguments[0], arguments[1..] == []) && AllSurvive(arguments[1..])
  {
    var rest := arguments[1..];
    forall i | 1 <= i < |arguments| ensures arguments[i] == rest[i - 1] {
    }
    if Survives(arguments[0], rest == []) && AllSurvive(rest) {
      forall i | 0 <= i < |arguments| ensures Survives(arguments[i], i == |arguments| - 1) {
        if i > 0 {
          assert Survives(rest[i - 1], i - 1 == |rest| - 1);
        }
      }
    }
    if AllSurvive(arguments) {
      forall i | 0 <= i < |rest| ensures Survives(rest[i], i == |rest| - 1) {
        assert Survives(arguments[i + 1], i + 1 == |arguments| - 1);
      }
    }
  }

  lemma StepSingle(c: char, t: string, current: string)
    ensures Scan([c] + t, Single, true, current) ==
            if c == '\'' then Scan(t, Unquoted, true, current) else Scan(t, Single, true, current + [c])
  {
    assert ([c] + t)[1..] == t;
  }

  lemma StepOpen(t: string, started: bool, current: string)
    ensures Scan(['\''] + t, Unquoted, started, current) == Scan(t, Single, true, current)
  {
    assert (['\''] + t)[1..] == t;
  }

  lemma StepEscape(n: char, t: string, started: bool, current: string)
    requires Escapes(Unquoted, n)
    ensures Scan(['\\', n] + t, Unquoted, started, current) == Scan(t, Unquoted, true, current + [n])
  {
    var s := ['\\', n] + t;
    assert s[1..] == [n] + t && s[1..][1..] == t;
  }

  lemma StepSpace(t: string, current: string)
    ensures Scan([' '] + t, Unquoted, true, current) == [current] + Scan(t, Unquoted, false, "")
  {
    assert ([' '] + t)[1..] == t;
  }

  /** Inside quotes every character is literal; the closed-escaped-reopened quote is one quote. */
  lemma StepQuotedChar(c: char, more: string, current: string)
    ensures Scan(QuotedChar(c) + more, Single, true, current) == Scan(more, Single, true, current + [c])
  {
    hide Scan;
    if c == '\'' {
      assert QuotedChar(c) + more == ['\''] + (['\\', '\''] + (['\''] + more));
      StepSingle('\'', ['\\', '\''] + (['\''] + more), current);
      StepEscape('\'', ['\''] + more, true, current);
      StepOpen(more, true, current + [c]);
    } else {
      StepSingle(c, more, current);
    }
  }

  /** A quoted argument, from behind its opening quote to its closing one. */
  lemma {:induction false} ScanQuoted(a: string, rest: string, current: string)
    ensures Scan(QuotedBody(a) + ("'" + rest), Single, true, current) == Scan(rest, Unquoted, true, current + a)
  {
    hide Scan, QuotedChar;
    if a == "" {
      assert QuotedBody(a) + ("'" + rest) == ['\''] + rest;
      assert current + a == current;
      StepSingle('\'', rest, current);
    } else {
      var c, v := a[0], a[1..];
      ConcatAssociates(QuotedChar(c), QuotedBody(v), "'" + rest);
      StepQuotedChar(c, QuotedBody(v) + ("'" + rest), current);
      ScanQuoted(v, rest, current + [c]);
      ConcatAssociates(current, [c], v);
      assert [c] + v == a;
    }
  }

  /** A whole quoted argument. */
  lemma ScanEncoded(a: string, rest: string, started: bool, current: string)
    requires NeedsQuotes(a)
    ensures Scan(Encode(a) + rest, Unquoted, started, current) == Scan(rest, Unquoted, true, current + a)
  {
    hide Scan, QuotedBody;
    assert Encode(a) + rest == ['\''] + (QuotedBody(a) + ("'" + rest));
    StepOpen(QuotedBody(a) + ("'" + rest), started, current);
    ScanQuoted(a, rest, current);
  }

  lemma {:induction false} ScanPlain(u: string, rest: string, started: bool, current: string)
    requires Plain(u) && PlainSurvives(u, rest == "")
    requires rest == "" || rest[0] == ' '
    ensures Scan(u + rest, Unquoted, started, current) == Scan(rest, Unquoted, started || u != "", current + u)
  {
    if u == "" {
      assert u + rest == rest && current + u == current;
    } else {
      var s, v := u + rest, u[1..];
      assert s[0] == u[0] && s[1..] == v + rest;
      assert v != "" ==> v[|v| - 1] == u[|u| - 1] && (v + rest)[0] == u[1];
      ScanPlain(v, rest, true, current + [u[0]]);
      assert current + u == current + [u[0]] + v;
      if u[0] == '\\' && s[1..] != [] {
        assert !Escapes(Unquoted, s[1..][0]);
      }
    }
  }

  lemma {:induction false} RoundTripFrom(arguments: seq<string>)
    requires AllSurvive(arguments) && arguments != []
    ensures Scan(Render(arguments), Unquoted, false, "") == arguments
    decreases |arguments|
  {
    var a, rest := arguments[0], arguments[1..];
    AllSurviveTail(arguments);
    var tail := More(rest);
    assert "" + a == a;
    if NeedsQuotes(a) {
      ScanEncoded(a, tail, false, "");
    } else {
      ScanPlain(a, tail, false, "");
    }
    if rest != [] {
      RoundTripFrom(rest);
      assert tail == [' '] + Render(rest);
      StepSpace(Render(rest), a);
      assert arguments == [a] + rest;
    }
  }

  // ---- Otherwise the parse loses a backslash, a \v or a \f --------------------------------------------

  predicate Fragile(c: char) {
    c == '\\' || VerticalSpace(c)
  }

  function Weight(s: string): nat {
    if s == "" then 0 else (if Fragile(s[0]) then 1 else 0) + Weight(s[1..])
  }

  function TotalWeight(arguments: seq<string>): nat {
    if arguments == [] then 0 else Weight(arguments[0]) + TotalWeight(arguments[1..])
  }

  lemma {:induction false} WeightAppend(a: string, b: string)
    ensures Weight(a + b) == Weight(a) + Weight(b)
  {
    if a == "" {
      assert a + b == b;
    } else {
      assert (a + b)[1..] == a[1..] + b;
      WeightAppend(a[1..], b);
    }
  }

  /** What a scan of printed arguments can yield at most, and strictly less if one of them does not survive. */
  ghost predicate Bounded(out: seq<string>, bound: nat, intact: bool) {
    TotalWeight(out) <= bound && (!intact ==> TotalWeight(out) < bound)
  }

  lemma BoundedWeaker(out: seq<string>, bound: nat, intact: bool, bound': nat, intact': bool)
    requires Bounded(out, bound, intact) && (bound < bound' || (bound == bound' && (intact ==> intact')))
    ensures Bounded(out, bound', intact')
  {
  }

  lemma BoundedLater(current: string, out: seq<string>, bound: nat, intact: bool)
    requires Bounded(out, bound, intact)
    ensures Bounded([current] + out, Weight(current) + bound, intact)
  {
    assert ([current] + out)[1..] == out;
  }

  lemma WeightSplit(u: string)
    requires u != ""
    ensures Weight(u) == Weight(u[..1]) + Weight(u[1..]) && Weight(u[..1]) == if Fragile(u[0]) then 1 else 0
  {
    assert u[..1][1..] == "";
  }

  lemma {:induction false} ScanBound(arguments: seq<string>, started: bool, current: string)
    requires arguments != []
    ensures Bounded(Scan(Render(arguments), Unquoted, started, current), Weight(current) + TotalWeight(arguments), AllSurvive(arguments))
    decreases 2 * |arguments|, 0
  {
    hide Scan, Weight, Bounded, AllSurvive, Survives, More, Encode;
    var a, rest := arguments[0], arguments[1..];
    AllSurviveTail(arguments);
    SurvivesIs(a, rest == []);
    if NeedsQuotes(a) {
      ScanEncoded(a, More(rest), started, current);
      WeightAppend(current, a);
      assert "" + More(rest) == More(rest);
      ScanPlainBound("", rest, true, current + a);
      WeightOfNothing();
    } else {
      EncodeIs(a);
      ScanPlainBound(a, rest, started, current);
    }
  }

  lemma SurvivesIs(a: string, final: bool)
    ensures Survives(a, final) <==> NeedsQuotes(a) || PlainSurvives(a, final)
    ensures PlainSurvives("", final)
  {
  }

  lemma EncodeIs(a: string)
    requires !NeedsQuotes(a)
    ensures Encode(a) == a && Plain(a)
  {
  }

  lemma WeightOfNothing()
    ensures Weight("") == 0
  {
  }

  /** One character outside quotes that opens none. */
  lemma StepUnquoted(c: char, t: string, started: bool, current: string)
    requires c != '"' && c != '\''
    ensures Scan([c] + t, Unquoted, started, current) ==
            if c == '\\' && t != [] && Escapes(Unquoted, t[0]) then Scan(t[1..], Unquoted, true, current + [t[0]])
            else if !IsSpace(c) then Scan(t, Unquoted, true, current + [c])
            else if started then [current] + Scan(t, Unquoted, false, "")
            else Scan(t, Unquoted, false, current)
  {
    assert ([c] + t)[1..] == t;
  }

  /** Behind an argument: the end, or a space and the next argument. */
  lemma {:induction false} MoreBound(arguments: seq<string>, started: bool, current: string)
    ensures Bounded(Scan(More(arguments), Unquoted, started, current),
                    Weight(current) + TotalWeight(arguments), AllSurvive(arguments))
    decreases 2 * |arguments| + 1, 0
  {
    if arguments == [] {
      var one := [current];
      assert one[1..] == [];
      assert Scan("", Unquoted, started, current) == if started then one else [];
    } else {
      hide Scan, Weight, TotalWeight, Bounded, AllSurvive;
      assert More(arguments) == [' '] + Render(arguments);
      StepUnquoted(' ', Render(arguments), started, current);
      if started {
        ScanBound(arguments, false, "");
        WeightOfNothing();
        BoundedLater(current, Scan(Render(arguments), Unquoted, false, ""), TotalWeight(arguments), AllSurvive(arguments));
      } else {
        ScanBound(arguments, false, current);
      }
    }
  }

  /** Unquoted text and what follows it; every case but the last loses a backslash, \v or \f. */
  lemma {:induction false} ScanPlainBound(u: string, arguments: seq<string>, started: bool, current: string)
    requires Plain(u)
    ensures Bounded(Scan(u + More(arguments), Unquoted, started, current),
                    Weight(current) + Weight(u) + TotalWeight(arguments),
                    PlainSurvives(u, arguments == []) && AllSurvive(arguments))
    decreases 2 * |arguments| + 1, |u| + 1
  {
    hide Scan, Weight, TotalWeight, Bounded, AllSurvive, More, PlainSurvives;
    var s := u + More(arguments);
    var total := TotalWeight(arguments);
    var intact := PlainSurvives(u, arguments == []) && AllSurvive(arguments);
    if u == "" {
      assert s == More(arguments);
      SurvivesIs(u, arguments == []);
      WeightOfNothing();
      MoreBound(arguments, started, current);
    } else {
      var c, v := u[0], u[1..];
      var t := v + More(arguments);
      assert s == [c] + t && u[..1] == [c];
      WeightSplit(u);
      WeightAppend(current, [c]);
      MoreStarts(arguments);
      StepUnquoted(c, t, started, current);
      if c == '\\' && t != [] && Escapes(Unquoted, t[0]) {
        ScanEscaped(u, arguments, current);
      } else if IsSpace(c) {
        var kept := if started then "" else current;
        ScanPlainBound(v, arguments, false, kept);
        var restIntact := PlainSurvives(v, arguments == []) && AllSurvive(arguments);
        if started {
          WeightOfNothing();
          BoundedLater(current, Scan(t, Unquoted, false, ""), Weight(v) + total, restIntact);
        }
        BoundedWeaker(Scan(s, Unquoted, started, current), Weight(current) + Weight(v) + total, restIntact,
                      Weight(current) + Weight(u) + total, intact);
      } else {
        ScanPlainBound(v, arguments, true, current + [c]);
        var restIntact := PlainSurvives(v, arguments == []) && AllSurvive(arguments);
        if PlainSurvives(v, arguments == []) {
          assert v == "" && arguments != [] ==> t[0] == ' ';
          PlainSurvivesCons(u, arguments == []);
        }
        BoundedWeaker(Scan(s, Unquoted, started, current), Weight(current) + Weight(u) + total, restIntact,
                      Weight(current) + Weight(u) + total, intact);
      }
    }
  }

  lemma MoreStarts(arguments: seq<string>)
    ensures if arguments == [] then More(arguments) == "" else More(arguments) == [' '] + Render(arguments)
  {
  }

  /** A backslash that meets a separator: the space behind the argument, or a \v or \f in it. */
  lemma {:induction false} ScanEscaped(u: string, arguments: seq<string>, current: string)
    requires Plain(u) && u != "" && u[0] == '\\'
    requires var t := u[1..] + More(arguments);
             t != "" && Escapes(Unquoted, t[0])
    ensures var t := u[1..] + More(arguments);
            Bounded(Scan(t[1..], Unquoted, true, current + [t[0]]), Weight(current) + Weight(u) + TotalWeight(arguments),
                    PlainSurvives(u, arguments == []) && AllSurvive(arguments))
    decreases 2 * |arguments| + 1, |u|
  {
    hide Scan, Weight, TotalWeight, Bounded, AllSurvive, More, PlainSurvives;
    var v := u[1..];
    var t := v + More(arguments);
    var n, total := t[0], TotalWeight(arguments);
    var out := Scan(t[1..], Unquoted, true, current + [n]);
    var intact := PlainSurvives(u, arguments == []) && AllSurvive(arguments);
    WeightAppend(current, [n]);
    WeightSplit([n]);
    WeightSplit(u);
    MoreStarts(arguments);
    assert [n][..1] == [n];
    if v == "" {
      assert t[1..] == Render(arguments);
      ScanBound(arguments, true, current + [n]);
      BoundedWeaker(out, Weight(current) + total, AllSurvive(arguments), Weight(current) + Weight(u) + total, intact);
    } else {
      WeightSplit(v);
      assert t[1..] == v[1..] + More(arguments) && n == v[0] == u[1] && v[..1] == [n];
      assert VerticalSpace(n) && Plain(v[1..]);
      ScanPlainBound(v[1..], arguments, true, current + [n]);
      BoundedWeaker(out, Weight(current) + Weight(v) + total, PlainSurvives(v[1..], arguments == []) && AllSurvive(arguments),
                    Weight(current) + Weight(u) + total, intact);
    }
  }

  lemma PlainSurvivesCons(u: string, final: bool)
    requires u != "" && !VerticalSpace(u[0]) && PlainSurvives(u[1..], final)
    requires u[1..] == "" && !final ==> u[0] != '\\'
    ensures PlainSurvives(u, final)
  {
    forall i | 0 <= i < |u| ensures !VerticalSpace(u[i]) {
      if i > 0 {
        assert u[i] == u[1..][i - 1];
      }
    }
    if u[1..] != "" {
      assert u[|u| - 1] == u[1..][|u| - 2];
    }
  }

  /** parseArguments undoes argumentsToString exactly when every unquoted argument survives. */
  lemma RoundTripIff(arguments: seq<string>)
    ensures Parse(Render(arguments)) == arguments <==> AllSurvive(arguments)
  {
    if arguments != [] {
      if AllSurvive(arguments) {
        RoundTripFrom(arguments);
      } else {
        ScanBound(arguments, false, "");
      }
    }
  }

  /** What is lost when it does not: fewer backslashes, \v and \f come back than went in. */
  lemma LossIsStrict(arguments: seq<string>)
    requires !AllSurvive(arguments)
    ensures TotalWeight(Parse(Render(arguments))) < TotalWeight(arguments)
  {
    hide Scan, Render, Survives;
    ScanBound(arguments, false, "");
  }
}
