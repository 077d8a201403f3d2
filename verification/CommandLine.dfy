/**
 split_commandline of cmdutils.c with find_option, match_group_separator, finish_group and
 add_opt: the command line is cut into tokens, and the tokens into option groups. The reference
 is the list of tokens: printing it must give the command line back, and every group must hold
 what lies between two terminators.
 */
module CommandLine {
  import opened Common

  datatype OptionType = TypeBool | TypeFunc | TypeOther

  datatype OptionDef = OptionDef(name: string, kind: OptionType, funcArg: bool, exits: bool, perFile: bool)

  datatype GroupDef = GroupDef(name: string, sep: Option<string>)

  /** What the foreign opt_default() makes of an option it is offered. */
  datatype AvOutcome = Consumed | NotFound | Failed

  datatype Config = Config(options: seq<OptionDef>, groups: seq<GroupDef>, avOption: (string, string) -> AvOutcome)

  datatype Error = MissingArgument | AvOptionFailed | Unrecognized

  // ---- Tables -------------------------------------------------------------------------------------

  /** The option's name, up to a stream specifier. */
  predicate Names(o: OptionDef, name: string) {
    StartsWith(name, o.name) && (|name| == |o.name| || name[|o.name|] == ':')
  }

  function FirstNamed(options: seq<OptionDef>, name: string): Option<OptionDef> {
    if options == [] then None
    else if Names(options[0], name) then Some(options[0])
    else FirstNamed(options[1..], name)
  }

  /** find_option(): a leading slash, which asks for the value to be read from a file, is skipped. */
  function FindOption(options: seq<OptionDef>, name: string): Option<OptionDef> {
    FirstNamed(options, if StartsWith(name, "/") then name[1..] else name)
  }

  predicate HasArg(o: OptionDef) {
    match o.kind
    case TypeBool => false
    case TypeFunc => o.funcArg
    case TypeOther => true
  }

  /** match_group_separator(), counting from i. */
  function Separator(groups: seq<GroupDef>, opt: string, i: nat): (r: Option<nat>)
    requires i <= |groups|
    ensures r.Some? ==> i <= r.value < |groups| && groups[r.value].sep == Some(opt)
    ensures r.None? ==> forall j | i <= j < |groups| :: groups[j].sep != Some(opt)
    ensures r.Some? ==> forall j | i <= j < r.value :: groups[j].sep != Some(opt)
    decreases |groups| - i
  {
    if i == |groups| then None
    else if groups[i].sep == Some(opt) then Some(i)
    else Separator(groups, opt, i + 1)
  }

  // ---- Tokens -------------------------------------------------------------------------------------

  datatype Token =
    | DashDash
    | Unnamed(arg: string)
    | Named(group: nat, opt: string, arg: string)
    | WithValue(def: OptionDef, key: string, val: string)
    | ExitAtEnd(def: OptionDef, key: string)   // an OPT_EXIT option without its optional argument
    | Switch(def: OptionDef, key: string)
    | SwitchOff(def: OptionDef, key: string)   // -nofoo
    | AvOption(key: string, val: string)

  function Printed(t: Token): seq<string> {
    match t
    case DashDash => ["--"]
    case Unnamed(arg) => [arg]
    case Named(_, opt, arg) => ["-" + opt, arg]
    case WithValue(_, key, val) => ["-" + key, val]
    case ExitAtEnd(_, key) => ["-" + key]
    case Switch(_, key) => ["-" + key]
    case SwitchOff(_, key) => ["-" + key]
    case AvOption(key, val) => ["-" + key, val]
  }

  /** How far optindex moves; behind an OPT_EXIT option it steps over the terminating null pointer. */
  function Width(t: Token): nat {
    match t
    case DashDash => 1
    case Unnamed(_) => 1
    case Switch(_, _) => 1
    case SwitchOff(_, _) => 1
    case _ => 2
  }

  /** The token at i; `literal` says that the element before it was "--". */
  function NextToken(c: Config, argv: seq<string>, i: nat, literal: bool): Result<Token, Error>
    requires i < |argv|
  {
    var opt := argv[i];
    var next := if i + 1 < |argv| then Some(argv[i + 1]) else None;
    if opt == "--" then Ok(DashDash)
    else if |opt| < 2 || opt[0] != '-' || literal then Ok(Unnamed(opt))
    else
      var key := opt[1..];
      var group := Separator(c.groups, key, 0);
      var def := FindOption(c.options, key);
      if group.Some? then
        if next.None? then Err(MissingArgument) else Ok(Named(group.value, key, next.value))
      else if def.Some? then
        if def.value.exits then
          Ok(if next.Some? then WithValue(def.value, key, next.value) else ExitAtEnd(def.value, key))
        else if HasArg(def.value) then
          if next.None? then Err(MissingArgument) else Ok(WithValue(def.value, key, next.value))
        else Ok(Switch(def.value, key))
      else if next.Some? && c.avOption(key, next.value).Consumed? then Ok(AvOption(key, next.value))
      else if next.Some? && c.avOption(key, next.value).Failed? then Err(AvOptionFailed)
      else if StartsWith(key, "no") && FindOption(c.options, key[2..]).Some? && FindOption(c.options, key[2..]).value.kind.TypeBool? then
        Ok(SwitchOff(FindOption(c.options, key[2..]).value, key))
      else Err(Unrecognized)
  }

  function Tokens(c: Config, argv: seq<string>, i: nat, literal: bool): Result<seq<Token>, Error>
    decreases |argv| - i
  {
    if i >= |argv| then Ok([])
    else
      var t := NextToken(c, argv, i, literal);
      if t.Err? then Err(t.error)
      else
        var rest := Tokens(c, argv, i + Width(t.value), t.value.DashDash?);
        if rest.Err? then rest else Ok([t.value] + rest.value)
  }

  // ---- Groups -------------------------------------------------------------------------------------

  datatype Opt = Opt(def: OptionDef, key: string, val: Option<string>)

  /** `avOptions` stands for the four dictionaries that opt_default fills. */
  datatype Group = Group(arg: string, opts: seq<Opt>, avOptions: seq<(string, string)>)

  datatype Context = Context(global: seq<Opt>, groups: seq<seq<Group>>, current: seq<Opt>, avOptions: seq<(string, string)>)

  function Finish(x: Context, group: nat, arg: string): Context
    requires group < |x.groups|
  {
    Context(x.global, x.groups[group := x.groups[group] + [Group(arg, x.current, x.avOptions)]], [], [])
  }

  function Add(x: Context, o: Opt): Context {
    if o.def.perFile then x.(current := x.current + [o]) else x.(global := x.global + [o])
  }

  /** The option a token stands for. */
  function OptOf(t: Token): Option<Opt> {
    match t
    case WithValue(def, key, val) => Some(Opt(def, key, Some(val)))
    case ExitAtEnd(def, key) => Some(Opt(def, key, None))
    case Switch(def, key) => Some(Opt(def, key, Some("1")))
    case SwitchOff(def, key) => Some(Opt(def, key, Some("0")))
    case _ => None
  }

  predicate IsTerminator(t: Token) {
    t.Unnamed? || t.Named?
  }

  function GroupOf(t: Token): nat
    requires IsTerminator(t)
  {
    if t.Unnamed? then 0 else t.group
  }

  predicate TokenOk(t: Token, nbGroups: nat) {
    IsTerminator(t) ==> GroupOf(t) < nbGroups
  }

  function Apply(x: Context, t: Token): Context
    requires TokenOk(t, |x.groups|)
  {
    if IsTerminator(t) then Finish(x, GroupOf(t), t.arg)
    else if t.AvOption? then x.(avOptions := x.avOptions + [(t.key, t.val)])
    else if OptOf(t).Some? then Add(x, OptOf(t).value)
    else x
  }

  class OptionParseContext {
    var globalOpts: seq<Opt>
    var groups: seq<seq<Group>>
    var curGroup: seq<Opt>
    var avOptions: seq<(string, string)>

    /** init_parse_context() */
    constructor (nbGroups: nat)
      ensures View() == Empty(nbGroups)
    {
      globalOpts, groups, curGroup, avOptions := [], seq(nbGroups, i => []), [], [];
    }

    function View(): Context
      reads this
    {
      Context(globalOpts, groups, curGroup, avOptions)
    }

    method FinishGroup(group: nat, arg: string)
      requires group < |groups|
      modifies this
      ensures View() == Finish(old(View()), group, arg)
    {
      groups := groups[group := groups[group] + [Group(arg, curGroup, avOptions)]];
      avOptions := [];
      curGroup := [];
    }

    method AddOpt(def: OptionDef, key: string, val: Option<string>)
      modifies this
      ensures View() == Add(old(View()), Opt(def, key, val))
    {
      if !def.perFile {
        globalOpts := globalOpts + [Opt(def, key, val)];
      } else {
        curGroup := curGroup + [Opt(def, key, val)];
      }
    }

    /** One turn of the loop: the new optindex and dashdash, or the error. */
    method SplitNext(c: Config, argv: seq<string>, index: nat, dashdash: int) returns (r: Result<(nat, int), Error>)
      requires index < |argv| && |groups| == |c.groups| > 0
      modifies this
      ensures |groups| == |c.groups|
      ensures var t := NextToken(c, argv, index, dashdash == index);
              if t.Err? then r == Err(t.error) && View() == old(View())
              else
                && TokenOk(t.value, |old(groups)|) && View() == Apply(old(View()), t.value)
                && r == Ok((index + Width(t.value), if t.value.DashDash? then index + 1 else dashdash))
    {
      hide FirstNamed;
      var optindex := index;
      var opt := argv[optindex];
      optindex := optindex + 1;
      if opt == "--" {
        return Ok((optindex, optindex));
      }
      if |opt| == 0 || opt[0] != '-' || |opt| == 1 || dashdash + 1 == optindex {
        FinishGroup(0, opt);
        return Ok((optindex, dashdash));
      }
      opt := opt[1..];
      var group := Separator(c.groups, opt, 0);
      if group.Some? {
        if optindex >= |argv| {
          return Err(MissingArgument);
        }
        FinishGroup(group.value, argv[optindex]);
        return Ok((optindex + 1, dashdash));
      }
      var po := FindOption(c.options, opt);
      if po.Some? {
        var arg: Option<string>;
        if po.value.exits {
          arg := if optindex < |argv| then Some(argv[optindex]) else None;
          optindex := optindex + 1;
        } else if HasArg(po.value) {
          if optindex >= |argv| {
            return Err(MissingArgument);
          }
          arg := Some(argv[optindex]);
          optindex := optindex + 1;
        } else {
          arg := Some("1");
        }
        AddOpt(po.value, opt, arg);
        return Ok((optindex, dashdash));
      }
      if optindex < |argv| {
        var ret := c.avOption(opt, argv[optindex]);
        if ret.Consumed? {
          avOptions := avOptions + [(opt, argv[optindex])];
          return Ok((optindex + 1, dashdash));
        } else if ret.Failed? {
          return Err(AvOptionFailed);
        }
      }
      if StartsWith(opt, "no") {
        po := FindOption(c.options, opt[2..]);
        if po.Some? && po.value.kind.TypeBool? {
          AddOpt(po.value, opt, Some("0"));
          return Ok((optindex, dashdash));
        }
      }
      return Err(Unrecognized);
    }

    /** split_commandline() on a context that init_parse_context() has just set up. */
    method SplitCommandline(c: Config, argv: seq<string>) returns (error: Option<Error>)
      requires View() == Empty(|c.groups|) && |c.groups| > 0
      modifies this
      ensures var ts := Tokens(c, argv, 1, false);
              if ts.Err? then error == Some(ts.error)
              else error.None? && AllOk(ts.value, |c.groups|) && View() == Build(ts.value, |c.groups|)
    {
      hide NextToken, Tokens, Width, Apply, Build, AllOk, Remain;
      var optindex, dashdash := 1, -2;
      ghost var done: seq<Token> := [];
      ghost var ts := Tokens(c, argv, 1, false);
      AllRemain(c, argv);
      while optindex < |argv|
        invariant 1 <= optindex && |groups| == |c.groups| && dashdash <= optindex
        invariant AllOk(done, |c.groups|) && View() == Build(done, |c.groups|)
        invariant Remain(c, argv, optindex, dashdash == optindex, done, ts)
        decreases |argv| - optindex
      {
        ghost var t := NextToken(c, argv, optindex, dashdash == optindex);
        RemainNext(c, argv, optindex, dashdash == optindex, done, ts);
        var r := SplitNext(c, argv, optindex, dashdash);
        if r.Err? {
          return Some(r.error);
        }
        BuildNext(done, t.value, |c.groups|);
        done := done + [t.value];
        optindex, dashdash := r.value.0, r.value.1;
      }
      NothingRemains(c, argv, optindex, dashdash == optindex, done, ts);
      return None;
    }
  }

  /** Behind the tokens that are done lie the tokens from i on. */
  ghost predicate Remain(c: Config, argv: seq<string>, i: nat, literal: bool, done: seq<Token>, ts: Result<seq<Token>, Error>) {
    var rest := Tokens(c, argv, i, literal);
    if ts.Err? then rest == ts else rest.Ok? && done + rest.value == ts.value
  }

  lemma AllRemain(c: Config, argv: seq<string>)
    ensures Remain(c, argv, 1, false, [], Tokens(c, argv, 1, false))
    ensures AllOk([], |c.groups|) && Build([], |c.groups|) == Empty(|c.groups|)
  {
  }

  lemma RemainNext(c: Config, argv: seq<string>, i: nat, literal: bool, done: seq<Token>, ts: Result<seq<Token>, Error>)
    requires i < |argv| && Remain(c, argv, i, literal, done, ts)
    ensures var t := NextToken(c, argv, i, literal);
            if t.Err? then ts == Err(t.error)
            else 1 <= Width(t.value) <= 2 && (t.value.DashDash? ==> Width(t.value) == 1)
                 && Remain(c, argv, i + Width(t.value), t.value.DashDash?, done + [t.value], ts)
  {
    hide NextToken;
    var t := NextToken(c, argv, i, literal);
    if t.Ok? {
      var rest := Tokens(c, argv, i + Width(t.value), t.value.DashDash?);
      if rest.Ok? {
        ConcatAssociates(done, [t.value], rest.value);
      }
    }
  }

  lemma NothingRemains(c: Config, argv: seq<string>, i: nat, literal: bool, done: seq<Token>, ts: Result<seq<Token>, Error>)
    requires i >= |argv| && Remain(c, argv, i, literal, done, ts)
    ensures ts == Ok(done)
  {
    assert done + [] == done;
  }

  lemma BuildNext(done: seq<Token>, t: Token, nbGroups: nat)
    requires AllOk(done, nbGroups) && TokenOk(t, nbGroups)
    ensures AllOk(done + [t], nbGroups) && Build(done + [t], nbGroups) == Apply(Build(done, nbGroups), t)
  {
    assert (done + [t])[..|done|] == done;
  }

  function Empty(nbGroups: nat): Context {
    Context([], seq(nbGroups, i => []), [], [])
  }

  predicate AllOk(ts: seq<Token>, nbGroups: nat) {
    forall i | 0 <= i < |ts| :: TokenOk(ts[i], nbGroups)
  }

  function Build(ts: seq<Token>, nbGroups: nat): (x: Context)
    requires AllOk(ts, nbGroups)
    ensures |x.groups| == nbGroups
  {
    if ts == [] then Empty(nbGroups) else Apply(Build(ts[..|ts| - 1], nbGroups), ts[|ts| - 1])
  }

  // ---- Every element of argv is consumed exactly once ------------------------------------------------

  function PrintedAll(ts: seq<Token>): seq<string> {
    if ts == [] then [] else Printed(ts[0]) + PrintedAll(ts[1..])
  }

  lemma TokenPrints(c: Config, argv: seq<string>, i: nat, literal: bool)
    requires i < |argv| && NextToken(c, argv, i, literal).Ok?
    ensures var t := NextToken(c, argv, i, literal).value;
            var n := |Printed(t)|;
            1 <= n <= Width(t) && i + n <= |argv| && argv[i..i + n] == Printed(t)
            && (n < Width(t) ==> i + n == |argv|)
  {
    hide FirstNamed;
    var t := NextToken(c, argv, i, literal).value;
    var opt := argv[i];
    assert argv[i..i + 1] == [opt];
    if !t.DashDash? && !t.Unnamed? {
      assert opt == "-" + opt[1..];
    }
    if i + 1 < |argv| {
      assert argv[i..i + 2] == [opt, argv[i + 1]];
    }
  }

  /** On success the tokens, printed one after the other, are the command line. */
  lemma {:induction false} TokensPrintBack(c: Config, argv: seq<string>, i: nat, literal: bool)
    requires i <= |argv| && Tokens(c, argv, i, literal).Ok?
    ensures PrintedAll(Tokens(c, argv, i, literal).value) == argv[i..]
    decreases |argv| - i
  {
    hide NextToken;
    if i < |argv| {
      var t := NextToken(c, argv, i, literal).value;
      TokenPrints(c, argv, i, literal);
      var n := |Printed(t)|;
      var rest := Tokens(c, argv, i + Width(t), t.DashDash?).value;
      if i + Width(t) <= |argv| {
        TokensPrintBack(c, argv, i + Width(t), t.DashDash?);
        assert n == Width(t);
        assert argv[i..] == argv[i..i + n] + argv[i + n..];
      } else {
        assert rest == [] && argv[i..] == argv[i..i + n];
      }
      assert ([t] + rest)[1..] == rest;
    }
  }

  // ---- Which tokens can be written down and read back -------------------------------------------------

  /** "-" + key is neither "-" nor "--", and no "--" stands before it. */
  predicate IsOption(key: string, literal: bool) {
    key != "" && key != "-" && !literal
  }

  predicate NoSeparator(c: Config, key: string) {
    forall g | g in c.groups :: g.sep != Some(key)
  }

  /**
   The token says what the configuration knows of its text, with the strings of `rest` behind it.
   Only two tokens depend on what follows: an exiting option without argument must be the last one,
   and a switch that is turned off must not be an option of the libraries with that argument.
   */
  predicate Written(c: Config, t: Token, rest: seq<string>, literal: bool) {
    match t
    case DashDash => true
    case Unnamed(arg) => arg != "--" && (|arg| < 2 || arg[0] != '-' || literal)
    case Named(group, opt, _) => IsOption(opt, literal) && Separator(c.groups, opt, 0) == Some(group)
    case WithValue(def, key, _) => IsKnown(c, def, key, literal) && (def.exits || HasArg(def))
    case ExitAtEnd(def, key) => IsKnown(c, def, key, literal) && def.exits && rest == []
    case Switch(def, key) => IsKnown(c, def, key, literal) && !def.exits && !HasArg(def)
    case SwitchOff(def, key) =>
      && IsUnknown(c, key, literal) && (rest != [] ==> c.avOption(key, rest[0]).NotFound?)
      && StartsWith(key, "no") && FindOption(c.options, key[2..]) == Some(def) && def.kind.TypeBool?
    case AvOption(key, val) => IsUnknown(c, key, literal) && c.avOption(key, val).Consumed?
  }

  predicate IsKnown(c: Config, def: OptionDef, key: string, literal: bool) {
    IsOption(key, literal) && NoSeparator(c, key) && FindOption(c.options, key) == Some(def)
  }

  predicate IsUnknown(c: Config, key: string, literal: bool) {
    IsOption(key, literal) && NoSeparator(c, key) && FindOption(c.options, key).None?
  }

  predicate AllWritten(c: Config, ts: seq<Token>, literal: bool) {
    ts == [] || (Written(c, ts[0], PrintedAll(ts[1..]), literal) && AllWritten(c, ts[1..], ts[0].DashDash?))
  }

  lemma NextTokenIff(c: Config, argv: seq<string>, i: nat, t: Token, rest: seq<string>, literal: bool)
    requires i <= |argv| && argv[i..] == Printed(t) + rest
    ensures i < |argv| && (NextToken(c, argv, i, literal) == Ok(t) <==> Written(c, t, rest, literal))
  {
    hide FirstNamed;
    assert argv[i] == argv[i..][0];
    if i + 1 < |argv| {
      assert argv[i + 1] == argv[i..][1];
    }
    var opt := argv[i];
    if |opt| > 0 {
      assert opt == [opt[0]] + opt[1..];
      SeparatorNone(c, opt[1..]);
    }
  }

  lemma SeparatorNone(c: Config, key: string)
    ensures Separator(c.groups, key, 0).None? <==> NoSeparator(c, key)
  {
  }

  /** The converse of TokensPrintBack: which tokens are read back from the command line they print. */
  lemma {:induction false} TokensReadBackIff(c: Config, argv: seq<string>, i: nat, ts: seq<Token>, literal: bool)
    requires i <= |argv| && argv[i..] == PrintedAll(ts)
    ensures Tokens(c, argv, i, literal) == Ok(ts) <==> AllWritten(c, ts, literal)
    decreases |ts|
  {
    hide NextToken, Written;
    if ts != [] {
      var t, rest := ts[0], PrintedAll(ts[1..]);
      NextTokenIff(c, argv, i, t, rest, literal);
      if Written(c, t, rest, literal) {
        TokenPrints(c, argv, i, literal);
        var n := |Printed(t)|;
        assert argv[i..][n..] == argv[i + n..] == rest;
        assert ts == [t] + ts[1..];
        if n == Width(t) {
          TokensReadBackIff(c, argv, i + n, ts[1..], t.DashDash?);
        } else {
          NothingPrinted(ts[1..]);
        }
      }
    }
  }

  lemma NothingPrinted(ts: seq<Token>)
    ensures PrintedAll(ts) == [] <==> ts == []
  {
  }

  // ---- Every group holds what lies between two terminators --------------------------------------------

  /** The options of some tokens that go to the current group, in order. */
  function PerFileOpts(ts: seq<Token>): seq<Opt> {
    if ts == [] then []
    else
      var o := OptOf(ts[|ts| - 1]);
      PerFileOpts(ts[..|ts| - 1]) + (if o.Some? && o.value.def.perFile then [o.value] else [])
  }

  function GlobalOpts(ts: seq<Token>): seq<Opt> {
    if ts == [] then []
    else
      var o := OptOf(ts[|ts| - 1]);
      GlobalOpts(ts[..|ts| - 1]) + (if o.Some? && !o.value.def.perFile then [o.value] else [])
  }

  function AvOptions(ts: seq<Token>): seq<(string, string)> {
    if ts == [] then []
    else
      var t := ts[|ts| - 1];
      AvOptions(ts[..|ts| - 1]) + (if t.AvOption? then [(t.key, t.val)] else [])
  }

  /** How many terminators of a group there are. */
  function Terminators(ts: seq<Token>, group: nat): nat {
    if ts == [] then 0
    else
      var t := ts[|ts| - 1];
      Terminators(ts[..|ts| - 1], group) + (if IsTerminator(t) && GroupOf(t) == group then 1 else 0)
  }

  /** Where the tokens after the last terminator start. */
  function LastStart(ts: seq<Token>): (p: nat)
    ensures p <= |ts| && (p > 0 ==> IsTerminator(ts[p - 1]))
    ensures forall i | p <= i < |ts| :: !IsTerminator(ts[i])
  {
    if ts == [] then 0
    else if IsTerminator(ts[|ts| - 1]) then |ts|
    else LastStart(ts[..|ts| - 1])
  }

  /** A token that ends no group appends to the open one, or to the global options. */
  lemma OpenGroupGrows(x: Context, t: Token)
    requires TokenOk(t, |x.groups|) && !IsTerminator(t)
    ensures var o := OptOf(t);
            var y := Apply(x, t);
            && y.global == x.global + (if o.Some? && !o.value.def.perFile then [o.value] else [])
            && y.current == x.current + (if o.Some? && o.value.def.perFile then [o.value] else [])
            && y.avOptions == x.avOptions + (if t.AvOption? then [(t.key, t.val)] else [])
  {
  }

  /** The leftovers are the options after the last terminator; the global options are all the others. */
  lemma {:induction false} CurrentAndGlobal(ts: seq<Token>, nbGroups: nat)
    requires AllOk(ts, nbGroups)
    ensures var x := Build(ts, nbGroups);
            var open := ts[LastStart(ts)..];
            x.global == GlobalOpts(ts) && x.current == PerFileOpts(open) && x.avOptions == AvOptions(open)
    decreases |ts|
  {
    hide OptOf, Apply, IsTerminator;
    if ts != [] {
      var front, t := ts[..|ts| - 1], ts[|ts| - 1];
      CurrentAndGlobal(front, nbGroups);
      assert TokenOk(t, nbGroups);
      if IsTerminator(t) {
        assert ts[LastStart(ts)..] == [];
        TerminatorCloses(Build(front, nbGroups), t);
      } else {
        var open := ts[LastStart(ts)..];
        assert open[..|open| - 1] == front[LastStart(front)..] && open[|open| - 1] == t;
        OpenGroupGrows(Build(front, nbGroups), t);
      }
    }
  }

  lemma TerminatorCloses(x: Context, t: Token)
    requires TokenOk(t, |x.groups|) && IsTerminator(t)
    ensures OptOf(t).None? && !t.AvOption?
    ensures var y := Apply(x, t);
            y.global == x.global && y.current == [] && y.avOptions == []
  {
  }

  lemma {:induction false} GroupCount(ts: seq<Token>, nbGroups: nat, g: nat)
    requires AllOk(ts, nbGroups) && g < nbGroups
    ensures |Build(ts, nbGroups).groups[g]| == Terminators(ts, g)
    decreases |ts|
  {
    if ts != [] {
      GroupCount(ts[..|ts| - 1], nbGroups, g);
    }
  }

  /** Finished groups are never touched again. */
  lemma {:induction false} GroupsOnlyGrow(ts: seq<Token>, m: nat, nbGroups: nat, g: nat)
    requires AllOk(ts, nbGroups) && m <= |ts| && AllOk(ts[..m], nbGroups) && g < nbGroups
    ensures Build(ts[..m], nbGroups).groups[g] <= Build(ts, nbGroups).groups[g]
    decreases |ts|
  {
    if m == |ts| {
      assert ts[..m] == ts;
    } else {
      var front := ts[..|ts| - 1];
      assert front[..m] == ts[..m];
      GroupsOnlyGrow(front, m, nbGroups, g);
    }
  }

  /**
   The group that the terminator at j ends: it stands at the place of that terminator among those
   of its kind, and holds exactly the per-file options since the terminator before it, of any kind.
   */
  lemma GroupBetweenTerminators(ts: seq<Token>, j: nat, nbGroups: nat)
    requires AllOk(ts, nbGroups) && j < |ts| && IsTerminator(ts[j])
    ensures var g := GroupOf(ts[j]);
            var k := Terminators(ts[..j], g);
            var between := ts[LastStart(ts[..j])..j];
            && g < nbGroups && k < |Build(ts, nbGroups).groups[g]|
            && Build(ts, nbGroups).groups[g][k] == Group(ts[j].arg, PerFileOpts(between), AvOptions(between))
  {
    assert TokenOk(ts[j], nbGroups);
    hide PerFileOpts, AvOptions, GlobalOpts, LastStart, Terminators, Apply, OptOf;
    var g := GroupOf(ts[j]);
    var before, upto := ts[..j], ts[..j + 1];
    assert upto[..j] == before && upto[j] == ts[j];
    assert Build(upto, nbGroups) == Apply(Build(before, nbGroups), ts[j]);
    CurrentAndGlobal(before, nbGroups);
    assert before[LastStart(before)..] == ts[LastStart(before)..j];
    hide Build;
    GroupCount(before, nbGroups, g);
    GroupsOnlyGrow(ts, j + 1, nbGroups, g);
    TerminatorAppends(Build(before, nbGroups), ts[j]);
  }

  lemma TerminatorAppends(x: Context, t: Token)
    requires TokenOk(t, |x.groups|) && IsTerminator(t)
    ensures var g, y := GroupOf(t), Apply(x, t);
            |y.groups| == |x.groups| && y.groups[g] == x.groups[g] + [Group(t.arg, x.current, x.avOptions)]
  {
  }

  /** And no group comes from anywhere else: there are as many as terminators. */
  lemma EveryGroupHasATerminator(ts: seq<Token>, nbGroups: nat, g: nat)
    requires AllOk(ts, nbGroups) && g < nbGroups
    ensures |Build(ts, nbGroups).groups[g]| == Terminators(ts, g)
  {
    GroupCount(ts, nbGroups, g);
  }
}
