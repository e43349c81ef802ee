/** Reordering a command line so that flags come first, against the rules of Go's flag package, which stops at the
    first positional. */
module Flags {
  /** Defined flags, and which of them are bool flags. */
  type FlagSet = map<string, bool>

  predicate IsFlagToken(tok: string) {
    |tok| > 1 && tok[0] == '-'
  }

  function TrimDashes(s: string): string {
    if s != "" && s[0] == '-' then TrimDashes(s[1..]) else s
  }

  predicate TakesNext(fs: FlagSet, tok: string) {
    '=' !in tok && TrimDashes(tok) in fs && !fs[TrimDashes(tok)]
  }

  /** The flag tokens with their values, and the rest. */
  function Scan(fs: FlagSet, args: seq<string>): (seq<string>, seq<string>) {
    if args == [] then ([], [])
    else if args[0] == "--" then ([], args[1..])
    else if !IsFlagToken(args[0]) then
      var r := Scan(fs, args[1..]);
      (r.0, [args[0]] + r.1)
    else if TakesNext(fs, args[0]) && |args| > 1 then
      var r := Scan(fs, args[2..]);
      ([args[0], args[1]] + r.0, r.1)
    else
      var r := Scan(fs, args[1..]);
      ([args[0]] + r.0, r.1)
  }

  /** What the loop does at token `i`. */
  lemma ScanFrom(fs: FlagSet, args: seq<string>, i: nat)
    requires i < |args|
    ensures var tok, s := args[i], Scan(fs, args[i..]);
      if tok == "--" then s == ([], args[i + 1..])
      else if !IsFlagToken(tok) then s == (Scan(fs, args[i + 1..]).0, [tok] + Scan(fs, args[i + 1..]).1)
      else if TakesNext(fs, tok) && i + 1 < |args| then
        s == ([tok, args[i + 1]] + Scan(fs, args[i + 2..]).0, Scan(fs, args[i + 2..]).1)
      else s == ([tok] + Scan(fs, args[i + 1..]).0, Scan(fs, args[i + 1..]).1)
  {
    assert args[i..][1..] == args[i + 1..];
    if i + 1 < |args| { assert args[i..][2..] == args[i + 2..]; }
  }

  /** After `i` tokens, `f` and `p` are what has been set aside. */
  predicate Progress(fs: FlagSet, args: seq<string>, i: nat, f: seq<string>, p: seq<string>) {
    i <= |args| && Scan(fs, args) == (f + Scan(fs, args[i..]).0, p + Scan(fs, args[i..]).1)
  }

  lemma ProgressStep(fs: FlagSet, args: seq<string>, i: nat, f: seq<string>, p: seq<string>)
    requires i < |args| && Progress(fs, args, i, f, p)
    ensures var tok := args[i];
      if tok == "--" then Scan(fs, args) == (f, p + args[i + 1..])
      else if !IsFlagToken(tok) then Progress(fs, args, i + 1, f, p + [tok])
      else if TakesNext(fs, tok) && i + 1 < |args| then Progress(fs, args, i + 2, f + [tok] + [args[i + 1]], p)
      else Progress(fs, args, i + 1, f + [tok], p)
  {
    hide Scan, IsFlagToken, TakesNext;
    ScanFrom(fs, args, i);
    var tok := args[i];
    if tok == "--" {
      assert f + [] == f;
    } else if !IsFlagToken(tok) {
      assert p + ([tok] + Scan(fs, args[i + 1..]).1) == p + [tok] + Scan(fs, args[i + 1..]).1;
    } else if TakesNext(fs, tok) && i + 1 < |args| {
      var r := Scan(fs, args[i + 2..]).0;
      assert f + ([tok, args[i + 1]] + r) == f + [tok] + [args[i + 1]] + r;
    } else {
      assert f + ([tok] + Scan(fs, args[i + 1..]).0) == f + [tok] + Scan(fs, args[i + 1..]).0;
    }
  }

  lemma ProgressEnds(fs: FlagSet, args: seq<string>, f: seq<string>, p: seq<string>)
    ensures Progress(fs, args, 0, [], [])
    ensures Progress(fs, args, |args|, f, p) ==> Scan(fs, args) == (f, p)
  {
    assert args[0..] == args && args[|args|..] == [];
    assert [] + Scan(fs, args).0 == Scan(fs, args).0 && [] + Scan(fs, args).1 == Scan(fs, args).1;
    assert f + [] == f && p + [] == p;
  }

  method ReorderFlagsFirst(fs: FlagSet, args: seq<string>) returns (reordered: seq<string>)
    ensures reordered == Scan(fs, args).0 + Scan(fs, args).1
  {
    hide Scan, IsFlagToken, TrimDashes, Progress;
    var flagTokens: seq<string>, positionalTokens: seq<string>, i := [], [], 0;
    ProgressEnds(fs, args, [], []);
    while i < |args|
      invariant i <= |args| && Progress(fs, args, i, flagTokens, positionalTokens)
    {
      var tok := args[i];
      ProgressStep(fs, args, i, flagTokens, positionalTokens);
      if tok == "--" {
        return flagTokens + (positionalTokens + args[i + 1..]);
      }
      if IsFlagToken(tok) {
        flagTokens := flagTokens + [tok];
        if '=' in tok {
          i := i + 1;
          continue;
        }
        var name := TrimDashes(tok);
        if name in fs && !fs[name] && i + 1 < |args| {
          i := i + 1;
          flagTokens := flagTokens + [args[i]];
        }
        i := i + 1;
      } else {
        positionalTokens := positionalTokens + [tok];
        i := i + 1;
      }
    }
    ProgressEnds(fs, args, flagTokens, positionalTokens);
    reordered := flagTokens + positionalTokens;
  }

  // ---- Go's rules -----------------------------------------------------------------------------------------------

  datatype Error = BadSyntax(tok: string) | Undefined(name: string) | NeedsValue(name: string)

  datatype Parsed = Ok(flags: seq<(string, string)>, positionals: seq<string>) | Err(error: Error)

  datatype One = Stop(rest: seq<string>) | Fail(error: Error) | Flag(name: string, value: string, rest: seq<string>)

  function IndexOf(s: string, c: char): (i: nat)
    ensures i <= |s| && (i < |s| ==> s[i] == c) && c !in s[..i]
  {
    if s == "" || s[0] == c then 0 else
      var i := IndexOf(s[1..], c) + 1;
      assert s[..i] == [s[0]] + s[1..][..i - 1];
      i
  }

  function NameOf(tok: string): string
    requires IsFlagToken(tok)
  {
    if tok[1] == '-' then tok[2..] else tok[1..]
  }

  /** One step of the parser: nothing more to parse, a mistake, or a flag and what follows it. */
  function ParseOne(fs: FlagSet, args: seq<string>): (one: One)
    ensures one.Flag? ==> |one.rest| < |args|
  {
    if args == [] || !IsFlagToken(args[0]) then Stop(args)
    else if args[0] == "--" then Stop(args[1..])
    else
      var text := NameOf(args[0]);
      if text == "" || text[0] == '-' || text[0] == '=' then Fail(BadSyntax(args[0]))
      else
        var i := IndexOf(text, '=');
        var name := text[..i];
        if name !in fs then Fail(Undefined(name))
        else if i < |text| then Flag(name, text[i + 1..], args[1..])
        else if fs[name] then Flag(name, "true", args[1..])
        else if |args| > 1 then Flag(name, args[1], args[2..])
        else Fail(NeedsValue(name))
  }

  function WithFlag(name: string, value: string, p: Parsed): Parsed {
    if p.Err? then p else Ok([(name, value)] + p.flags, p.positionals)
  }

  function GoParse(fs: FlagSet, args: seq<string>): Parsed
    decreases |args|
  {
    match ParseOne(fs, args)
    case Stop(rest) => Ok([], rest)
    case Fail(e) => Err(e)
    case Flag(name, value, rest) => WithFlag(name, value, GoParse(fs, rest))
  }

  /** The same flags, wherever they stand: a positional is set aside and parsing goes on, up to the terminator. */
  function ParseAnywhere(fs: FlagSet, args: seq<string>): Parsed
    decreases |args|
  {
    if args == [] then Ok([], [])
    else if args[0] == "--" then Ok([], args[1..])
    else if !IsFlagToken(args[0]) then
      var p := ParseAnywhere(fs, args[1..]);
      if p.Err? then p else p.(positionals := [args[0]] + p.positionals)
    else
      match ParseOne(fs, args)
      case Stop(rest) => Ok([], rest)
      case Fail(e) => Err(e)
      case Flag(name, value, rest) => WithFlag(name, value, ParseAnywhere(fs, rest))
  }

  /** A lone dash, like any token that does not begin with one, is a positional: Go stops at it, and reordering sets it
      aside. The terminator is dropped by both. */
  lemma PlainTokens(fs: FlagSet, tok: string, rest: seq<string>)
    requires tok == "" || tok == "-" || tok[0] != '-'
    ensures ParseOne(fs, [tok] + rest) == Stop([tok] + rest)
    ensures Scan(fs, [tok] + rest) == (Scan(fs, rest).0, [tok] + Scan(fs, rest).1)
    ensures ParseOne(fs, ["--"] + rest) == Stop(rest) && Scan(fs, ["--"] + rest) == ([], rest)
  {
    assert ([tok] + rest)[1..] == rest && (["--"] + rest)[1..] == rest;
  }

  /** What a defined flag means, in each of its forms, with one dash or two. */
  lemma FlagForms(fs: FlagSet, name: string, value: string, rest: seq<string>, dash: string)
    requires dash in {"-", "--"} && name != "" && name[0] != '-' && '=' !in name && name in fs
    ensures ParseOne(fs, [dash + name + "=" + value] + rest) == Flag(name, value, rest)
    ensures fs[name] ==> ParseOne(fs, [dash + name] + rest) == Flag(name, "true", rest)
    ensures !fs[name] ==> ParseOne(fs, [dash + name, value] + rest) == Flag(name, value, rest)
    ensures !fs[name] ==> ParseOne(fs, [dash + name]) == Fail(NeedsValue(name))
  {
    hide ParseOne;
    assert dash + (name + "=" + value) == dash + name + "=" + value;
    FirstEquals(name, value);
    NamedBehindDashes(dash, name + "=" + value);
    NamedBehindDashes(dash, name);
    OneToken(fs, dash + name + "=" + value, rest);
    OneToken(fs, dash + name, rest);
    OneToken(fs, dash + name, []);
    assert [dash + name] + [] == [dash + name];
    OneToken(fs, dash + name, [value] + rest);
    assert [dash + name, value] + rest == [dash + name] + ([value] + rest) && ([value] + rest)[1..] == rest;
  }

  lemma OneToken(fs: FlagSet, tok: string, rest: seq<string>)
    requires IsFlagToken(tok) && tok != "--" && NameOf(tok) != "" && NameOf(tok)[0] != '-' && NameOf(tok)[0] != '='
    requires NameOf(tok)[..IndexOf(NameOf(tok), '=')] in fs
    ensures var text := NameOf(tok); var i := IndexOf(text, '='); var name := text[..i];
      ParseOne(fs, [tok] + rest) == (
        if i < |text| then Flag(name, text[i + 1..], rest)
        else if fs[name] then Flag(name, "true", rest)
        else if rest != [] then Flag(name, rest[0], rest[1..])
        else Fail(NeedsValue(name)))
  {
    hide IndexOf;
    var args := [tok] + rest;
    assert args[1..] == rest && (rest != [] ==> args[2..] == rest[1..]);
  }

  lemma NamedBehindDashes(dash: string, text: string)
    requires dash in {"-", "--"} && text != "" && text[0] != '-'
    ensures IsFlagToken(dash + text) && dash + text != "--" && NameOf(dash + text) == text
  {
    assert (dash + text)[|dash|] == text[0];
  }

  lemma FirstEquals(name: string, value: string)
    requires '=' !in name
    ensures var text := name + "=" + value; IndexOf(text, '=') == |name| && text[..|name|] == name && text[|name| + 1..] == value
    ensures IndexOf(name, '=') == |name| && name[..|name|] == name
  {
    hide IndexOf;
    var text := name + "=" + value;
    assert text[|name|] == '=';
    assert forall j | 0 <= j < |name| :: text[j] == name[j] && name[j] in name;
    assert forall j | |name| < j <= |text| :: text[..j][|name|] in text[..j];
  }

  // ---- When the two agree -----------------------------------------------------------------------------------------

  lemma NoDashesToTrim(s: string)
    ensures s == "" || s[0] != '-' ==> TrimDashes(s) == s
    ensures s != "" && s[0] == '-' ==> TrimDashes(s) == TrimDashes(s[1..])
  {
  }

  /** How many tokens a flag takes along, itself included. */
  function Taken(fs: FlagSet, args: seq<string>): (n: nat)
    requires args != []
    ensures 1 <= n <= |args|
  {
    if TakesNext(fs, args[0]) && |args| > 1 then 2 else 1
  }

  lemma ScanTaken(fs: FlagSet, args: seq<string>)
    requires args != [] && args[0] != "--" && IsFlagToken(args[0])
    ensures var n := Taken(fs, args); Scan(fs, args) == (args[..n] + Scan(fs, args[n..]).0, Scan(fs, args[n..]).1)
  {
    var n := Taken(fs, args);
    assert args[..n] == if n == 2 then [args[0], args[1]] else [args[0]];
  }

  /** On a token that Go accepts, reordering takes along the value exactly when Go does. */
  lemma SameValue(fs: FlagSet, args: seq<string>)
    requires args != [] && IsFlagToken(args[0]) && args[0] != "--"
    ensures ParseOne(fs, args).Flag? ==>
      ParseOne(fs, args).rest == args[Taken(fs, args)..]
    ensures !ParseOne(fs, args).Stop?
    ensures ParseOne(fs, args).Fail? && ParseOne(fs, args).error.NeedsValue? ==> |args| == 1 && TakesNext(fs, args[0])
  {
    var tok := args[0];
    var text := NameOf(tok);
    NoDashesToTrim(tok);
    NoDashesToTrim(tok[1..]);
    if text != "" && text[0] != '-' && text[0] != '=' {
      NoDashesToTrim(text);
      assert TrimDashes(tok) == text;
      var i := IndexOf(text, '=');
      if i < |text| {
        assert text[i] in tok;
      } else {
        assert text[..i] == text;
        assert '=' !in tok;
      }
    }
  }

  /** The command line ends in a flag that wants a value, with nothing wrong before it. */
  predicate Dangling(fs: FlagSet, args: seq<string>)
    decreases |args|
  {
    && args != [] && args[0] != "--"
    && if !IsFlagToken(args[0]) then Dangling(fs, args[1..])
       else match ParseOne(fs, args)
            case Stop(_) => false
            case Fail(e) => e.NeedsValue?
            case Flag(_, _, rest) => Dangling(fs, rest)
  }

  lemma {:induction false} OnlyDanglingWantsValue(fs: FlagSet, args: seq<string>)
    ensures Dangling(fs, args) <==> ParseAnywhere(fs, args).Err? && ParseAnywhere(fs, args).error.NeedsValue?
    decreases |args|
  {
    if args != [] && args[0] != "--" {
      if !IsFlagToken(args[0]) { OnlyDanglingWantsValue(fs, args[1..]); }
      else {
        SameValue(fs, args);
        var one := ParseOne(fs, args);
        if one.Flag? { OnlyDanglingWantsValue(fs, one.rest); }
      }
    }
  }

  predicate UpFront(fs: FlagSet, args: seq<string>, more: seq<string>) {
    var f, anywhere := Scan(fs, args).0, ParseAnywhere(fs, args);
    if anywhere.Err? then GoParse(fs, f + more) == anywhere
    else Scan(fs, args).1 == anywhere.positionals && GoParse(fs, f + more) == Prepend(anywhere.flags, GoParse(fs, more))
  }

  /** The flags up front are parsed as they would be in place, whatever follows them. */
  lemma {:induction false} FlagsUpFront(fs: FlagSet, args: seq<string>, more: seq<string>)
    requires !Dangling(fs, args)
    ensures UpFront(fs, args, more)
    decreases |args|
  {
    hide IsFlagToken, ParseOne, TakesNext, UpFront;
    if args == [] || args[0] == "--" {
      NoFlagsUpFront(fs, args, more);
    } else if !IsFlagToken(args[0]) {
      FlagsUpFront(fs, args[1..], more);
      PositionalStep(fs, args, more);
    } else {
      SameValue(fs, args);
      if ParseOne(fs, args).Flag? { FlagsUpFront(fs, args[Taken(fs, args)..], more); }
      FlagStep(fs, args, more);
    }
  }

  lemma NoFlagsUpFront(fs: FlagSet, args: seq<string>, more: seq<string>)
    requires args == [] || args[0] == "--"
    ensures UpFront(fs, args, more)
  {
    hide GoParse;
    assert [] + more == more;
  }

  lemma PositionalStep(fs: FlagSet, args: seq<string>, more: seq<string>)
    requires args != [] && args[0] != "--" && !IsFlagToken(args[0]) && UpFront(fs, args[1..], more)
    ensures UpFront(fs, args, more)
  {
  }

  lemma FlagStep(fs: FlagSet, args: seq<string>, more: seq<string>)
    requires args != [] && args[0] != "--" && IsFlagToken(args[0]) && !Dangling(fs, args)
    requires ParseOne(fs, args).Flag? ==> UpFront(fs, args[Taken(fs, args)..], more)
    ensures UpFront(fs, args, more)
  {
    hide IsFlagToken, TakesNext, ParseOne, Scan;
    SameValue(fs, args);
    var n := Taken(fs, args);
    ScanTaken(fs, args);
    var f := Scan(fs, args[n..]).0;
    assert Scan(fs, args).0 + more == args[..n] + (f + more);
    HeadInContext(fs, args, n, f + more);
  }

  /** The first flag of a line, with its value, is parsed alike before any other continuation. */
  lemma HeadInContext(fs: FlagSet, args: seq<string>, taken: nat, more: seq<string>)
    requires args != [] && IsFlagToken(args[0]) && args[0] != "--"
    requires taken == Taken(fs, args)
    requires ParseOne(fs, args).Fail? ==> !ParseOne(fs, args).error.NeedsValue?
    ensures var one, one' := ParseOne(fs, args), ParseOne(fs, args[..taken] + more);
      && (one.Fail? ==> one' == one)
      && (one.Flag? ==> one' == Flag(one.name, one.value, more))
  {
    SameValue(fs, args);
    SameValue(fs, args[..taken] + more);
  }

  function Prepend(flags: seq<(string, string)>, p: Parsed): Parsed {
    if p.Err? then p else Ok(flags + p.flags, p.positionals)
  }

  /** Reordering loses the meaning of the line. The flag at its end takes the first positional for its value; or the
      positionals begin with something that looks like a flag, as only a terminator lets them. */
  predicate Hazard(fs: FlagSet, args: seq<string>) {
    var p := Scan(fs, args).1;
    p != [] && (Dangling(fs, args) || (IsFlagToken(p[0]) && ParseAnywhere(fs, args).Ok?))
  }

  /** Parsing the reordered line by Go's rules gives what a parser that looks everywhere gives, mistakes included,
      exactly when there is no such hazard. */
  lemma ReorderingIsFaithful(fs: FlagSet, args: seq<string>)
    ensures GoParse(fs, Scan(fs, args).0 + Scan(fs, args).1) == ParseAnywhere(fs, args) <==> !Hazard(fs, args)
  {
    hide IsFlagToken, ParseOne, Scan, GoParse;
    var f, p := Scan(fs, args).0, Scan(fs, args).1;
    OnlyDanglingWantsValue(fs, args);
    if Dangling(fs, args) {
      PlainPositionals(fs, args);
      DanglingTakesThePositional(fs, args, p);
    } else {
      FlagsUpFront(fs, args, p);
      GoStops(fs, p);
    }
  }

  lemma {:induction false} PlainPositionals(fs: FlagSet, args: seq<string>)
    requires Dangling(fs, args)
    ensures forall x | x in Scan(fs, args).1 :: !IsFlagToken(x)
    decreases |args|
  {
    hide IsFlagToken;
    if !IsFlagToken(args[0]) {
      PlainPositionals(fs, args[1..]);
    } else {
      SameValue(fs, args);
      ScanTaken(fs, args);
      if ParseOne(fs, args).Flag? { PlainPositionals(fs, args[Taken(fs, args)..]); } else { assert args[1..] == []; }
    }
  }

  lemma {:induction false} GoKeepsLess(fs: FlagSet, args: seq<string>)
    ensures GoParse(fs, args).Ok? ==> |GoParse(fs, args).positionals| <= |args|
    decreases |args|
  {
    var one := ParseOne(fs, args);
    if one.Flag? { GoKeepsLess(fs, one.rest); }
  }

  /** Go leaves a list of positionals alone exactly when it does not begin like a flag. */
  lemma GoStops(fs: FlagSet, p: seq<string>)
    ensures GoParse(fs, p) == Ok([], p) <==> p == [] || !IsFlagToken(p[0])
    ensures GoParse(fs, p).Ok? && p != [] && IsFlagToken(p[0]) ==> |GoParse(fs, p).positionals| < |p|
  {
    var one := ParseOne(fs, p);
    if one.Flag? { GoKeepsLess(fs, one.rest); }
  }

  /** Before a value-less flag at the end the flags parse alike; the flag itself swallows what is put behind it. */
  lemma {:induction false} DanglingTakesThePositional(fs: FlagSet, args: seq<string>, more: seq<string>)
    requires Dangling(fs, args) && (|more| > 1 ==> !IsFlagToken(more[1]))
    ensures more == [] ==> GoParse(fs, Scan(fs, args).0 + more) == ParseAnywhere(fs, args)
    ensures more != [] ==> GoParse(fs, Scan(fs, args).0 + more).Ok?
    decreases |args|
  {
    hide IsFlagToken, TakesNext, Scan;
    var f := Scan(fs, args).0 + more;
    if !IsFlagToken(args[0]) {
      ScanFrom(fs, args, 0);
      assert args[0..] == args;
      OnlyDanglingWantsValue(fs, args[1..]);
      DanglingTakesThePositional(fs, args[1..], more);
    } else {
      SameValue(fs, args);
      ScanTaken(fs, args);
      var n := Taken(fs, args);
      var rest := Scan(fs, args[n..]).0 + more;
      assert f == args[..n] + rest;
      if ParseOne(fs, args).Flag? {
        DanglingTakesThePositional(fs, args[n..], more);
        HeadInContext(fs, args, n, rest);
      } else {
        EndOfLine(fs, args, more);
      }
    }
  }

  lemma EndOfLine(fs: FlagSet, args: seq<string>, more: seq<string>)
    requires args != [] && IsFlagToken(args[0]) && args[0] != "--"
    requires ParseOne(fs, args).Fail? && ParseOne(fs, args).error.NeedsValue? && (|more| > 1 ==> !IsFlagToken(more[1]))
    ensures Scan(fs, args).0 == args
    ensures more == [] ==> GoParse(fs, args + more) == Err(ParseOne(fs, args).error)
    ensures more != [] ==> GoParse(fs, args + more).Ok?
  {
    SameValue(fs, args);
    assert args[1..] == [];
    if more == [] {
      assert args + more == args;
    } else {
      assert (args + more)[2..] == more[1..];
      GoStops(fs, more[1..]);
    }
  }

  // ---- Reordering again -------------------------------------------------------------------------------------------

  /** The terminator is reached, and not swallowed as a value. */
  predicate Terminated(fs: FlagSet, args: seq<string>) {
    && args != []
    && (args[0] == "--" || Terminated(fs, args[if IsFlagToken(args[0]) then Taken(fs, args) else 1..]))
  }

  predicate Plain(p: seq<string>) {
    forall i | 0 <= i < |p| :: !IsFlagToken(p[i])
  }

  lemma {:induction false} PlainStays(fs: FlagSet, p: seq<string>)
    requires Plain(p)
    ensures Scan(fs, p) == ([], p)
  {
    if p != [] {
      PlainStays(fs, p[1..]);
      assert IsFlagToken("--") && p[0] != "--";
      assert [p[0]] + p[1..] == p;
    }
  }

  lemma {:induction false} PositionalsArePlain(fs: FlagSet, args: seq<string>)
    requires !Terminated(fs, args)
    ensures Plain(Scan(fs, args).1)
  {
    hide IsFlagToken;
    if args != [] {
      if !IsFlagToken(args[0]) {
        PositionalsArePlain(fs, args[1..]);
      } else {
        ScanTaken(fs, args);
        PositionalsArePlain(fs, args[Taken(fs, args)..]);
      }
    }
  }

  /** Reordering leaves it as it is. */
  predicate Settled(fs: FlagSet, line: seq<string>) {
    Scan(fs, line).0 + Scan(fs, line).1 == line
  }

  lemma FlagThenSettled(fs: FlagSet, line: seq<string>)
    requires line != [] && IsFlagToken(line[0]) && line[0] != "--" && Settled(fs, line[Taken(fs, line)..])
    ensures Settled(fs, line)
  {
    hide Scan, IsFlagToken;
    ScanTaken(fs, line);
    var n := Taken(fs, line);
    var rest := line[n..];
    assert line[..n] + Scan(fs, rest).0 + Scan(fs, rest).1 == line[..n] + (Scan(fs, rest).0 + Scan(fs, rest).1);
  }

  lemma PlainIsSettled(fs: FlagSet, p: seq<string>)
    requires Plain(p)
    ensures Settled(fs, p)
  {
    PlainStays(fs, p);
    assert [] + p == p;
  }

  lemma {:induction false} FlagsStayInFront(fs: FlagSet, args: seq<string>, p: seq<string>)
    requires !Terminated(fs, args) && Plain(p)
    ensures Settled(fs, Scan(fs, args).0 + p)
  {
    hide IsFlagToken, TakesNext, Settled, Plain;
    if args == [] {
      PlainIsSettled(fs, p);
      assert [] + p == p;
    } else if !IsFlagToken(args[0]) {
      FlagsStayInFront(fs, args[1..], p);
    } else {
      FlagsStayInFront(fs, args[Taken(fs, args)..], p);
      FlagStaysInFront(fs, args, p);
    }
  }

  /** A flag at the end of the line takes the first positional, which thereby stays where it is. */
  lemma FlagStaysInFront(fs: FlagSet, args: seq<string>, p: seq<string>)
    requires args != [] && IsFlagToken(args[0]) && args[0] != "--" && Plain(p)
    requires Settled(fs, Scan(fs, args[Taken(fs, args)..]).0 + p)
    ensures Settled(fs, Scan(fs, args).0 + p)
  {
    hide IsFlagToken, TakesNext, Settled;
    var n := Taken(fs, args);
    ScanTaken(fs, args);
    var rest := Scan(fs, args[n..]).0 + p;
    var line := args[..n] + rest;
    assert Scan(fs, args).0 + p == line;
    if Taken(fs, line) == n {
      assert line[n..] == rest;
    } else {
      assert |args| == 1 && Scan(fs, args[1..]).0 == [];
      assert line[2..] == p[1..];
      PlainIsSettled(fs, p[1..]);
    }
    FlagThenSettled(fs, line);
  }

  /** Without a terminator, reordering a reordered line changes nothing. */
  lemma ReorderTwice(fs: FlagSet, args: seq<string>)
    requires !Terminated(fs, args)
    ensures Settled(fs, Scan(fs, args).0 + Scan(fs, args).1)
  {
    PositionalsArePlain(fs, args);
    FlagsStayInFront(fs, args, Scan(fs, args).1);
  }

  /** Before a terminator no flag is short of its value, and the flags up front are scanned alike before anything. */
  lemma {:induction false} FlagsScanAlike(fs: FlagSet, args: seq<string>, q: seq<string>)
    requires Terminated(fs, args)
    ensures Scan(fs, Scan(fs, args).0 + q) == (Scan(fs, args).0 + Scan(fs, q).0, Scan(fs, q).1)
  {
    hide IsFlagToken, TakesNext, Scan;
    if args[0] == "--" {
      NothingBefore(fs, args);
      assert [] + q == q && [] + Scan(fs, q).0 == Scan(fs, q).0;
    } else if !IsFlagToken(args[0]) {
      FlagsScanAlike(fs, args[1..], q);
      SetAside(fs, args);
    } else {
      FlagsScanAlike(fs, args[Taken(fs, args)..], q);
      FlagScansAlike(fs, args, q);
    }
  }

  lemma FlagScansAlike(fs: FlagSet, args: seq<string>, q: seq<string>)
    requires args != [] && args[0] != "--" && IsFlagToken(args[0]) && Terminated(fs, args[Taken(fs, args)..])
    requires var rest := Scan(fs, args[Taken(fs, args)..]).0;
      Scan(fs, rest + q) == (rest + Scan(fs, q).0, Scan(fs, q).1)
    ensures Scan(fs, Scan(fs, args).0 + q) == (Scan(fs, args).0 + Scan(fs, q).0, Scan(fs, q).1)
  {
    hide IsFlagToken, TakesNext, Scan;
    var n := Taken(fs, args);
    var rest := Scan(fs, args[n..]).0;
    ScanTaken(fs, args);
    assert |args| > 1;
    var line := args[..n] + (rest + q);
    assert Scan(fs, args).0 + q == line;
    assert Taken(fs, line) == n && line[n..] == rest + q && line[..n] == args[..n];
    ScanTaken(fs, line);
    assert args[..n] + (rest + Scan(fs, q).0) == Scan(fs, args).0 + Scan(fs, q).0;
  }

  lemma NothingBefore(fs: FlagSet, args: seq<string>)
    requires args != [] && args[0] == "--"
    ensures Scan(fs, args) == ([], args[1..])
  {
  }

  lemma SetAside(fs: FlagSet, args: seq<string>)
    requires args != [] && args[0] != "--" && !IsFlagToken(args[0])
    ensures Scan(fs, args) == (Scan(fs, args[1..]).0, [args[0]] + Scan(fs, args[1..]).1)
  {
  }

  /** Flags with their values, then tokens that look like no flag. */
  predicate InFront(fs: FlagSet, p: seq<string>)
    decreases |p|
  {
    p == [] || if IsFlagToken(p[0]) && p[0] != "--" then InFront(fs, p[Taken(fs, p)..]) else Plain(p)
  }

  /** What the scan sets aside up front begins with a flag; if that is nothing and nothing is lost, there was none. */
  lemma {:induction false} NoFlagsNoneLost(fs: FlagSet, q: seq<string>)
    ensures |Scan(fs, q).0| + |Scan(fs, q).1| <= |q|
    ensures Scan(fs, q).0 != [] ==> IsFlagToken(Scan(fs, q).0[0])
    ensures Scan(fs, q).0 == [] && |Scan(fs, q).1| == |q| ==> Plain(q)
  {
    hide IsFlagToken, TakesNext;
    if q != [] && q[0] != "--" {
      if !IsFlagToken(q[0]) {
        NoFlagsNoneLost(fs, q[1..]);
        assert q == [q[0]] + q[1..];
      } else {
        NoFlagsNoneLost(fs, q[Taken(fs, q)..]);
        ScanTaken(fs, q);
      }
    }
  }

  /** Reordering leaves a line as it is exactly when its flags are in front. */
  lemma {:induction false} SettledIsInFront(fs: FlagSet, p: seq<string>)
    ensures Settled(fs, p) <==> InFront(fs, p)
    decreases |p|
  {
    hide IsFlagToken, TakesNext, Scan, Plain;
    if p == [] {
      PlainIsSettled(fs, p);
    } else if IsFlagToken(p[0]) && p[0] != "--" {
      var n := Taken(fs, p);
      SettledIsInFront(fs, p[n..]);
      ScanTaken(fs, p);
      assert p == p[..n] + p[n..];
      var r := Scan(fs, p[n..]);
      assert p[..n] + r.0 + r.1 == p[..n] + (r.0 + r.1);
      assert (p[..n] + (r.0 + r.1))[n..] == r.0 + r.1;
    } else {
      NoFlagsNoneLost(fs, p);
      if Plain(p) {
        PlainIsSettled(fs, p);
      } else if p[0] == "--" {
        NothingBefore(fs, p);
      }
    }
  }

  /** Reordering a reordered line changes nothing exactly when, among the positionals and what the terminator
      protected, flags stand in front only. */
  lemma ReorderTwiceExactly(fs: FlagSet, args: seq<string>)
    ensures Settled(fs, Scan(fs, args).0 + Scan(fs, args).1) <==> InFront(fs, Scan(fs, args).1)
  {
    hide IsFlagToken, TakesNext, Scan, Plain;
    var f, p := Scan(fs, args).0, Scan(fs, args).1;
    if Terminated(fs, args) {
      FlagsScanAlike(fs, args, p);
      var r := Scan(fs, p);
      assert f + r.0 + r.1 == f + (r.0 + r.1);
      assert (f + (r.0 + r.1))[|f|..] == r.0 + r.1 && (f + p)[|f|..] == p;
      SettledIsInFront(fs, p);
    } else {
      ReorderTwice(fs, args);
      PositionalsArePlain(fs, args);
      PlainIsInFront(fs, p);
    }
  }

  lemma PlainIsInFront(fs: FlagSet, p: seq<string>)
    requires Plain(p)
    ensures InFront(fs, p)
  {
  }

  /** With one, it may: the terminator is gone after the first time, and what it protected is a flag again. */
  lemma TerminatorIsLost(fs: FlagSet, a: string, t: string)
    requires !IsFlagToken(a) && IsFlagToken(t) && t != "--"
    ensures Scan(fs, [a, "--", t]) == ([], [a, t])
    ensures Scan(fs, [a, t]) == ([t], [a])
  {
    assert IsFlagToken("--");
    var protected, exposed := [a, "--", t], [a, t];
    assert protected[1..] == ["--", t] && ["--", t][1..] == [t];
    assert Scan(fs, ["--", t]) == ([], [t]);
    assert [a] + [t] == [a, t];
    assert [t][1..] == [] && [t] + [] == [t] && Scan(fs, []) == ([], []);
    assert Scan(fs, [t]) == ([t], []);
    assert exposed[1..] == [t];
    assert [a] + [] == [a];
  }
}
