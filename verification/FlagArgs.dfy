/**
 * reorderFlagsFirst (internal/cli/flagutil.go) in front of a parser that stops
 * at the first positional, as Go's flag package does, against a parser that
 * accepts flags anywhere before "--".
 */
module FlagArgs {
  import opened Wrappers

  /** The flags defined on a flag set: whether each takes no value, and which values it accepts. */
  datatype FlagSet = FlagSet(isBool: map<string, bool>, accepts: (string, string) -> bool)

  datatype FlagError =
    | BadSyntax(token: string)
    | Unknown(name: string)
    | HelpAsked
    | NeedsValue(name: string)
    | Refused(name: string, value: string)

  datatype Setting = Setting(name: string, value: string)

  datatype Parsed = Parsed(settings: seq<Setting>, positionals: seq<string>) | Failed(error: FlagError)

  // ---- tokens ----

  predicate IsFlag(a: string) {
    |a| >= 2 && a[0] == '-'
  }

  function IndexOf(s: string, c: char, from: nat): (i: nat)
    requires from <= |s|
    ensures from <= i <= |s| && (i < |s| ==> s[i] == c) && forall k :: from <= k < i ==> s[k] != c
    decreases |s| - from
  {
    if from == |s| || s[from] == c then from else IndexOf(s, c, from + 1)
  }

  function TrimDashes(s: string): string {
    if s != "" && s[0] == '-' then TrimDashes(s[1..]) else s
  }

  /** isBoolFlag: all dashes are cut, and a value if there is one. */
  predicate IsBoolFlag(fs: FlagSet, token: string) {
    var name := TrimDashes(token);
    var bare := name[..IndexOf(name, '=', 0)];
    bare in fs.isBool && fs.isBool[bare]
  }

  /** What the flag package makes of a token: one or two dashes, a name, and a value after "=". */
  datatype Token = Token(name: string, value: Option<string>)

  function ReadToken(token: string): Option<Token>
    requires IsFlag(token)
  {
    var name := token[if token[1] == '-' then 2 else 1..];
    if name == "" || name[0] == '-' || name[0] == '=' then None
    else
      var eq := IndexOf(name, '=', 1);
      if eq < |name| then Some(Token(name[..eq], Some(name[eq + 1..]))) else Some(Token(name, None))
  }

  datatype Read = Read(setting: Setting, taken: bool)

  /** One flag: its setting and whether the next argument was taken as its value. */
  function ReadFlag(fs: FlagSet, token: string, next: Option<string>): Result<Read, FlagError>
    requires IsFlag(token)
  {
    match ReadToken(token)
    case None => Err(BadSyntax(token))
    case Some(Token(name, value)) =>
      if name !in fs.isBool then Err(if name == "help" || name == "h" then HelpAsked else Unknown(name))
      else if fs.isBool[name] && value.None? then Accept(fs, name, "true", false)
      else if value.Some? then Accept(fs, name, value.value, false)
      else if next.Some? then Accept(fs, name, next.value, true)
      else Err(NeedsValue(name))
  }

  function Accept(fs: FlagSet, name: string, value: string, taken: bool): Result<Read, FlagError> {
    if fs.accepts(name, value) then Ok(Read(Setting(name, value), taken)) else Err(Refused(name, value))
  }

  function Head(args: seq<string>): Option<string> {
    if args == [] then None else Some(args[0])
  }

  function After(args: seq<string>, taken: bool): seq<string> {
    if taken && args != [] then args[1..] else args
  }

  function Prepend(s: Setting, p: Parsed): Parsed {
    if p.Parsed? then Parsed([s] + p.settings, p.positionals) else p
  }

  /** flag.FlagSet.Parse: stops at the first positional. */
  function Parse(fs: FlagSet, args: seq<string>): Parsed
    decreases |args|
  {
    if args == [] || !IsFlag(args[0]) then Parsed([], args)
    else if args[0] == "--" then Parsed([], args[1..])
    else match ReadFlag(fs, args[0], Head(args[1..]))
      case Err(e) => Failed(e)
      case Ok(r) => Prepend(r.setting, Parse(fs, After(args[1..], r.taken)))
  }

  /** The same flags, anywhere before "--". */
  function ParseAnywhere(fs: FlagSet, args: seq<string>): Parsed
    decreases |args|
  {
    if args == [] then Parsed([], [])
    else if args[0] == "--" then Parsed([], args[1..])
    else if !IsFlag(args[0]) then
      var p := ParseAnywhere(fs, args[1..]);
      if p.Parsed? then Parsed(p.settings, [args[0]] + p.positionals) else p
    else match ReadFlag(fs, args[0], Head(args[1..]))
      case Err(e) => Failed(e)
      case Ok(r) => Prepend(r.setting, ParseAnywhere(fs, After(args[1..], r.taken)))
  }

  // ---- the reordering ----

  /** The flags with their values, and the positionals. */
  function Split(fs: FlagSet, args: seq<string>): (seq<string>, seq<string>)
    decreases |args|
  {
    if args == [] then ([], [])
    else if args[0] == "--" then ([], args[1..])
    else if !IsFlag(args[0]) then
      var (f, p) := Split(fs, args[1..]);
      (f, [args[0]] + p)
    else
      var n := if Absorbs(fs, args) then 2 else 1;
      var (f, p) := Split(fs, args[n..]);
      (args[..n] + f, p)
  }

  /** The flag at the front takes the next argument with it. */
  predicate Absorbs(fs: FlagSet, args: seq<string>)
    requires args != []
  {
    '=' !in args[0] && !IsBoolFlag(fs, args[0]) && |args| > 1 && !IsFlag(args[1])
  }

  method ReorderFlagsFirst(fs: FlagSet, args: seq<string>) returns (out: seq<string>)
    ensures out == Split(fs, args).0 + Split(fs, args).1
  {
    hide IsFlag, Absorbs, Split;
    var flags: seq<string>, positionals: seq<string> := [], [];
    var i := 0;
    assert args[0..] == args;
    while i < |args|
      invariant i <= |args|
      invariant flags + Split(fs, args[i..]).0 == Split(fs, args).0
      invariant positionals + Split(fs, args[i..]).1 == Split(fs, args).1
    {
      SplitAt(fs, args, i);
      var a := args[i];
      if a == "--" {
        positionals := positionals + args[i + 1..];
        assert flags + [] == flags;
        out := flags + positionals;
        return;
      }
      if IsFlag(a) {
        flags := flags + [a];
        if Absorbs(fs, args[i..]) {
          flags := flags + [args[i + 1]];
          i := i + 1;
        }
        i := i + 1;
        continue;
      }
      positionals := positionals + [a];
      i := i + 1;
    }
    NothingLeft(fs);
    assert args[i..] == [] && flags + [] == flags && positionals + [] == positionals;
    out := flags + positionals;
  }

  lemma {:induction false} NothingLeft(fs: FlagSet)
    ensures Split(fs, []) == ([], [])
  {}

  lemma {:induction false} SplitAt(fs: FlagSet, args: seq<string>, i: nat)
    requires i < |args|
    ensures var (f, p) := Split(fs, args[i..]);
            if args[i] == "--" then f == [] && p == args[i + 1..]
            else if !IsFlag(args[i]) then
              f == Split(fs, args[i + 1..]).0 && p == [args[i]] + Split(fs, args[i + 1..]).1
            else if Absorbs(fs, args[i..]) then
              && i + 2 <= |args| && p == Split(fs, args[i + 2..]).1
              && f == [args[i]] + [args[i + 1]] + Split(fs, args[i + 2..]).0
            else p == Split(fs, args[i + 1..]).1 && f == [args[i]] + Split(fs, args[i + 1..]).0
  {}

  lemma AbsorbsTwo(fs: FlagSet, args: seq<string>)
    requires args != [] && Absorbs(fs, args)
    ensures |args| >= 2
  {}

  // ---- which arguments come first ----

  /** The first "--", or the end. */
  function StopAt(args: seq<string>): (n: nat)
    ensures n <= |args| && (n < |args| ==> args[n] == "--") && "--" !in args[..n]
  {
    if args == [] || args[0] == "--" then 0
    else
      var n := StopAt(args[1..]);
      assert args[..n + 1] == [args[0]] + args[1..][..n];
      n + 1
  }

  /** A flag, or the value of the flag before it: one that has no "=" and is not boolean. */
  predicate Travels(fs: FlagSet, args: seq<string>, i: nat)
    requires i < |args|
  {
    || (|args[i]| >= 2 && args[i][0] == '-')
    || (i > 0 && |args[i - 1]| >= 2 && args[i - 1][0] == '-' && '=' !in args[i - 1] && !IsBoolFlag(fs, args[i - 1]))
  }

  /** The arguments from i up to the stop that travel, or those that do not, in their order. */
  function Those(fs: FlagSet, args: seq<string>, travels: bool, i: nat): seq<string>
    requires i <= StopAt(args)
    decreases StopAt(args) - i
  {
    if i == StopAt(args) then []
    else (if Travels(fs, args, i) == travels then [args[i]] else []) + Those(fs, args, travels, i + 1)
  }

  lemma {:induction false} SplitFrom(fs: FlagSet, args: seq<string>, i: nat)
    requires i <= StopAt(args)
    requires i < StopAt(args) && !IsFlag(args[i]) ==> !Travels(fs, args, i)
    ensures Split(fs, args[i..]).0 == Those(fs, args, true, i)
    ensures Split(fs, args[i..]).1 == Those(fs, args, false, i) + args[if StopAt(args) < |args| then StopAt(args) + 1 else |args|..]
    decreases StopAt(args) - i
  {
    hide IsBoolFlag, IsFlag, Absorbs, Travels, Split, StopAt, Those;
    var n := StopAt(args);
    ThoseStep(fs, args, true, i);
    ThoseStep(fs, args, false, i);
    if i == |args| {
      NothingLeft(fs);
      assert args[i..] == [];
    } else {
      SplitAt(fs, args, i);
      if i < n {
        assert args[i] in args[..n];
        TravelsNext(fs, args, i);
        if IsFlag(args[i]) && Absorbs(fs, args[i..]) {
          ThoseStep(fs, args, true, i + 1);
          ThoseStep(fs, args, false, i + 1);
          SplitFrom(fs, args, i + 2);
        } else {
          SplitFrom(fs, args, i + 1);
        }
      }
    }
  }

  lemma ThoseStep(fs: FlagSet, args: seq<string>, travels: bool, i: nat)
    requires i <= StopAt(args)
    ensures i == StopAt(args) ==> Those(fs, args, travels, i) == []
    ensures i < StopAt(args) && Travels(fs, args, i) == travels ==>
              Those(fs, args, travels, i) == [args[i]] + Those(fs, args, travels, i + 1)
    ensures i < StopAt(args) && Travels(fs, args, i) != travels ==>
              Those(fs, args, travels, i) == Those(fs, args, travels, i + 1)
  {}

  /** What a flag absorbs travels with it, and the argument after that is judged on its own. */
  lemma {:induction false} TravelsNext(fs: FlagSet, args: seq<string>, i: nat)
    requires i < StopAt(args)
    ensures IsFlag(args[i]) ==> Travels(fs, args, i)
    ensures IsFlag(args[i]) && Absorbs(fs, args[i..]) ==>
              && i + 1 < StopAt(args) && Travels(fs, args, i + 1)
              && (i + 2 < StopAt(args) && !IsFlag(args[i + 2]) ==> !Travels(fs, args, i + 2))
    ensures !(IsFlag(args[i]) && Absorbs(fs, args[i..])) && i + 1 < StopAt(args) && !IsFlag(args[i + 1]) ==>
              !Travels(fs, args, i + 1)
  {
    hide IsBoolFlag, StopAt;
    if i + 1 < |args| {
      assert args[i..][1] == args[i + 1];
      if i + 1 == StopAt(args) {
        assert args[i + 1] == "--";
      }
    }
  }

  /**
   * Up to the first "--" the flags and their values come first and all else
   * after them, both in their order; what follows "--" stays at the end and the
   * "--" goes.
   */
  lemma {:induction false} SplitMeans(fs: FlagSet, args: seq<string>)
    ensures Split(fs, args).0 == Those(fs, args, true, 0)
    ensures Split(fs, args).1 == Those(fs, args, false, 0) + args[if StopAt(args) < |args| then StopAt(args) + 1 else |args|..]
  {
    assert args[0..] == args;
    SplitFrom(fs, args, 0);
  }

  // ---- what the reordering keeps ----

  /** The flag takes the next argument as its value, whatever it looks like. */
  predicate TakesNext(fs: FlagSet, token: string)
    requires IsFlag(token)
  {
    match ReadToken(token)
    case Some(Token(name, None)) => name in fs.isBool && !fs.isBool[name]
    case _ => false
  }

  /** Before "--" and up to the first error, each flag that takes a value has one that does not look like a flag. */
  predicate ValuesFollow(fs: FlagSet, args: seq<string>)
    decreases |args|
  {
    if args == [] || args[0] == "--" then true
    else if !IsFlag(args[0]) then ValuesFollow(fs, args[1..])
    else
      && (TakesNext(fs, args[0]) ==> |args| > 1 && !IsFlag(args[1]))
      && match ReadFlag(fs, args[0], Head(args[1..]))
         case Err(_) => true
         case Ok(r) => ValuesFollow(fs, After(args[1..], r.taken))
  }

  lemma {:induction false} TrimDashesTo(s: string, i: nat)
    requires i <= |s| && (forall k :: 0 <= k < i ==> s[k] == '-') && (i < |s| ==> s[i] != '-')
    ensures TrimDashes(s) == s[i..]
  {
    if i > 0 {
      TrimDashesTo(s[1..], i - 1);
      assert s[1..][i - 1..] == s[i..];
    }
  }

  /** isBoolFlag and the "=" test read a token as the flag package does, when it is one. */
  lemma TokenAgrees(fs: FlagSet, token: string)
    requires IsFlag(token) && ReadToken(token).Some?
    ensures var t := ReadToken(token).value;
            && ('=' in token <==> t.value.Some?)
            && (IsBoolFlag(fs, token) <==> t.name in fs.isBool && fs.isBool[t.name])
  {
    var n := if token[1] == '-' then 2 else 1;
    var name := token[n..];
    TrimDashesTo(token, n);
    assert TrimDashes(token) == name;
    var eq := IndexOf(name, '=', 1);
    assert IndexOf(name, '=', 0) == eq;
    assert name[..|name|] == name;
    if '=' in token {
      var k :| 0 <= k < |token| && token[k] == '=';
      assert name[k - n] == '=';
    }
    if eq < |name| {
      assert token[n + eq] == '=';
    }
  }

  /** A flag absorbs exactly when it takes its value from the next argument. */
  lemma AbsorbsIff(fs: FlagSet, args: seq<string>)
    requires args != [] && IsFlag(args[0]) && (TakesNext(fs, args[0]) ==> |args| > 1 && !IsFlag(args[1]))
    ensures var first := ReadFlag(fs, args[0], Head(args[1..])); first.Ok? ==> first.value.taken == Absorbs(fs, args)
    ensures !TakesNext(fs, args[0]) ==>
              forall next: Option<string> :: ReadFlag(fs, args[0], next) == ReadFlag(fs, args[0], Head(args[1..]))
    ensures TakesNext(fs, args[0]) ==> Absorbs(fs, args)
  {
    hide IsBoolFlag, ReadToken;
    if ReadToken(args[0]).Some? {
      TokenAgrees(fs, args[0]);
    }
  }

  function PrependAll(s: seq<Setting>, p: Parsed): Parsed {
    if p.Parsed? then Parsed(s + p.settings, p.positionals) else p
  }

  /** The flags brought to the front are read as they were where they stood, whatever comes after them. */
  lemma {:induction false} FlagsKept(fs: FlagSet, args: seq<string>, rest: seq<string>)
    requires ValuesFollow(fs, args)
    ensures match ParseAnywhere(fs, args)
            case Failed(e) => Parse(fs, Split(fs, args).0 + rest) == Failed(e)
            case Parsed(settings, positionals) =>
              && positionals == Split(fs, args).1
              && Parse(fs, Split(fs, args).0 + rest) == PrependAll(settings, Parse(fs, rest))
    decreases |args|
  {
    hide IsFlag, ReadFlag, Absorbs, TakesNext, Parse, PrependAll, Prepend;
    if args == [] || args[0] == "--" {
      assert [] + rest == rest;
      NoSettings(Parse(fs, rest));
    } else if !IsFlag(args[0]) {
      FlagsKept(fs, args[1..], rest);
    } else {
      AbsorbsIff(fs, args);
      var n := if Absorbs(fs, args) then 2 else 1;
      if n == 2 {
        AbsorbsTwo(fs, args);
      }
      var flags := Split(fs, args[n..]).0;
      assert args[..n] + flags + rest == args[..n] + (flags + rest);
      OneFlag(fs, args, flags + rest);
      var first := ReadFlag(fs, args[0], Head(args[1..]));
      if first.Ok? {
        assert After(args[1..], n == 2) == args[n..];
        FlagsKept(fs, args[n..], rest);
        PrependTwice(first.value.setting, ParseAnywhere(fs, args[n..]), Parse(fs, rest));
      }
    }
  }

  lemma NoSettings(p: Parsed)
    ensures PrependAll([], p) == p
  {}

  lemma PrependTwice(s: Setting, p: Parsed, q: Parsed)
    ensures if p.Failed? then Prepend(s, p) == p
            else
              && Prepend(s, p) == Parsed([s] + p.settings, p.positionals)
              && PrependAll([s] + p.settings, q) == Prepend(s, PrependAll(p.settings, q))
    ensures p.Failed? ==> Prepend(s, p) == Failed(p.error)
  {}

  /** One flag at the front of the reordered arguments. */
  lemma {:induction false} OneFlag(fs: FlagSet, args: seq<string>, rest: seq<string>)
    requires args != [] && IsFlag(args[0]) && args[0] != "--"
    requires TakesNext(fs, args[0]) ==> |args| > 1 && !IsFlag(args[1])
    ensures var n := if Absorbs(fs, args) then 2 else 1;
            n <= |args| &&
            var first := ReadFlag(fs, args[0], Head(args[1..]));
            Parse(fs, args[..n] + rest)
              == if first.Err? then Failed(first.error) else Prepend(first.value.setting, Parse(fs, rest))
  {
    hide IsFlag, ReadFlag, TakesNext;
    AbsorbsIff(fs, args);
    var n := if Absorbs(fs, args) then 2 else 1;
    var all := args[..n] + rest;
    assert all[0] == args[0];
    if n == 2 {
      assert all[1..] == [args[1]] + rest && all[1..][1..] == rest;
      assert Head(all[1..]) == Some(args[1]) == Head(args[1..]);
    } else {
      assert all[1..] == rest;
    }
  }

  predicate StartsWithFlag(args: seq<string>) {
    args != [] && IsFlag(args[0])
  }

  /**
   * When every value follows its flag, reordering before a parser that stops at
   * the first positional gives what a parser that accepts flags anywhere gives,
   * exactly unless that finds a first positional that looks like a flag.
   */
  lemma {:induction false} ReorderPreserves(fs: FlagSet, args: seq<string>)
    requires ValuesFollow(fs, args)
    ensures var (flags, positionals) := Split(fs, args);
            var there := ParseAnywhere(fs, args);
            Parse(fs, flags + positionals) == there <==> there.Failed? || !StartsWithFlag(there.positionals)
  {
    hide ParseAnywhere, Split, ValuesFollow, IsFlag;
    var (flags, positionals) := Split(fs, args);
    FlagsKept(fs, args, positionals);
    var there := ParseAnywhere(fs, args);
    if there.Parsed? && StartsWithFlag(positionals) {
      FlagLost(fs, positionals);
    }
  }

  /** A positional that looks like a flag is not returned as the first positional. */
  lemma {:induction false} FlagLost(fs: FlagSet, args: seq<string>)
    requires StartsWithFlag(args)
    ensures Parse(fs, args) != Parsed([], args)
  {}

  /** Such a positional can only come after "--", which the reordering drops. */
  lemma {:induction false} OnlyAfterStop(fs: FlagSet, args: seq<string>)
    requires ParseAnywhere(fs, args).Parsed? && StartsWithFlag(ParseAnywhere(fs, args).positionals)
    ensures "--" in args
    decreases |args|
  {
    if args != [] && args[0] != "--" && IsFlag(args[0]) {
      var rest := After(args[1..], ReadFlag(fs, args[0], Head(args[1..])).value.taken);
      OnlyAfterStop(fs, rest);
      assert forall a <- rest :: a in args;
    }
  }

  /** For one, a flag and a name after "--": the name counts as a flag and is not known. */
  lemma {:induction false} DashesDropped(fs: FlagSet)
    requires "x" !in fs.isBool
    ensures ParseAnywhere(fs, ["--", "-x"]) == Parsed([], ["-x"])
    ensures Parse(fs, Split(fs, ["--", "-x"]).0 + Split(fs, ["--", "-x"]).1) == Failed(Unknown("x"))
  {}
}
