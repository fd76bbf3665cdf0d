/**
 * Values of non-secret config fields: what a spec may say (SidecarMeta.Validate
 * in internal/config/meta.go), what register stores (canonicalizeFieldValue and
 * handleOneField in internal/cli/register.go), and what launch accepts
 * (ConfigSpec.ValidateValue).
 */
module FieldValues {
  import opened Wrappers

  datatype FieldType = Text | Bool | Int | Enum | Other(name: string)

  /** A field spec; fieldType is the effective type, with the empty one read as string. */
  datatype Spec = Spec(
    name: string, fieldType: FieldType, required: bool, default: string, defaultFromEnv: string, pattern: string,
    choices: seq<string>)

  /** The regular expression library: which patterns compile, and what they match. */
  datatype Regexp = Regexp(compiles: string -> bool, matches: (string, string) -> bool)

  // ---- strings and strconv ----

  /** unicode.IsSpace. */
  predicate IsSpace(c: char) {
    || '\t' <= c <= '\r' || c == ' ' || c == '\U{0085}' || c == '\U{00A0}' || c == '\U{1680}'
    || '\U{2000}' <= c <= '\U{200A}'
    || c == '\U{2028}' || c == '\U{2029}' || c == '\U{202F}' || c == '\U{205F}' || c == '\U{3000}'
  }

  function TrimLeft(s: string): string {
    if s != "" && IsSpace(s[0]) then TrimLeft(s[1..]) else s
  }

  function TrimRight(s: string): string {
    if s != "" && IsSpace(s[|s| - 1]) then TrimRight(s[..|s| - 1]) else s
  }

  function TrimSpace(s: string): string {
    TrimRight(TrimLeft(s))
  }

  /** strings.ToLower on ASCII; no other letter lowers to one of the words below. */
  function ToLower(s: string): string {
    seq(|s|, i requires 0 <= i < |s| => if 'A' <= s[i] <= 'Z' then s[i] - 'A' + 'a' else s[i])
  }

  predicate IsTrue(s: string) {
    s == "true" || s == "t" || s == "yes" || s == "y" || s == "1" || s == "on"
  }

  predicate IsFalse(s: string) {
    s == "false" || s == "f" || s == "no" || s == "n" || s == "0" || s == "off"
  }

  function ParseBool(s: string): Option<string> {
    var word := ToLower(TrimSpace(s));
    if IsTrue(word) then Some("true") else if IsFalse(word) then Some("false") else None
  }

  const MIN_INT64: int := -0x8000_0000_0000_0000
  const MAX_INT64: int := 0x7FFF_FFFF_FFFF_FFFF

  predicate IsDigit(c: char) {
    '0' <= c <= '9'
  }

  predicate AllDigits(s: string) {
    forall i :: 0 <= i < |s| ==> IsDigit(s[i])
  }

  function Value(digits: string): nat
    requires AllDigits(digits)
  {
    if digits == "" then 0 else 10 * Value(digits[..|digits| - 1]) + (digits[|digits| - 1] - '0') as nat
  }

  /** strconv.ParseInt(s, 10, 64). */
  function ParseInt(s: string): Option<int> {
    var signed := s != "" && (s[0] == '-' || s[0] == '+');
    var digits := if signed then s[1..] else s;
    if digits == "" || !AllDigits(digits) then None
    else
      var v: int := Value(digits);
      var n := if signed && s[0] == '-' then -v else v;
      if MIN_INT64 <= n <= MAX_INT64 then Some(n) else None
  }

  function Digits(n: nat): (s: string)
    ensures s != "" && AllDigits(s)
  {
    var last := ['0' + (n % 10) as char];
    if n < 10 then last else Digits(n / 10) + last
  }

  /** strconv.FormatInt(n, 10). */
  function FormatInt(n: int): string {
    if n < 0 then "-" + Digits(-n) else Digits(n)
  }

  lemma {:induction false} ValueOfDigits(n: nat)
    ensures Value(Digits(n)) == n
  {
    var s := Digits(n);
    if n >= 10 {
      ValueOfDigits(n / 10);
      assert s[..|s| - 1] == Digits(n / 10);
    } else {
      assert s[..0] == "";
    }
  }

  /** Printing a 64-bit integer and parsing it gives it back. */
  lemma ParseFormat(n: int)
    requires MIN_INT64 <= n <= MAX_INT64
    ensures ParseInt(FormatInt(n)) == Some(n)
  {
    if n < 0 {
      ValueOfDigits(-n);
      assert FormatInt(n)[1..] == Digits(-n);
    } else {
      ValueOfDigits(n);
      assert IsDigit(FormatInt(n)[0]);
    }
  }

  lemma FormatTrimmed(n: int)
    ensures TrimSpace(FormatInt(n)) == FormatInt(n)
  {}

  // ---- the three checks ----

  /** What Validate demands of one config field, the name aside. */
  predicate Accepted(re: Regexp, spec: Spec) {
    match spec.fieldType
    case Text => (spec.pattern != "" ==> re.compiles(spec.pattern)) && spec.choices == []
    case Bool => spec.pattern == "" && spec.choices == [] && (spec.default != "" ==> ParseBool(spec.default).Some?)
    case Int => spec.pattern == "" && spec.choices == [] && (spec.default != "" ==> ParseInt(spec.default).Some?)
    case Enum => spec.choices != [] && spec.pattern == "" && (spec.default != "" ==> spec.default in spec.choices)
    case Other(_) => false
  }

  /** canonicalizeFieldValue. */
  function Canonicalize(re: Regexp, spec: Spec, raw: string): Option<string> {
    match spec.fieldType
    case Text =>
      if spec.pattern != "" && !(re.compiles(spec.pattern) && re.matches(spec.pattern, raw)) then None else Some(raw)
    case Bool => ParseBool(raw)
    case Int => var n := ParseInt(TrimSpace(raw)); if n.Some? then Some(FormatInt(n.value)) else None
    case Enum => if raw in spec.choices then Some(raw) else None
    case Other(_) => None
  }

  /** ValidateValue, the check at launch. */
  predicate LaunchAccepts(re: Regexp, spec: Spec, v: string) {
    if spec.choices != [] then v in spec.choices
    else if spec.fieldType == Text && spec.pattern != "" then re.compiles(spec.pattern) && re.matches(spec.pattern, v)
    else true
  }

  /** A value that launch accepts and register would store as it is. */
  predicate Settled(re: Regexp, spec: Spec, v: string) {
    LaunchAccepts(re, spec, v) && Canonicalize(re, spec, v) == Some(v)
  }

  lemma BoolSettled()
    ensures ParseBool("true") == Some("true") && ParseBool("false") == Some("false")
  {}

  /** For every spec that Validate accepts, what register makes of any input settles. */
  lemma CanonicalSettles(re: Regexp, spec: Spec, raw: string)
    requires Accepted(re, spec) && Canonicalize(re, spec, raw).Some?
    ensures Settled(re, spec, Canonicalize(re, spec, raw).value)
  {
    hide TrimSpace, ParseInt, FormatInt;
    match spec.fieldType
    case Bool => BoolSettled();
    case Int =>
      var n := ParseInt(TrimSpace(raw)).value;
      IntBounds(TrimSpace(raw));
      FormatTrimmed(n);
      ParseFormat(n);
    case _ =>
  }

  lemma IntBounds(s: string)
    ensures ParseInt(s).Some? ==> MIN_INT64 <= ParseInt(s).value <= MAX_INT64
  {}

  /** Launch is no stricter than register, and for bool and int it does not look at the value at all. */
  lemma LaunchIsWeaker(re: Regexp, spec: Spec, v: string)
    requires Accepted(re, spec)
    ensures Canonicalize(re, spec, v) == Some(v) ==> LaunchAccepts(re, spec, v)
    ensures spec.fieldType == Bool || spec.fieldType == Int ==> LaunchAccepts(re, spec, v)
    ensures spec.fieldType == Text || spec.fieldType == Enum ==>
              (LaunchAccepts(re, spec, v) <==> Canonicalize(re, spec, v) == Some(v))
  {}

  /** The default of an accepted spec is refused at the prompt only for a string that its pattern rejects. */
  lemma DefaultRefusedIff(re: Regexp, spec: Spec)
    requires Accepted(re, spec) && spec.default != ""
    ensures Canonicalize(re, spec, spec.default) == None
       <==> spec.fieldType == Text && spec.pattern != "" && !re.matches(spec.pattern, spec.default)
  {}

  lemma FirstDigit(digits: string)
    requires digits != "" && AllDigits(digits)
    ensures IsDigit(digits[0])
  {}

  /** A sign or none, and digits; the number they write, if it fits in 64 bits. */
  lemma {:induction false} ParseIntMeans(sign: string, digits: string)
    requires sign == "" || sign == "+" || sign == "-"
    requires digits != "" && AllDigits(digits)
    ensures var v: int := Value(digits);
            var n := if sign == "-" then -v else v;
            ParseInt(sign + digits) == if MIN_INT64 <= n <= MAX_INT64 then Some(n) else None
  {
    hide Value, AllDigits;
    var s := sign + digits;
    FirstDigit(digits);
    if sign == "" {
      assert s == digits;
    } else {
      assert s[1..] == digits && s[0] == sign[0];
    }
  }

  /** Nothing else is a number. */
  lemma ParseIntOnly(s: string)
    requires ParseInt(s).Some?
    ensures exists sign: string, digits: string ::
              (sign == "" || sign == "+" || sign == "-") && digits != "" && AllDigits(digits) && s == sign + digits
  {
    var signed := s[0] == '-' || s[0] == '+';
    var sign, digits := if signed then s[..1] else "", if signed then s[1..] else s;
    assert s == sign + digits;
  }

  const SPACES: string :=
    "\t\n\U{000B}\U{000C}\r \U{0085}\U{00A0}\U{1680}\U{2000}\U{2001}\U{2002}\U{2003}\U{2004}\U{2005}\U{2006}"
    + "\U{2007}\U{2008}\U{2009}\U{200A}\U{2028}\U{2029}\U{202F}\U{205F}\U{3000}"

  lemma SpacesAre(c: char)
    ensures IsSpace(c) <==> c in SPACES
  {}

  /** The text is the word, each letter small or capital. */
  predicate Spells(text: string, small: string, capital: string)
    requires |small| == |capital|
  {
    |text| == |small| && forall i :: 0 <= i < |text| ==> text[i] == small[i] || text[i] == capital[i]
  }

  predicate SaysYes(text: string) {
    || Spells(text, "true", "TRUE") || Spells(text, "t", "T") || Spells(text, "yes", "YES") || Spells(text, "y", "Y")
    || text == "1" || Spells(text, "on", "ON")
  }

  predicate SaysNo(text: string) {
    || Spells(text, "false", "FALSE") || Spells(text, "f", "F") || Spells(text, "no", "NO") || Spells(text, "n", "N")
    || text == "0" || Spells(text, "off", "OFF")
  }

  /** The words for true and false, in any letter case and with white space around them. */
  lemma BoolWords(before: string, word: string, after: string)
    requires (forall c <- before :: c in SPACES) && (forall c <- after :: c in SPACES)
    requires word != "" && word[0] !in SPACES && word[|word| - 1] !in SPACES
    ensures ParseBool(before + word + after) ==
            if SaysYes(word) then Some("true") else if SaysNo(word) then Some("false") else None
  {
    hide ToLower, IsSpace, SPACES, IsTrue, IsFalse, SaysYes, SaysNo;
    TrimmedBy(before, word, after);
    YesWords(word);
    NoWords(word);
  }

  /** White space around an integer does not matter. */
  lemma IntWords(re: Regexp, spec: Spec, before: string, word: string, after: string)
    requires (forall c <- before :: c in SPACES) && (forall c <- after :: c in SPACES)
    requires word != "" && word[0] !in SPACES && word[|word| - 1] !in SPACES
    requires spec.fieldType == Int
    ensures Canonicalize(re, spec, before + word + after) ==
            if ParseInt(word).Some? then Some(FormatInt(ParseInt(word).value)) else None
  {
    hide SPACES, ParseInt, FormatInt;
    TrimmedBy(before, word, after);
  }

  lemma TrimmedBy(before: string, word: string, after: string)
    requires (forall c <- before :: c in SPACES) && (forall c <- after :: c in SPACES)
    requires word != "" && word[0] !in SPACES && word[|word| - 1] !in SPACES
    ensures TrimSpace(before + word + after) == word
  {
    hide IsSpace, SPACES, TrimSpace;
    forall c: char
      ensures IsSpace(c) <==> c in SPACES
    {
      SpacesAre(c);
    }
    TrimmedAround(before, word, after);
  }

  /** A word in small letters is what its spellings lower to. */
  lemma LowersTo(text: string, small: string, capital: string)
    requires |small| == |capital|
    requires forall i :: 0 <= i < |small| ==> 'a' <= small[i] <= 'z' && capital[i] == small[i] - 'a' + 'A'
    ensures ToLower(text) == small <==> Spells(text, small, capital)
  {
    if ToLower(text) == small {
      forall i | 0 <= i < |text|
        ensures text[i] == small[i] || text[i] == capital[i]
      {
        assert ToLower(text)[i] == small[i];
      }
    }
  }

  lemma LowersToDigit(text: string, digit: string)
    requires |digit| == 1 && IsDigit(digit[0])
    ensures ToLower(text) == digit <==> text == digit
  {
    if ToLower(text) == digit {
      assert |text| == 1 && ToLower(text)[0] == digit[0];
      assert text == digit;
    }
  }

  lemma YesWords(word: string)
    ensures IsTrue(ToLower(word)) <==> SaysYes(word)
  {
    hide ToLower, Spells;
    LowersTo(word, "true", "TRUE");
    LowersTo(word, "t", "T");
    LowersTo(word, "yes", "YES");
    LowersTo(word, "y", "Y");
    LowersTo(word, "on", "ON");
    LowersToDigit(word, "1");
  }

  lemma NoWords(word: string)
    ensures IsFalse(ToLower(word)) <==> SaysNo(word)
  {
    hide ToLower, Spells;
    LowersTo(word, "false", "FALSE");
    LowersTo(word, "f", "F");
    LowersTo(word, "no", "NO");
    LowersTo(word, "n", "N");
    LowersTo(word, "off", "OFF");
    LowersToDigit(word, "0");
  }

  lemma {:induction false} TrimmedLeft(before: string, word: string)
    requires (forall c <- before :: IsSpace(c)) && word != "" && !IsSpace(word[0])
    ensures TrimLeft(before + word) == word
    decreases |before|
  {
    hide IsSpace;
    if before == "" {
      assert before + word == word;
    } else {
      assert (before + word)[1..] == before[1..] + word;
      TrimmedLeft(before[1..], word);
    }
  }

  lemma {:induction false} TrimmedRight(word: string, after: string)
    requires (forall c <- after :: IsSpace(c)) && word != "" && !IsSpace(word[|word| - 1])
    ensures TrimRight(word + after) == word
    decreases |after|
  {
    hide IsSpace;
    if after == "" {
      assert word + after == word;
    } else {
      var s := word + after;
      assert s[..|s| - 1] == word + after[..|after| - 1];
      TrimmedRight(word, after[..|after| - 1]);
    }
  }

  lemma TrimmedAround(before: string, word: string, after: string)
    requires (forall c <- before :: IsSpace(c)) && (forall c <- after :: IsSpace(c))
    requires word != "" && !IsSpace(word[0]) && !IsSpace(word[|word| - 1])
    ensures TrimSpace(before + word + after) == word
  {
    hide IsSpace, TrimLeft, TrimRight;
    assert before + word + after == before + (word + after) && (word + after)[0] == word[0];
    TrimmedLeft(before, word + after);
    TrimmedRight(word, after);
  }

  // ---- the prompt ----

  datatype Answer = Store(value: string) | Skip | DefaultRejected | NotSupplied | GivenUp

  /** What one line typed at the prompt settles, if anything; an unreadable line counts as empty. */
  function LineAnswer(re: Regexp, spec: Spec, default: string, line: string): Option<Answer> {
    if line == "" then
      if default != "" then
        var canon := Canonicalize(re, spec, default);
        Some(if canon.Some? then Store(canon.value) else DefaultRejected)
      else if !spec.required then Some(Skip)
      else None
    else
      var canon := Canonicalize(re, spec, line);
      if canon.Some? then Some(Store(canon.value)) else None
  }

  /** The first line from number i on that settles it, of three at most. */
  function PromptFrom(re: Regexp, spec: Spec, default: string, lines: nat -> string, i: nat): Answer
    requires i <= 2
    decreases 2 - i
  {
    match LineAnswer(re, spec, default, lines(i))
    case Some(a) => a
    case None =>
      if i == 2 then (if lines(2) == "" then NotSupplied else GivenUp) else PromptFrom(re, spec, default, lines, i + 1)
  }

  /** The prompt loop. */
  method Prompt(re: Regexp, spec: Spec, default: string, lines: nat -> string) returns (answer: Answer, attempts: nat)
    ensures 1 <= attempts <= 3 && answer == PromptFrom(re, spec, default, lines, 0)
    ensures forall j: nat | j < attempts - 1 :: !Decisive(re, spec, default, lines(j))
    ensures attempts < 3 ==> Decisive(re, spec, default, lines(attempts - 1))
  {
    hide Canonicalize;
    attempts := 0;
    while true
      invariant attempts <= 2
      invariant forall j: nat | j < attempts :: !Decisive(re, spec, default, lines(j))
      invariant PromptFrom(re, spec, default, lines, attempts) == PromptFrom(re, spec, default, lines, 0)
      decreases 3 - attempts
    {
      var line := lines(attempts);
      attempts := attempts + 1;
      if line == "" {
        if default != "" {
          var canon := Canonicalize(re, spec, default);
          if canon.None? {
            return DefaultRejected, attempts;
          }
          return Store(canon.value), attempts;
        }
        if !spec.required {
          return Skip, attempts;
        }
        if attempts >= 3 {
          return NotSupplied, attempts;
        }
        continue;
      }
      var canon := Canonicalize(re, spec, line);
      if canon.None? {
        if attempts >= 3 {
          return GivenUp, attempts;
        }
        continue;
      }
      return Store(canon.value), attempts;
    }
  }

  /** The line ends the prompt: it takes a default or skips the field, or it is a value that fits. */
  predicate Decisive(re: Regexp, spec: Spec, default: string, line: string) {
    if line == "" then default != "" || !spec.required else Canonicalize(re, spec, line).Some?
  }

  /**
   * The prompt gives up after three lines that decide nothing. Otherwise the first
   * that does decides: a value is stored in canonical form; an empty line takes
   * the default, which may be refused, or skips a field without one.
   */
  lemma {:induction false} PromptMeans(re: Regexp, spec: Spec, default: string, lines: nat -> string, i: nat, k: nat)
    requires i <= k <= 2 && forall j: nat | i <= j < k :: !Decisive(re, spec, default, lines(j))
    ensures var a, line := PromptFrom(re, spec, default, lines, i), lines(k);
            if !Decisive(re, spec, default, line) then
              k == 2 ==> a == if line == "" then NotSupplied else GivenUp
            else if line != "" then a.Store? && Canonicalize(re, spec, line) == Some(a.value)
            else if default == "" then a == Skip
            else if Canonicalize(re, spec, default) == None then a == DefaultRejected
            else a == Store(Canonicalize(re, spec, default).value)
    decreases k - i
  {
    hide Canonicalize;
    if i < k {
      assert !Decisive(re, spec, default, lines(i));
      PromptMeans(re, spec, default, lines, i + 1, k);
    }
  }

  // ---- one field ----

  /**
   * What a run of register brings for one field: whether to ask again, whether it
   * was declined before, values from the file, from the environment and from the
   * variable the spec names, the agent-writable override, and the prompt's lines.
   */
  datatype Supply = Supply(
    reprompt: bool, declined: bool, useDefaults: bool, fromFile: Option<string>, fromEnv: Option<string>,
    defaultEnv: Option<string>, override: Option<string>, lines: nat -> string)

  datatype FieldError = ValueRejected | Unsettled(answer: Answer)

  /** The override, when it differs from what is stored. */
  function Differing(override: Option<string>, stored: Option<string>): Option<string> {
    if override.Some? && override != stored then override else None
  }

  /** The default the prompt offers, before anything stored is considered. */
  function SpecDefault(spec: Spec, defaultEnv: Option<string>): string {
    if spec.default == "" && spec.defaultFromEnv != "" && defaultEnv.Some? then defaultEnv.value else spec.default
  }

  /** Where the value of a field comes from in a run of register, in the order it is looked for. */
  datatype Choice = Keep(value: string) | StayDeclined | Use(raw: string) | Refuse | Ask(default: string)

  function Choose(re: Regexp, spec: Spec, supply: Supply, stored: Option<string>, remembered: Option<string>): Choice {
    var override := Differing(supply.override, stored);
    if !supply.reprompt && stored.Some? then Keep(override.GetOr(stored.value))
    else if !supply.reprompt && supply.declined && !spec.required then StayDeclined
    else if supply.useDefaults && remembered.Some? && Canonicalize(re, spec, remembered.value).Some? then Use(remembered.value)
    else if supply.fromFile.Some? then UseIfFit(re, spec, supply.fromFile.value)
    else if supply.fromEnv.Some? then UseIfFit(re, spec, supply.fromEnv.value)
    else
      var default := SpecDefault(spec, supply.defaultEnv);
      var cur := if override.Some? then override else stored;
      var offers := supply.reprompt && cur.Some? && Canonicalize(re, spec, cur.value).Some? && (override.Some? || default == "");
      Ask(if offers then cur.value else default)
  }

  function UseIfFit(re: Regexp, spec: Spec, v: string): Choice {
    if Canonicalize(re, spec, v).Some? then Use(v) else Refuse
  }

  /**
   * Where a value comes from. What is stored stays unless fields are asked again,
   * and an override wins over it; a field declined before stays so if it is
   * optional. Then come a remembered default that fits, the file, the
   * environment, and the prompt. The prompt offers the default of the spec, or of
   * the variable it names; when fields are asked again, a fitting override, or
   * what is stored if there is no default.
   */
  lemma ChooseMeans(re: Regexp, spec: Spec, supply: Supply, stored: Option<string>, remembered: Option<string>)
    ensures var choice := Choose(re, spec, supply, stored, remembered);
            var overridden := supply.override.Some? && supply.override != stored;
            var settled := !supply.reprompt && (stored.Some? || (supply.declined && !spec.required));
            var recalled := supply.useDefaults && remembered.Some? && Canonicalize(re, spec, remembered.value).Some?;
            && (!supply.reprompt && stored.Some? ==>
                  choice == Keep(if overridden then supply.override.value else stored.value))
            && (!supply.reprompt && stored.None? && supply.declined && !spec.required ==> choice == StayDeclined)
            && (!settled && recalled ==> choice == Use(remembered.value))
            && (!settled && !recalled && supply.fromFile.Some? ==>
                  choice == if Canonicalize(re, spec, supply.fromFile.value).Some? then Use(supply.fromFile.value) else Refuse)
            && (!settled && !recalled && supply.fromFile.None? && supply.fromEnv.Some? ==>
                  choice == if Canonicalize(re, spec, supply.fromEnv.value).Some? then Use(supply.fromEnv.value) else Refuse)
            && (!settled && !recalled && supply.fromFile.None? && supply.fromEnv.None? ==>
                  choice.Ask? && Offers(re, spec, supply, stored, choice.default))
  {
    hide Canonicalize;
  }

  /** The default that the prompt may offer. */
  predicate Offers(re: Regexp, spec: Spec, supply: Supply, stored: Option<string>, offer: string) {
    var overridden := supply.override.Some? && supply.override != stored;
    var named := spec.default == "" && spec.defaultFromEnv != "" && supply.defaultEnv.Some?;
    if supply.reprompt && overridden && Canonicalize(re, spec, supply.override.value).Some? then
      offer == supply.override.value
    else if spec.default != "" then offer == spec.default
    else if named && supply.defaultEnv.value != "" then offer == supply.defaultEnv.value
    else if supply.reprompt && !overridden && stored.Some? && Canonicalize(re, spec, stored.value).Some? then
      offer == stored.value
    else offer == ""
  }

  class FieldStores {
    var values: map<string, string>
    var defaults: Option<map<string, string>>

    constructor (values: map<string, string>, defaults: Option<map<string, string>>)
      ensures this.values == values && this.defaults == defaults
    {
      this.values, this.defaults := values, defaults;
    }

    function Stored(name: string): Option<string>
      reads this
    {
      if name in values then Some(values[name]) else None
    }

    /** Stores a value, and remembers it as a default where defaults are kept. */
    method SetField(name: string, v: string)
      modifies this
      ensures values == old(values)[name := v] && defaults == Remembered(old(defaults), name, v)
    {
      values := values[name := v];
      RememberDefault(name, v);
    }

    method RememberDefault(name: string, v: string)
      modifies this`defaults
      ensures defaults == Remembered(old(defaults), name, v)
    {
      if defaults.Some? {
        defaults := Some(defaults.value[name := v]);
      }
    }

    function RememberedDefault(name: string): Option<string>
      reads this
    {
      if defaults.Some? && name in defaults.value then Some(defaults.value[name]) else None
    }

    /** handleOneField: Ok says whether the field was skipped. */
    method HandleOneField(re: Regexp, spec: Spec, supply: Supply) returns (r: Result<bool, FieldError>)
      requires Accepted(re, spec)
      modifies this
      ensures match Choose(re, spec, supply, old(Stored(spec.name)), old(RememberedDefault(spec.name)))
              case Keep(v) => r == Ok(false) && values == old(values) && defaults == Remembered(old(defaults), spec.name, v)
              case StayDeclined => r == Ok(true) && values == old(values) && defaults == old(defaults)
              case Refuse => r == Err(ValueRejected) && values == old(values) && defaults == old(defaults)
              case Use(raw) =>
                var canon := Canonicalize(re, spec, raw);
                && r == Ok(false) && canon.Some? && Settled(re, spec, canon.value)
                && SetTo(spec.name, canon.value, old(values), old(defaults), values, defaults)
              case Ask(default) =>
                match PromptFrom(re, spec, default, supply.lines, 0)
                case Store(v) =>
                  && r == Ok(false) && Settled(re, spec, v)
                  && SetTo(spec.name, v, old(values), old(defaults), values, defaults)
                case Skip => r == Ok(true) && !spec.required && values == old(values) && defaults == old(defaults)
                case answer => r == Err(Unsettled(answer)) && values == old(values) && defaults == old(defaults)
    {
      hide Canonicalize, Settled, Accepted, SpecDefault, PromptFrom;
      var stored := Stored(spec.name);
      var override := Differing(supply.override, stored);
      if !supply.reprompt {
        if stored.Some? {
          RememberDefault(spec.name, override.GetOr(stored.value));
          return Ok(false);
        }
        if supply.declined && !spec.required {
          return Ok(true);
        }
      }
      if supply.useDefaults && defaults.Some? && spec.name in defaults.value {
        var canon := Canonicalize(re, spec, defaults.value[spec.name]);
        if canon.Some? {
          StoreCanonical(re, spec, defaults.value[spec.name], canon.value);
          return Ok(false);
        }
      }
      if supply.fromFile.Some? {
        r := StoreSupplied(re, spec, supply.fromFile.value);
        return;
      }
      if supply.fromEnv.Some? {
        r := StoreSupplied(re, spec, supply.fromEnv.value);
        return;
      }
      var default := SpecDefault(spec, supply.defaultEnv);
      if supply.reprompt {
        var cur := if override.Some? then override else stored;
        if cur.Some? && Canonicalize(re, spec, cur.value).Some? && (override.Some? || default == "") {
          default := cur.value;
        }
      }
      var answer, attempts := Prompt(re, spec, default, supply.lines);
      PromptSettles(re, spec, default, supply.lines, 0);
      match answer {
        case Store(v) =>
          SetField(spec.name, v);
          return Ok(false);
        case Skip =>
          return Ok(true);
        case _ =>
          return Err(Unsettled(answer));
      }
    }

    /** A value from the file or the environment is stored, or refused, without a prompt. */
    method StoreSupplied(re: Regexp, spec: Spec, v: string) returns (r: Result<bool, FieldError>)
      requires Accepted(re, spec)
      modifies this
      ensures match Canonicalize(re, spec, v)
              case None => r == Err(ValueRejected) && values == old(values) && defaults == old(defaults)
              case Some(c) =>
                && r == Ok(false) && Settled(re, spec, c)
                && SetTo(spec.name, c, old(values), old(defaults), values, defaults)
    {
      var canon := Canonicalize(re, spec, v);
      if canon.None? {
        return Err(ValueRejected);
      }
      StoreCanonical(re, spec, v, canon.value);
      return Ok(false);
    }

    method StoreCanonical(re: Regexp, spec: Spec, raw: string, canon: string)
      requires Accepted(re, spec) && Canonicalize(re, spec, raw) == Some(canon)
      modifies this
      ensures Settled(re, spec, canon)
      ensures SetTo(spec.name, canon, old(values), old(defaults), values, defaults)
    {
      CanonicalSettles(re, spec, raw);
      SetField(spec.name, canon);
    }
  }

  function Remembered(defaults: Option<map<string, string>>, name: string, v: string): Option<map<string, string>> {
    if defaults.Some? then Some(defaults.value[name := v]) else None
  }

  predicate SetTo(
      name: string, v: string, values0: map<string, string>, defaults0: Option<map<string, string>>,
      values: map<string, string>, defaults: Option<map<string, string>>) {
    values == values0[name := v] && defaults == Remembered(defaults0, name, v)
  }

  /** What the prompt stores settles, and only an optional field is skipped. */
  lemma {:induction false} PromptSettles(re: Regexp, spec: Spec, default: string, lines: nat -> string, i: nat)
    requires Accepted(re, spec) && i <= 2
    ensures var a := PromptFrom(re, spec, default, lines, i);
            (a.Store? ==> Settled(re, spec, a.value)) && (a == Skip ==> !spec.required)
    decreases 2 - i
  {
    hide Canonicalize, Settled;
    if Canonicalize(re, spec, default).Some? {
      CanonicalSettles(re, spec, default);
    }
    if Canonicalize(re, spec, lines(i)).Some? {
      CanonicalSettles(re, spec, lines(i));
    }
    if i < 2 {
      PromptSettles(re, spec, default, lines, i + 1);
    }
  }
}
