/**
 * ReadLog (internal/audit/read.go) on the file that the sink
 * (internal/audit/sink_file.go) leaves behind when writes may stop early.
 */
module AuditReader {
  import opened Wrappers

  type Byte = b: int | 0 <= b < 256
  type Bytes = seq<Byte>

  const NEWLINE: Byte := 10
  const OPEN: Byte := 123
  const CLOSE: Byte := 125
  const MAX_LINE_BYTES: nat := 4 * 1024 * 1024

  /** json.Marshal and json.Unmarshal on events. */
  datatype Codec<!Event> = Codec(enc: Event -> Bytes, dec: Bytes -> Option<Event>)

  /**
   * What the proofs use of JSON: an object is written on one line, is read back,
   * and bytes that begin with an unfinished object are not made valid by the
   * beginning of another, nor by the whole of it.
   */
  ghost predicate Json<Event(!new)>(c: Codec<Event>) {
    && (forall e: Event :: |c.enc(e)| >= 2 && c.enc(e)[0] == OPEN && c.enc(e)[|c.enc(e)| - 1] == CLOSE
                        && NEWLINE !in c.enc(e) && c.dec(c.enc(e)) == Some(e))
    && (forall e: Event, junk: Bytes, k: nat | Unfinished(c, junk, e, k) :: c.dec(junk + c.enc(e)[..k]) == None)
  }

  predicate Unfinished<Event>(c: Codec<Event>, junk: Bytes, e: Event, k: nat) {
    0 < k <= |c.enc(e)| && (if junk == [] then k < |c.enc(e)| else junk[0] == OPEN)
  }

  // ---- the reader ----

  predicate IsSpace(b: Byte) {
    9 <= b <= 13 || b == 32
  }

  /** The white space of Unicode beyond ASCII, in UTF-8: U+0085 and U+00A0. */
  predicate IsSpace2(b: Byte, c: Byte) {
    b == 0xC2 && (c == 0x85 || c == 0xA0)
  }

  /** U+1680, U+2000 to U+200A, U+2028, U+2029, U+202F, U+205F and U+3000. */
  predicate IsSpace3(b: Byte, c: Byte, d: Byte) {
    || (b == 0xE1 && c == 0x9A && d == 0x80)
    || (b == 0xE2 && c == 0x80 && (0x80 <= d <= 0x8A || d == 0xA8 || d == 0xA9 || d == 0xAF))
    || (b == 0xE2 && c == 0x81 && d == 0x9F)
    || (b == 0xE3 && c == 0x80 && d == 0x80)
  }

  /** How long the white space is that the line starts with, if any. */
  function SpaceAtStart(line: Bytes): (n: nat)
    ensures n <= |line| && forall i :: 0 <= i < n ==> IsSpace(line[i]) || line[i] >= 128
  {
    if |line| >= 1 && IsSpace(line[0]) then 1
    else if |line| >= 2 && IsSpace2(line[0], line[1]) then 2
    else if |line| >= 3 && IsSpace3(line[0], line[1], line[2]) then 3
    else 0
  }

  function SpaceAtEnd(line: Bytes): (n: nat)
    ensures n <= |line| && forall i :: |line| - n <= i < |line| ==> IsSpace(line[i]) || line[i] >= 128
  {
    var k := |line|;
    if k >= 1 && IsSpace(line[k - 1]) then 1
    else if k >= 2 && IsSpace2(line[k - 2], line[k - 1]) then 2
    else if k >= 3 && IsSpace3(line[k - 3], line[k - 2], line[k - 1]) then 3
    else 0
  }

  function TrimLeft(line: Bytes): Bytes {
    var n := SpaceAtStart(line);
    if n > 0 then TrimLeft(line[n..]) else line
  }

  function TrimRight(line: Bytes): (r: Bytes)
    ensures r <= line
  {
    var n := SpaceAtEnd(line);
    if n > 0 then TrimRight(line[..|line| - n]) else line
  }

  /** bytes.TrimSpace. */
  function TrimSpace(line: Bytes): Bytes {
    TrimRight(TrimLeft(line))
  }

  /** bufio.ScanLines; cur is the line begun. A carriage return at the end goes with the trimming. */
  function Lines(file: Bytes, cur: Bytes): seq<Bytes>
    decreases |file|
  {
    if file == [] then (if cur == [] then [] else [cur])
    else if file[0] == NEWLINE then [cur] + Lines(file[1..], [])
    else Lines(file[1..], cur + [file[0]])
  }

  /** The lines that are not blank, trimmed. */
  function Texts(lines: seq<Bytes>): seq<Bytes> {
    if lines == [] then []
    else
      var line := TrimSpace(lines[|lines| - 1]);
      Texts(lines[..|lines| - 1]) + if line == [] then [] else [line]
  }

  /** What each text decodes to. */
  function Decode<Event>(c: Codec<Event>, texts: seq<Bytes>): seq<Option<Event>> {
    seq(|texts|, i requires 0 <= i < |texts| => c.dec(texts[i]))
  }

  function Somes<T>(s: seq<Option<T>>): seq<T> {
    if s == [] then [] else Somes(s[..|s| - 1]) + match s[|s| - 1] case Some(e) => [e] case None => []
  }

  /** The first bad record, when it is not the last record of all. */
  predicate FirstBad<T>(records: seq<Option<T>>, i: nat) {
    i < |records| - 1 && records[i].None? && forall j :: 0 <= j < i ==> records[j].Some?
  }

  /** Among the first n records none is bad but the last of all. */
  predicate OnlyLastBad<T>(records: seq<Option<T>>, n: nat) {
    forall j :: 0 <= j < n && j < |records| - 1 ==> records[j].Some?
  }

  datatype Log<+Event> = TooLong | Log(events: seq<Event>, corrupt: Option<nat>)

  /** Gives up at a line that is too long; otherwise all good records and the first bad one before the last record. */
  ghost predicate ReadsAs<Event>(c: Codec<Event>, file: Bytes, log: Log<Event>) {
    var lines := Lines(file, []);
    match log
    case TooLong => exists line <- lines :: |line| >= MAX_LINE_BYTES
    case Log(events, corrupt) =>
      var records := Decode(c, Texts(lines));
      && (forall line <- lines :: |line| < MAX_LINE_BYTES)
      && events == Somes(records)
      && if corrupt.Some? then FirstBad(records, corrupt.value) else OnlyLastBad(records, |records|)
  }

  method ReadLog<Event>(c: Codec<Event>, file: Bytes) returns (log: Log<Event>)
    ensures ReadsAs(c, file, log)
  {
    hide TrimSpace, FirstBad, OnlyLastBad, Somes, Lines, Texts;
    var lines := Lines(file, []);
    var rawLines: seq<Bytes> := [];
    assert lines[..0] == [];
    NoTexts();
    for i := 0 to |lines|
      invariant rawLines == Texts(lines[..i])
      invariant forall j :: 0 <= j < i ==> |lines[j]| < MAX_LINE_BYTES
    {
      if |lines[i]| >= MAX_LINE_BYTES {
        assert lines[i] in lines;
        return TooLong;
      }
      var line := TrimSpace(lines[i]);
      TextsSnoc(lines, i);
      if line == [] {
        continue;
      }
      rawLines := rawLines + [line];
    }
    assert lines[..|lines|] == lines && forall line <- lines :: |line| < MAX_LINE_BYTES;
    var out, corrupt := DecodeAll(c, rawLines);
    log := Log(out, corrupt);
  }

  lemma NoTexts()
    ensures Texts([]) == []
  {}

  lemma TextsSnoc(lines: seq<Bytes>, i: nat)
    requires i < |lines|
    ensures Texts(lines[..i + 1]) == Texts(lines[..i]) + (if TrimSpace(lines[i]) == [] then [] else [TrimSpace(lines[i])])
  {
    assert lines[..i + 1][..i] == lines[..i];
  }

  /** The second loop of ReadLog. */
  method DecodeAll<Event>(c: Codec<Event>, rawLines: seq<Bytes>) returns (out: seq<Event>, corrupt: Option<nat>)
    ensures out == Somes(Decode(c, rawLines))
    ensures match corrupt
            case None => OnlyLastBad(Decode(c, rawLines), |rawLines|)
            case Some(i) => FirstBad(Decode(c, rawLines), i)
  {
    out, corrupt := [], None;
    var records := Decode(c, rawLines);
    for i := 0 to |rawLines|
      invariant out == Somes(records[..i])
      invariant match corrupt
                case None => OnlyLastBad(records, i)
                case Some(k) => k < i && FirstBad(records, k)
    {
      assert records[..i + 1][..i] == records[..i];
      var ev := c.dec(rawLines[i]);
      if ev.None? {
        if i == |rawLines| - 1 {
          continue;
        }
        if corrupt == None {
          corrupt := Some(i);
        }
        continue;
      }
      out := out + [ev.value];
    }
    assert records[..|records|] == records;
  }

  // ---- the file ----

  /** One write of the sink: wrote bytes of the record and its newline reached the file. */
  datatype Attempt<+Event> = Attempt(event: Event, wrote: nat)

  predicate Whole<Event>(c: Codec<Event>, a: Attempt<Event>) {
    a.wrote == |c.enc(a.event)| + 1
  }

  /** Every byte but the newline. */
  predicate LacksNewline<Event>(c: Codec<Event>, a: Attempt<Event>) {
    a.wrote == |c.enc(a.event)|
  }

  predicate Possible<Event>(c: Codec<Event>, log: seq<Attempt<Event>>) {
    forall i :: 0 <= i < |log| ==> log[i].wrote <= |c.enc(log[i].event)| + 1
  }

  function Appended<Event>(c: Codec<Event>, a: Attempt<Event>): Bytes
    requires a.wrote <= |c.enc(a.event)| + 1
  {
    (c.enc(a.event) + [NEWLINE])[..a.wrote]
  }

  function FileOf<Event>(c: Codec<Event>, log: seq<Attempt<Event>>): Bytes
    requires Possible(c, log)
  {
    if log == [] then [] else Appended(c, log[0]) + FileOf(c, log[1..])
  }

  // ---- what the reader makes of it ----

  /** Write i starts on a line of its own. */
  predicate Fresh<Event>(c: Codec<Event>, log: seq<Attempt<Event>>, i: nat)
    requires i <= |log|
  {
    i == 0 || Whole(c, log[i - 1]) || (log[i - 1].wrote == 0 && Fresh(c, log, i - 1))
  }

  /** Nothing is written from i on. */
  predicate Silent<Event>(log: seq<Attempt<Event>>, i: nat) {
    forall j :: i <= j < |log| ==> log[j].wrote == 0
  }

  /** Write i can be read back: it starts a line, and its newline or the end of the file ends it. */
  predicate Intact<Event>(c: Codec<Event>, log: seq<Attempt<Event>>, i: nat)
    requires i < |log|
  {
    Fresh(c, log, i) && (Whole(c, log[i]) || (LacksNewline(c, log[i]) && Silent(log, i + 1)))
  }

  /** The records that can be read back, in the order of the file, from i on. */
  function IntactFrom<Event>(c: Codec<Event>, log: seq<Attempt<Event>>, i: nat): seq<Event>
    requires i <= |log|
    decreases |log| - i
  {
    if i == |log| then []
    else (if Intact(c, log, i) then [log[i].event] else []) + IntactFrom(c, log, i + 1)
  }

  /** A whole write that is joined to torn ones, with something after it. */
  predicate CorruptAt<Event>(c: Codec<Event>, log: seq<Attempt<Event>>, i: nat) {
    i < |log| && Whole(c, log[i]) && !Fresh(c, log, i) && !Silent(log, i + 1)
  }

  // ---- proofs: the lines of the file ----

  /** The bytes after the last newline, once i writes are done. */
  function Pending<Event>(c: Codec<Event>, log: seq<Attempt<Event>>, i: nat): Bytes
    requires Possible(c, log) && i <= |log|
  {
    if i == 0 || Whole(c, log[i - 1]) then [] else Pending(c, log, i - 1) + Appended(c, log[i - 1])
  }

  function LinesFrom<Event>(c: Codec<Event>, log: seq<Attempt<Event>>, i: nat): seq<Bytes>
    requires Possible(c, log) && i <= |log|
    decreases |log| - i
  {
    if i == |log| then (if Pending(c, log, i) == [] then [] else [Pending(c, log, i)])
    else (if Whole(c, log[i]) then [Pending(c, log, i) + c.enc(log[i].event)] else []) + LinesFrom(c, log, i + 1)
  }

  lemma {:induction false} LinesSkip(a: Bytes, rest: Bytes, cur: Bytes)
    requires NEWLINE !in a
    ensures Lines(a + rest, cur) == Lines(rest, cur + a)
    decreases |a|
  {
    if a == [] {
      assert a + rest == rest && cur + a == cur;
    } else {
      var file := a + rest;
      assert file[0] == a[0] && file[1..] == a[1..] + rest && cur + [a[0]] + a[1..] == cur + a;
      LinesSkip(a[1..], rest, cur + [a[0]]);
    }
  }

  lemma {:induction false} LinesNewline(rest: Bytes, cur: Bytes)
    ensures Lines([NEWLINE] + rest, cur) == [cur] + Lines(rest, [])
  {}

  lemma LinesEnd(cur: Bytes)
    ensures Lines([], cur) == if cur == [] then [] else [cur]
  {}

  lemma {:induction false} LinesAre<Event(!new)>(c: Codec<Event>, log: seq<Attempt<Event>>, i: nat)
    requires Json(c) && Possible(c, log) && i <= |log|
    ensures Lines(FileOf(c, log[i..]), Pending(c, log, i)) == LinesFrom(c, log, i)
    decreases |log| - i
  {
    hide Json, Lines, Whole;
    if i == |log| {
      LinesEnd(Pending(c, log, i));
    } else {
      LinesAre(c, log, i + 1);
      assert log[i..][1..] == log[i + 1..];
      OneAttempt(c, log[i], FileOf(c, log[i + 1..]), Pending(c, log, i));
    }
  }

  lemma {:induction false} OneAttempt<Event(!new)>(c: Codec<Event>, a: Attempt<Event>, rest: Bytes, cur: Bytes)
    requires Json(c) && a.wrote <= |c.enc(a.event)| + 1
    ensures Lines(Appended(c, a) + rest, cur)
         == if Whole(c, a) then [cur + c.enc(a.event)] + Lines(rest, []) else Lines(rest, cur + Appended(c, a))
  {
    hide Lines;
    var enc := c.enc(a.event);
    if Whole(c, a) {
      LinesSkip(enc, [NEWLINE] + rest, cur);
      LinesNewline(rest, cur + enc);
      assert Appended(c, a) + rest == enc + ([NEWLINE] + rest);
    } else {
      assert Appended(c, a) == enc[..a.wrote];
      LinesSkip(Appended(c, a), rest, cur);
    }
  }

  // ---- proofs: what the lines decode to ----

  lemma {:induction false} TrimRightKeeps(line: Bytes, n: nat)
    requires n < |line| && !IsSpace(line[n]) && line[n] < 128
    ensures n < |TrimRight(line)|
    ensures n == |line| - 1 ==> TrimRight(line) == line
    decreases |line|
  {
    var k := SpaceAtEnd(line);
    if k > 0 {
      TrimRightKeeps(line[..|line| - k], n);
    }
  }

  /** White space, one character each, in UTF-8. */
  predicate SpaceChar(c: Bytes) {
    || c == [9] || c == [10] || c == [11] || c == [12] || c == [13] || c == [32] || c == [0xC2, 0x85] || c == [0xC2, 0xA0]
    || c == [0xE1, 0x9A, 0x80] || c == [0xE2, 0x80, 0xA8] || c == [0xE2, 0x80, 0xA9] || c == [0xE2, 0x80, 0xAF]
    || c == [0xE2, 0x81, 0x9F] || c == [0xE3, 0x80, 0x80]
    || (|c| == 3 && c[0] == 0xE2 && c[1] == 0x80 && 0x80 <= c[2] <= 0x8A)
  }

  function Concat(cs: seq<Bytes>): Bytes {
    if cs == [] then [] else cs[0] + Concat(cs[1..])
  }

  /** A text that neither begins nor ends with white space. */
  ghost predicate Bare(text: Bytes) {
    forall c: Bytes | SpaceChar(c) :: !(c <= text) && !EndsWith(text, c)
  }

  predicate EndsWith(text: Bytes, c: Bytes) {
    |c| <= |text| && text[|text| - |c|..] == c
  }

  lemma StartIsSpace(line: Bytes)
    ensures var n := SpaceAtStart(line); n > 0 ==> SpaceChar(line[..n])
  {
    var n := SpaceAtStart(line);
    if n == 1 {
      assert line[..1] == [line[0]];
    } else if n == 2 {
      assert line[..2] == [line[0], line[1]];
    } else if n == 3 {
      assert line[..3] == [line[0], line[1], line[2]];
    }
  }

  lemma SpaceIsStart(c: Bytes, rest: Bytes)
    requires SpaceChar(c)
    ensures c != [] && SpaceAtStart(c + rest) == |c|
  {
    var line := c + rest;
    if |c| == 1 {
      assert line[0] == c[0];
    } else if |c| == 2 {
      assert line[0] == c[0] && line[1] == c[1];
    } else {
      assert line[0] == c[0] && line[1] == c[1] && line[2] == c[2];
    }
  }

  lemma EndIsSpace(line: Bytes)
    ensures var n := SpaceAtEnd(line); n > 0 ==> SpaceChar(line[|line| - n..])
  {
    var n, k := SpaceAtEnd(line), |line|;
    if n == 1 {
      assert line[k - 1..] == [line[k - 1]];
    } else if n == 2 {
      assert line[k - 2..] == [line[k - 2], line[k - 1]];
    } else if n == 3 {
      assert line[k - 3..] == [line[k - 3], line[k - 2], line[k - 1]];
    }
  }

  lemma SpaceIsEnd(rest: Bytes, c: Bytes)
    requires SpaceChar(c)
    ensures c != [] && SpaceAtEnd(rest + c) == |c|
  {
    var line, k := rest + c, |rest + c|;
    if |c| == 1 {
      assert line[k - 1] == c[0];
    } else if |c| == 2 {
      assert line[k - 2] == c[0] && line[k - 1] == c[1];
    } else {
      assert line[k - 3] == c[0] && line[k - 2] == c[1] && line[k - 1] == c[2];
    }
  }

  /** Trimming takes all white space around a text, and nothing of the text. */
  lemma {:induction false} TrimMeans(before: seq<Bytes>, text: Bytes, after: seq<Bytes>)
    requires (forall c <- before :: SpaceChar(c)) && (forall c <- after :: SpaceChar(c)) && Bare(text)
    ensures TrimSpace(Concat(before) + text + Concat(after)) == text
  {
    hide TrimLeft, TrimRight, SpaceChar, Bare, Concat;
    assert Concat(before) + text + Concat(after) == Concat(before) + (text + Concat(after));
    if text == [] {
      ConcatAdd(before, after);
      assert Concat(before) + text + Concat(after) == Concat(before + after) + [];
      TrimmedLeft(before + after, []);
      TrimmedRight([], []);
      ConcatNone();
      assert [] + Concat([]) == [];
    } else {
      NothingAtStart(text, after);
      TrimmedLeft(before, text + Concat(after));
      TrimmedRight(text, after);
    }
  }

  lemma ConcatNone()
    ensures Concat([]) == []
  {}

  lemma {:induction false} ConcatCons(a: seq<Bytes>)
    requires a != []
    ensures Concat(a) == a[0] + Concat(a[1..])
  {}

  lemma {:induction false} ConcatAdd(a: seq<Bytes>, b: seq<Bytes>)
    ensures Concat(a + b) == Concat(a) + Concat(b)
  {
    if a == [] {
      assert a + b == b;
    } else {
      ConcatAdd(a[1..], b);
      assert (a + b)[1..] == a[1..] + b && (a + b)[0] == a[0];
    }
  }

  lemma {:induction false} ConcatSnoc(a: seq<Bytes>, c: Bytes)
    ensures Concat(a + [c]) == Concat(a) + c
  {
    ConcatAdd(a, [c]);
    assert Concat([c]) == c + Concat([]);
  }

  /** White space after a text does not become white space in front of it. */
  lemma {:induction false} NothingAtStart(text: Bytes, after: seq<Bytes>)
    requires text != [] && Bare(text) && forall c <- after :: SpaceChar(c)
    ensures SpaceAtStart(text + Concat(after)) == 0
  {
    hide Concat, SpaceAtStart, SpaceChar;
    var line := text + Concat(after);
    StartIsSpace(line);
    var n := SpaceAtStart(line);
    assert n <= |text| ==> line[..n] == text[..n] && text[..n] <= text;
    if Concat(after) != [] {
      FirstByte(after);
      assert line[|text|] == Concat(after)[0];
      LaterByte(line, |text|);
    }
  }

  /** Only the first byte of a white-space character is one that can be first. */
  lemma LaterByte(line: Bytes, i: nat)
    requires 0 < i < |line| && (9 <= line[i] <= 13 || line[i] == 32 || 0xC2 <= line[i] <= 0xE3)
    ensures SpaceAtStart(line) <= i
  {}

  lemma {:induction false} FirstByte(after: seq<Bytes>)
    requires (forall c <- after :: SpaceChar(c)) && Concat(after) != []
    ensures var b := Concat(after)[0]; 9 <= b <= 13 || b == 32 || 0xC2 <= b <= 0xE3
  {
    assert after != [] && SpaceChar(after[0]) && Concat(after) == after[0] + Concat(after[1..]);
  }

  lemma {:induction false} TrimmedLeft(before: seq<Bytes>, rest: Bytes)
    requires (forall c <- before :: SpaceChar(c)) && SpaceAtStart(rest) == 0
    ensures TrimLeft(Concat(before) + rest) == rest
  {
    hide SpaceChar, SpaceAtStart, Concat;
    var line := Concat(before) + rest;
    if before == [] {
      ConcatNone();
      assert line == rest;
    } else {
      var c, later := before[0], Concat(before[1..]) + rest;
      assert SpaceChar(c);
      ConcatCons(before);
      assert line == c + later;
      SpaceIsStart(c, later);
      assert line[|c|..] == later;
      TrimmedLeft(before[1..], rest);
    }
  }

  lemma {:induction false} TrimmedRight(text: Bytes, after: seq<Bytes>)
    requires (forall c <- after :: SpaceChar(c)) && Bare(text)
    ensures TrimRight(text + Concat(after)) == text
    decreases |after|
  {
    hide SpaceChar, SpaceAtEnd, Concat;
    var line := text + Concat(after);
    if after == [] {
      ConcatNone();
      assert line == text;
      EndIsSpace(text);
      var n := SpaceAtEnd(text);
      assert n > 0 ==> EndsWith(text, text[|text| - n..]);
    } else {
      var front, c := after[..|after| - 1], after[|after| - 1];
      assert SpaceChar(c) && after == front + [c];
      ConcatSnoc(front, c);
      var earlier := text + Concat(front);
      assert line == earlier + c;
      SpaceIsEnd(earlier, c);
      assert line[..|line| - |c|] == earlier;
      TrimmedRight(text, front);
    }
  }

  /** How much of the last piece of an unfinished line trimming leaves. */
  lemma TrimTorn(junk: Bytes, piece: Bytes) returns (k: nat)
    requires piece != [] && piece[0] == OPEN && (junk == [] || junk[0] == OPEN)
    ensures 0 < k <= |piece| && TrimSpace(junk + piece) == junk + piece[..k]
    ensures piece[|piece| - 1] == CLOSE ==> k == |piece|
  {
    var line := junk + piece;
    assert line[0] == OPEN && line[|junk|] == OPEN && SpaceAtStart(line) == 0;
    TrimRightKeeps(line, |junk|);
    var r := TrimRight(line);
    k := |r| - |junk|;
    assert r == junk + piece[..k];
    if piece[|piece| - 1] == CLOSE {
      TrimRightKeeps(line, |line| - 1);
    }
  }

  lemma {:induction false} FreshPending<Event(!new)>(c: Codec<Event>, log: seq<Attempt<Event>>, i: nat)
    requires Json(c) && Possible(c, log) && i <= |log|
    ensures Fresh(c, log, i) <==> Pending(c, log, i) == []
    ensures !Fresh(c, log, i) ==> Pending(c, log, i)[0] == OPEN
  {
    if i > 0 {
      FreshPending(c, log, i - 1);
      var a := log[i - 1];
      assert |c.enc(a.event)| >= 2 && c.enc(a.event)[0] == OPEN;
      assert Appended(c, a) == [] <==> a.wrote == 0;
    }
  }

  /** The record of the line that ends with write i, or of the last line, which no newline ends. */
  function RecordsFrom<Event>(c: Codec<Event>, log: seq<Attempt<Event>>, i: nat): seq<Option<Event>>
    requires Possible(c, log) && i <= |log|
    decreases |log| - i
  {
    if i == |log| then (if Fresh(c, log, i) then [] else [c.dec(TrimSpace(Pending(c, log, i)))])
    else
      (if !Whole(c, log[i]) then [] else if Fresh(c, log, i) then [Some(log[i].event)] else [None])
      + RecordsFrom(c, log, i + 1)
  }

  lemma Encoded<Event(!new)>(c: Codec<Event>, e: Event)
    requires Json(c)
    ensures var enc := c.enc(e);
            |enc| >= 2 && enc[0] == OPEN && enc[|enc| - 1] == CLOSE && NEWLINE !in enc && c.dec(enc) == Some(e)
  {}

  lemma Invalid<Event(!new)>(c: Codec<Event>, junk: Bytes, e: Event, k: nat)
    requires Json(c) && Unfinished(c, junk, e, k)
    ensures c.dec(junk + c.enc(e)[..k]) == None
  {}

  /** A line that ends with a whole write. */
  lemma WholeLine<Event(!new)>(c: Codec<Event>, junk: Bytes, e: Event)
    requires Json(c) && (junk == [] || junk[0] == OPEN)
    ensures TrimSpace(junk + c.enc(e)) == junk + c.enc(e)
    ensures c.dec(junk + c.enc(e)) == if junk == [] then Some(e) else None
  {
    hide Json, TrimSpace;
    var enc := c.enc(e);
    Encoded(c, e);
    var k := TrimTorn(junk, enc);
    assert enc[..|enc|] == enc;
    if junk == [] {
      assert junk + enc == enc;
    } else {
      Invalid(c, junk, e, |enc|);
    }
  }

  /** A last line whose end is missing. */
  lemma TornLine<Event(!new)>(c: Codec<Event>, junk: Bytes, e: Event, wrote: nat)
    requires Json(c) && (junk == [] || junk[0] == OPEN) && 0 < wrote <= |c.enc(e)|
    ensures TrimSpace(junk + c.enc(e)[..wrote]) != []
    ensures c.dec(TrimSpace(junk + c.enc(e)[..wrote])) == if junk == [] && wrote == |c.enc(e)| then Some(e) else None
  {
    hide Json, TrimSpace;
    var enc := c.enc(e);
    Encoded(c, e);
    if wrote == |enc| {
      assert enc[..wrote] == enc;
      WholeLine(c, junk, e);
    } else {
      var piece := enc[..wrote];
      var k := TrimTorn(junk, piece);
      assert piece[..k] == enc[..k];
      Invalid(c, junk, e, k);
    }
  }

  lemma {:induction false} TextsAdd(a: seq<Bytes>, b: seq<Bytes>)
    ensures Texts(a + b) == Texts(a) + Texts(b)
    decreases |b|
  {
    if b == [] {
      assert a + b == a;
    } else {
      TextsAdd(a, b[..|b| - 1]);
      assert (a + b)[..|a + b| - 1] == a + b[..|b| - 1];
    }
  }

  lemma DecodeAdd<Event>(c: Codec<Event>, a: seq<Bytes>, b: seq<Bytes>)
    ensures Decode(c, a + b) == Decode(c, a) + Decode(c, b)
  {}

  lemma {:induction false} RecordsAre<Event(!new)>(c: Codec<Event>, log: seq<Attempt<Event>>, i: nat)
    requires Json(c) && Possible(c, log) && i <= |log|
    ensures Decode(c, Texts(LinesFrom(c, log, i))) == RecordsFrom(c, log, i)
    decreases |log| - i
  {
    hide Json, Texts, TrimSpace, Decode;
    FreshPending(c, log, i);
    if i == |log| {
      TextsNone(c);
      if Pending(c, log, i) != [] {
        LastLine(c, log);
        OneRecord(c, Pending(c, log, i));
      }
    } else {
      RecordsAre(c, log, i + 1);
      if Whole(c, log[i]) {
        var line := Pending(c, log, i) + c.enc(log[i].event);
        WholeLine(c, Pending(c, log, i), log[i].event);
        assert line != [] by { Encoded(c, log[i].event); }
        OneRecord(c, line);
        TextsAdd([line], LinesFrom(c, log, i + 1));
        DecodeAdd(c, Texts([line]), Texts(LinesFrom(c, log, i + 1)));
      } else {
        assert [] + LinesFrom(c, log, i + 1) == LinesFrom(c, log, i + 1);
        assert [] + RecordsFrom(c, log, i + 1) == RecordsFrom(c, log, i + 1);
      }
    }
  }

  lemma TextsNone<Event>(c: Codec<Event>)
    ensures Decode(c, Texts([])) == []
  {}

  lemma OneRecord<Event>(c: Codec<Event>, line: Bytes)
    requires TrimSpace(line) != []
    ensures Decode(c, Texts([line])) == [c.dec(TrimSpace(line))]
  {}

  /** The last line, when no newline ends it. */
  lemma {:induction false} LastLine<Event(!new)>(c: Codec<Event>, log: seq<Attempt<Event>>)
    requires Json(c) && Possible(c, log) && Pending(c, log, |log|) != []
    ensures TrimSpace(Pending(c, log, |log|)) != []
  {
    var line := Pending(c, log, |log|);
    FreshPending(c, log, |log|);
    var k := TrimTorn([], line);
    assert [] + line == line;
  }

  // ---- proofs: the records that can be read back ----

  /** Once nothing more is written, the rest of the log adds nothing but the last line. */
  lemma {:induction false} Quiet<Event(!new)>(c: Codec<Event>, log: seq<Attempt<Event>>, i: nat)
    requires Json(c) && Possible(c, log) && i <= |log| && Silent(log, i)
    ensures RecordsFrom(c, log, i) == RecordsFrom(c, log, |log|)
    ensures Fresh(c, log, i) == Fresh(c, log, |log|) && Pending(c, log, i) == Pending(c, log, |log|)
    ensures IntactFrom(c, log, i) == []
    decreases |log| - i
  {
    if i < |log| {
      Encoded(c, log[i].event);
      assert log[i].wrote == 0;
      Quiet(c, log, i + 1);
      assert Pending(c, log, i + 1) == Pending(c, log, i) + [];
    }
  }

  /** The last write that reached the file, when it is whole. */
  lemma {:induction false} LastWhole<Event(!new)>(c: Codec<Event>, log: seq<Attempt<Event>>, i: nat)
    requires Json(c) && Possible(c, log) && i < |log| && Silent(log, i + 1) && Whole(c, log[i])
    ensures Somes(RecordsFrom(c, log, i)) == IntactFrom(c, log, i)
  {
    hide Json, Silent, TrimSpace, Somes;
    Quiet(c, log, i + 1);
    AfterWhole(c, log, i);
    assert RecordsFrom(c, log, i + 1) == [];
    var r := if Fresh(c, log, i) then Some(log[i].event) else None;
    assert RecordsFrom(c, log, i) == [r];
    SomesOne(r);
  }

  /** The same when it is torn. */
  lemma {:induction false} LastTorn<Event(!new)>(c: Codec<Event>, log: seq<Attempt<Event>>, i: nat)
    requires Json(c) && Possible(c, log) && i < |log| && Silent(log, i + 1) && 0 < log[i].wrote && !Whole(c, log[i])
    ensures Somes(RecordsFrom(c, log, i)) == IntactFrom(c, log, i)
  {
    hide Json, Silent, TrimSpace, Somes, Fresh, Pending;
    Quiet(c, log, i + 1);
    FreshPending(c, log, i);
    var r := if Fresh(c, log, i) && LacksNewline(c, log[i]) then Some(log[i].event) else None;
    TornEnd(c, log, i, r);
    assert RecordsFrom(c, log, |log|) == [r];
    assert RecordsFrom(c, log, i) == [] + RecordsFrom(c, log, i + 1) == [r];
    SomesOne(r);
  }

  lemma TornEnd<Event(!new)>(c: Codec<Event>, log: seq<Attempt<Event>>, i: nat, r: Option<Event>)
    requires Json(c) && Possible(c, log) && i < |log| && 0 < log[i].wrote && !Whole(c, log[i])
    requires r == if Fresh(c, log, i) && LacksNewline(c, log[i]) then Some(log[i].event) else None
    ensures !Fresh(c, log, i + 1) && c.dec(TrimSpace(Pending(c, log, i + 1))) == r
  {
    hide Json, TrimSpace;
    var e := log[i].event;
    FreshPending(c, log, i);
    TornLine(c, Pending(c, log, i), e, log[i].wrote);
    assert Appended(c, log[i]) == c.enc(e)[..log[i].wrote];
  }

  lemma SomesOne<T>(r: Option<T>)
    ensures Somes([r]) == match r case Some(e) => [e] case None => []
  {}

  lemma {:induction false} SomesAdd<T>(a: seq<Option<T>>, b: seq<Option<T>>)
    ensures Somes(a + b) == Somes(a) + Somes(b)
    decreases |b|
  {
    if b == [] {
      assert a + b == a;
    } else {
      SomesAdd(a, b[..|b| - 1]);
      assert (a + b)[..|a + b| - 1] == a + b[..|b| - 1];
    }
  }

  lemma NotSilent<Event>(log: seq<Attempt<Event>>, i: nat)
    requires !Silent(log, i)
    ensures i < |log| && if Silent(log, i + 1) then log[i].wrote > 0 else i + 1 < |log|
  {}

  lemma {:induction false} SomesIntact<Event(!new)>(c: Codec<Event>, log: seq<Attempt<Event>>, i: nat)
    requires Json(c) && Possible(c, log) && i <= |log| && !Silent(log, i)
    ensures Somes(RecordsFrom(c, log, i)) == IntactFrom(c, log, i)
    decreases |log| - i
  {
    hide Json, TrimSpace, Silent, Somes, Fresh;
    NotSilent(log, i);
    if Silent(log, i + 1) {
      if Whole(c, log[i]) {
        LastWhole(c, log, i);
      } else {
        LastTorn(c, log, i);
      }
    } else {
      SomesIntact(c, log, i + 1);
      var r := if Fresh(c, log, i) then Some(log[i].event) else None;
      SomesOne(r);
      SomesAdd([r], RecordsFrom(c, log, i + 1));
      assert [] + RecordsFrom(c, log, i + 1) == RecordsFrom(c, log, i + 1);
    }
  }

  // ---- proofs: when the trail counts as corrupt ----

  predicate BadInside<T>(records: seq<Option<T>>) {
    exists j :: 0 <= j < |records| - 1 && records[j].None?
  }

  lemma {:induction false} NoRecords<Event(!new)>(c: Codec<Event>, log: seq<Attempt<Event>>, i: nat)
    requires Json(c) && Possible(c, log) && i <= |log|
    ensures RecordsFrom(c, log, i) == [] <==> Silent(log, i) && Fresh(c, log, i)
    decreases |log| - i
  {
    hide Json, TrimSpace;
    if i < |log| {
      NoRecords(c, log, i + 1);
      Encoded(c, log[i].event);
      assert Silent(log, i) <==> log[i].wrote == 0 && Silent(log, i + 1);
    }
  }

  lemma BadCons<T>(r: Option<T>, records: seq<Option<T>>)
    ensures BadInside([r] + records) <==> (r.None? && records != []) || BadInside(records)
  {
    var all := [r] + records;
    assert all[0] == r && forall j :: 0 <= j < |records| ==> all[j + 1] == records[j];
    if j :| 0 <= j < |all| - 1 && all[j].None? && j > 0 {
      assert records[j - 1].None?;
    }
    if r.None? && records != [] {
      assert all[0].None?;
    }
  }

  lemma {:induction false} BadIffCorrupt<Event(!new)>(c: Codec<Event>, log: seq<Attempt<Event>>, i: nat)
    requires Json(c) && Possible(c, log) && i <= |log|
    ensures BadInside(RecordsFrom(c, log, i)) <==> exists k :: i <= k < |log| && CorruptAt(c, log, k)
    decreases |log| - i
  {
    hide Json, TrimSpace, BadInside, Silent, Fresh, CorruptAt;
    if i == |log| {
      AtMostOne(RecordsFrom(c, log, i));
    } else {
      BadIffCorrupt(c, log, i + 1);
      CorruptHere(c, log, i);
      if k :| i <= k < |log| && CorruptAt(c, log, k) {
        assert k == i || i + 1 <= k;
      }
      if Whole(c, log[i]) {
        BadCons(if Fresh(c, log, i) then Some(log[i].event) else None, RecordsFrom(c, log, i + 1));
        NoRecords(c, log, i + 1);
        AfterWhole(c, log, i);
      } else {
        assert [] + RecordsFrom(c, log, i + 1) == RecordsFrom(c, log, i + 1);
      }
    }
  }

  lemma {:induction false} CorruptHere<Event>(c: Codec<Event>, log: seq<Attempt<Event>>, i: nat)
    requires i < |log|
    ensures CorruptAt(c, log, i) <==> Whole(c, log[i]) && !Fresh(c, log, i) && !Silent(log, i + 1)
  {}

  lemma AtMostOne<T>(records: seq<Option<T>>)
    requires |records| <= 1
    ensures !BadInside(records)
  {}

  lemma {:induction false} AfterWhole<Event>(c: Codec<Event>, log: seq<Attempt<Event>>, i: nat)
    requires i < |log| && Whole(c, log[i])
    ensures Fresh(c, log, i + 1)
  {}

  lemma {:induction false} WholeFile<Event(!new)>(c: Codec<Event>, log: seq<Attempt<Event>>)
    requires Json(c) && Possible(c, log)
    ensures var records := Decode(c, Texts(Lines(FileOf(c, log), [])));
            && Somes(records) == IntactFrom(c, log, 0)
            && (BadInside(records) <==> exists i :: 0 <= i < |log| && CorruptAt(c, log, i))
  {
    hide Json, TrimSpace, BadInside, Decode, Texts, Lines, LinesFrom, FileOf;
    assert log[0..] == log;
    LinesAre(c, log, 0);
    RecordsAre(c, log, 0);
    BadIffCorrupt(c, log, 0);
    if Silent(log, 0) {
      Quiet(c, log, 0);
    } else {
      SomesIntact(c, log, 0);
    }
  }

  /**
   * Whatever writes were torn, what ReadLog returns for the file is exactly the
   * records that start a line and reach its end, in the order of the file; a torn
   * record takes the next one with it. There is an error exactly when a line that
   * joins a torn record to a later one has something after it.
   */
  lemma {:induction false} ReadsIntact<Event(!new)>(c: Codec<Event>, log: seq<Attempt<Event>>, read: Log<Event>)
    requires Json(c) && Possible(c, log) && ReadsAs(c, FileOf(c, log), read) && read.Log?
    ensures read.events == IntactFrom(c, log, 0)
    ensures read.corrupt.Some? <==> exists i :: 0 <= i < |log| && CorruptAt(c, log, i)
  {
    hide Json, CorruptAt, IntactFrom, FileOf;
    WholeFile(c, log);
  }
}
