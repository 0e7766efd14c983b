/** Lines of a byte stream that arrives in pieces, from writers that take turns. */
module LogLines {
  import opened Bytes

  const NEWLINE: byte := 10
  const RETURN: byte := 13

  /** The lines a stream has completed, without their newlines. */
  function Lines(s: bytes): seq<bytes> {
    if s == [] then []
    else
      var init := s[..|s| - 1];
      if s[|s| - 1] == NEWLINE then Lines(init) + [Rest(init)] else Lines(init)
  }

  /** What follows its last newline. */
  function Rest(s: bytes): bytes {
    if s == [] || s[|s| - 1] == NEWLINE then [] else Rest(s[..|s| - 1]) + [s[|s| - 1]]
  }

  lemma {:induction false} NoNewline(s: bytes)
    requires NEWLINE !in s
    ensures Lines(s) == [] && Rest(s) == s
  {
    if s != [] {
      NoNewline(s[..|s| - 1]);
      assert s == s[..|s| - 1] + [s[|s| - 1]];
    }
  }

  lemma {:induction false} RestHasNone(s: bytes)
    ensures NEWLINE !in Rest(s)
  {
    if s != [] {
      RestHasNone(s[..|s| - 1]);
    }
  }

  /** Only what follows the last newline matters for what comes next. */
  lemma {:induction false} LinesAppend(a: bytes, b: bytes)
    ensures Lines(a + b) == Lines(a) + Lines(Rest(a) + b)
    ensures Rest(a + b) == Rest(Rest(a) + b)
    decreases |b|
  {
    if b == [] {
      assert a + b == a && Rest(a) + b == Rest(a);
      RestHasNone(a);
      NoNewline(Rest(a));
      assert Lines(a) + [] == Lines(a);
    } else {
      var init := b[..|b| - 1];
      LinesAppend(a, init);
      assert (a + b)[..|a + b| - 1] == a + init;
      assert (Rest(a) + b)[..|Rest(a) + b| - 1] == Rest(a) + init;
      assert Lines(a) + (Lines(Rest(a) + init) + [Rest(a + init)]) == (Lines(a) + Lines(Rest(a) + init)) + [Rest(a + init)];
    }
  }

  /** The first line, and the lines after it. */
  lemma FirstLine(x: bytes, y: bytes)
    requires NEWLINE !in x
    ensures Lines(x + [NEWLINE] + y) == [x] + Lines(y) && Rest(x + [NEWLINE] + y) == Rest(y)
  {
    NoNewline(x);
    var line := x + [NEWLINE];
    assert line[..|line| - 1] == x;
    assert Lines(line) == [x] && Rest(line) == [];
    LinesAppend(line, y);
    assert [] + y == y;
  }

  // ---- what is logged of them ----

  function TrimReturns(s: bytes): bytes {
    if s != [] && s[|s| - 1] == RETURN then TrimReturns(s[..|s| - 1]) else s
  }

  /** The lines as texts, blank ones left out. */
  function Texts(lines: seq<bytes>, blank: bytes -> bool): seq<bytes> {
    if lines == [] then []
    else
      var before, text := Texts(lines[..|lines| - 1], blank), TrimReturns(lines[|lines| - 1]);
      if blank(text) then before else before + [text]
  }

  lemma {:induction false} TextsAppend(a: seq<bytes>, b: seq<bytes>, blank: bytes -> bool)
    ensures Texts(a + b, blank) == Texts(a, blank) + Texts(b, blank)
    decreases |b|
  {
    if b == [] {
      assert a + b == a && Texts(a, blank) + [] == Texts(a, blank);
    } else {
      TextsAppend(a, b[..|b| - 1], blank);
      assert (a + b)[..|a + b| - 1] == a + b[..|b| - 1];
    }
  }

  // ---- the parts of a line ----

  const SPACE: byte := 32
  const OPENING: byte := 0x5B
  const CLOSING: byte := 0x5D
  const STAMP: nat := 19

  /** A line's source, such as "[agent]", and its message. */
  datatype Parts = Parts(source: bytes, message: bytes)

  function TrimSpaces(s: bytes): bytes {
    if s != [] && s[0] == SPACE then TrimSpaces(s[1..]) else s
  }

  /** Where the byte first is, or the length when it is not there. */
  function First(s: bytes, c: byte): (i: nat)
    ensures i <= |s| && c !in s[..i] && (i < |s| ==> s[i] == c)
  {
    if s == [] || s[0] == c then 0
    else
      var i := 1 + First(s[1..], c);
      assert s[..i] == [s[0]] + s[1..][..i - 1];
      i
  }

  /** The message after a date and time, when there is one with a space after it. */
  function MessageOf(rest: bytes, stamp: bytes -> bool): bytes {
    if |rest| > STAMP && rest[STAMP] == SPACE && stamp(rest[..STAMP]) then TrimSpaces(rest[STAMP + 1..]) else rest
  }

  /** parseLine, apart from the time it finds. */
  function ParseLine(line: bytes, stamp: bytes -> bool): Parts {
    var end := First(line, CLOSING);
    if line != [] && line[0] == OPENING && end < |line| then
      Parts(line[..end + 1], MessageOf(TrimSpaces(line[end + 1..]), stamp))
    else Parts([], MessageOf(line, stamp))
  }

  lemma FirstIs(a: bytes, c: byte, b: bytes)
    requires c !in a
    ensures First(a + [c] + b, c) == |a|
  {
    var s := a + [c] + b;
    assert s[|a|] == c && forall j | 0 <= j < |a| :: s[j] == a[j];
  }

  /** A line that a logger wrote with a source and a time gives both parts back, whatever
      follows the source's bracket in the message. */
  lemma LineRoundTrip(name: bytes, time: bytes, message: bytes, stamp: bytes -> bool)
    requires CLOSING !in name && |time| == STAMP && stamp(time) && time[0] != SPACE && (message == [] || message[0] != SPACE)
    ensures ParseLine([OPENING] + name + [CLOSING] + [SPACE] + time + [SPACE] + message, stamp)
            == Parts([OPENING] + name + [CLOSING], message)
  {
    var source, rest := [OPENING] + name + [CLOSING], time + [SPACE] + message;
    var line := [OPENING] + name + [CLOSING] + [SPACE] + time + [SPACE] + message;
    assert line == ([OPENING] + name) + [CLOSING] + ([SPACE] + rest);
    FirstIs([OPENING] + name, CLOSING, [SPACE] + rest);
    assert line[..|name| + 2] == source && line[|name| + 2..] == [SPACE] + rest;
    assert ([SPACE] + rest)[1..] == rest && rest[0] == time[0];
    assert TrimSpaces([SPACE] + rest) == TrimSpaces(rest) == rest;
    assert rest[..STAMP] == time && rest[STAMP + 1..] == message;
  }

  // ---- writers that take turns ----

  /** One write, of a writer. */
  datatype Turn = Turn(writer: nat, data: bytes)

  /** A text and the writer it came from. */
  datatype Tagged = Tagged(writer: nat, text: bytes)

  function Tag(w: nat, texts: seq<bytes>): (r: seq<Tagged>)
    ensures |r| == |texts| && forall i | 0 <= i < |r| :: r[i] == Tagged(w, texts[i])
  {
    seq(|texts|, i requires 0 <= i < |texts| => Tagged(w, texts[i]))
  }

  /** Everything a writer wrote. */
  function Stream(turns: seq<Turn>, w: nat): bytes {
    if turns == [] then []
    else
      var before, t := Stream(turns[..|turns| - 1], w), turns[|turns| - 1];
      if t.writer == w then before + t.data else before
  }

  /** What the turns log: each completes the lines of its own writer only. */
  function Logged(turns: seq<Turn>, blank: bytes -> bool): seq<Tagged> {
    if turns == [] then []
    else
      var before, t := turns[..|turns| - 1], turns[|turns| - 1];
      Logged(before, blank) + Tag(t.writer, Texts(Lines(Rest(Stream(before, t.writer)) + t.data), blank))
  }

  /** The texts of one writer, in order. */
  function Of(log: seq<Tagged>, w: nat): seq<bytes> {
    if log == [] then []
    else
      var before, e := Of(log[..|log| - 1], w), log[|log| - 1];
      if e.writer == w then before + [e.text] else before
  }

  lemma {:induction false} OfAppend(a: seq<Tagged>, b: seq<Tagged>, w: nat)
    ensures Of(a + b, w) == Of(a, w) + Of(b, w)
    decreases |b|
  {
    if b == [] {
      assert a + b == a && Of(a, w) + [] == Of(a, w);
    } else {
      OfAppend(a, b[..|b| - 1], w);
      assert (a + b)[..|a + b| - 1] == a + b[..|b| - 1];
    }
  }

  lemma {:induction false} OfTag(v: nat, texts: seq<bytes>, w: nat)
    ensures Of(Tag(v, texts), w) == if v == w then texts else []
    decreases |texts|
  {
    if texts != [] {
      var init := texts[..|texts| - 1];
      OfTag(v, init, w);
      assert Tag(v, texts)[..|texts| - 1] == Tag(v, init);
      assert texts == init + [texts[|texts| - 1]];
    }
  }

  /** Whatever the turns and however each writer's output was cut into them, what is logged
      of a writer is the complete lines of its own stream, in order. */
  lemma {:induction false} CuttingDoesNotMatter(turns: seq<Turn>, blank: bytes -> bool, w: nat)
    ensures Of(Logged(turns, blank), w) == Texts(Lines(Stream(turns, w)), blank)
    decreases |turns|
  {
    if turns != [] {
      var before, t := turns[..|turns| - 1], turns[|turns| - 1];
      var s := Stream(before, t.writer);
      var texts := Texts(Lines(Rest(s) + t.data), blank);
      CuttingDoesNotMatter(before, blank, w);
      OfAppend(Logged(before, blank), Tag(t.writer, texts), w);
      OfTag(t.writer, texts, w);
      if t.writer == w {
        LinesAppend(s, t.data);
        TextsAppend(Lines(s), Lines(Rest(s) + t.data), blank);
      } else {
        assert Of(Logged(before, blank), w) + [] == Of(Logged(before, blank), w);
      }
    }
  }
}
