/** The log ring: the last entries of a log that never ends. */
module LogRing {
  import opened Bytes
  import opened LogLines

  datatype Level = Info | Warn | Severe

  /** A logged line, apart from its time. */
  datatype Entry = Entry(seqNo: nat, level: Level, parts: Parts)

  const DEFAULT_CAPACITY: nat := 5000

  /** Texts as entries, numbered from the one after n. */
  function Entries(texts: seq<bytes>, level: Level, n: nat, stamp: bytes -> bool): (r: seq<Entry>)
    ensures |r| == |texts| && forall i | 0 <= i < |r| :: r[i] == Entry(n + i + 1, level, ParseLine(texts[i], stamp))
  {
    seq(|texts|, i requires 0 <= i < |texts| => Entry(n + i + 1, level, ParseLine(texts[i], stamp)))
  }

  /** The entries a reader who has seen the first n of them is given, of a log of which the
      last `capacity` survive. */
  function Survivors(log: seq<Entry>, capacity: nat, n: nat): seq<Entry> {
    log[Min(|log|, Max(n, |log| - Min(|log|, capacity)))..]
  }

  class Ring {
    const blank: bytes -> bool       // the text is all white space
    const stamp: bytes -> bool       // the nineteen bytes are a date and time
    const capacity: nat
    const entries: array<Entry>
    var next: nat
    var count: nat
    var seqNo: nat
    ghost var log: seq<Entry>     // everything ever logged

    ghost predicate Valid()
      reads this, entries
    {
      && capacity == entries.Length > 0
      && seqNo == |log| && count == Min(|log|, capacity) && next == |log| % capacity
      && (forall i | 0 <= i < |log| :: log[i].seqNo == i + 1)
      && forall k | |log| - count <= k < |log| :: entries[k % capacity] == log[k]
    }

    constructor (capacity: int, blank: bytes -> bool, stamp: bytes -> bool)
      ensures Valid() && fresh(entries) && log == [] && this.blank == blank && this.stamp == stamp
      ensures this.capacity == if capacity <= 0 then DEFAULT_CAPACITY else capacity
    {
      var c := if capacity <= 0 then DEFAULT_CAPACITY else capacity;
      this.capacity := c;
      this.blank := blank;
      this.stamp := stamp;
      entries := new Entry[c](_ => Entry(0, Info, Parts([], [])));
      next, count, seqNo, log := 0, 0, 0, [];
    }

    /** appendLocked. */
    method Append(text: bytes, level: Level)
      requires Valid()
      modifies this`next, this`count, this`seqNo, this`log, entries
      ensures Valid() && log == old(log) + [Entry(|old(log)| + 1, level, ParseLine(text, stamp))]
    {
      ghost var n := |log|;
      seqNo := seqNo + 1;
      var e := Entry(seqNo, level, ParseLine(text, stamp));
      entries[next] := e;
      NextSlot(n, capacity);
      next := (next + 1) % capacity;
      if count < capacity { count := count + 1; }
      log := log + [e];
      forall k | |log| - count <= k < n
        ensures entries[k % capacity] == log[k]
      {
        OtherSlot(k, n, capacity);
      }
    }

    /** The i-th entry held, oldest first. */
    method Held(start: nat, i: nat) returns (e: Entry)
      requires Valid() && i < count && start == if count == capacity then next else 0
      ensures e == log[|log| - count + i] && e.seqNo == |log| - count + i + 1
    {
      SlotOf(|log|, capacity, count, i);
      e := entries[(start + i) % capacity];
    }

    /** Since: what survives of the log after the entry with this number, oldest first. */
    method Since(n: nat) returns (out: seq<Entry>)
      requires Valid()
      ensures out == Survivors(log, capacity, n)
    {
      out := [];
      var start := if count == capacity then next else 0;
      ghost var first := |log| - count;
      ghost var from := Max(first, Min(|log|, n));
      for i := 0 to count
        invariant out == if first + i <= from then [] else log[from..first + i]
      {
        var e := Held(start, i);
        if e.seqNo > n {
          OneMore(log, from, first + i);
          out := out + [e];
        }
      }
    }

    /** The next complete line, if there is anything in it. */
    method LogLine(lines: seq<bytes>, i: nat, level: Level, ghost before: seq<Entry>)
      requires Valid() && i < |lines| && log == before + Entries(Texts(lines[..i], blank), level, |before|, stamp)
      modifies this`next, this`count, this`seqNo, this`log, entries
      ensures Valid() && log == before + Entries(Texts(lines[..i + 1], blank), level, |before|, stamp)
    {
      var text := TrimReturns(lines[i]);
      TextsNext(lines, i, blank);
      EntriesNext(Texts(lines[..i], blank), text, level, |before|, stamp);
      if !blank(text) { Append(text, level); }
    }

    method LogLines(lines: seq<bytes>, level: Level)
      requires Valid()
      modifies this`next, this`count, this`seqNo, this`log, entries
      ensures Valid() && log == old(log) + Entries(Texts(lines, blank), level, |old(log)|, stamp)
    {
      assert log + [] == log;
      for i := 0 to |lines|
        invariant Valid() && log == old(log) + Entries(Texts(lines[..i], blank), level, |old(log)|, stamp)
      {
        LogLine(lines, i, level, old(log));
      }
      assert lines[..|lines|] == lines;
    }

    /** write: the lines that this completes are logged, and the rest is kept for the next. */
    method WriteBytes(p: bytes, level: Level, partial: bytes) returns (rest: bytes)
      requires Valid()
      modifies this`next, this`count, this`seqNo, this`log, entries
      ensures Valid() && rest == Rest(partial + p)
      ensures log == old(log) + Entries(Texts(Lines(partial + p), blank), level, |old(log)|, stamp)
    {
      var lines;
      lines, rest := Split(partial + p);
      LogLines(lines, level);
    }
  }

  /** A writer that records at one level and keeps its own partial line. The ring's own
      Write is one more of these, at Info. */
  class LevelWriter {
    const ring: Ring
    const level: Level
    var partial: bytes

    constructor (ring: Ring, level: Level)
      ensures this.ring == ring && this.level == level && partial == []
    {
      this.ring := ring;
      this.level := level;
      partial := [];
    }

    method Write(p: bytes)
      requires ring.Valid()
      modifies this`partial, ring, ring.entries
      ensures ring.Valid() && partial == Rest(old(partial) + p)
      ensures ring.log == old(ring.log) + Entries(Texts(Lines(old(partial) + p), ring.blank), level, |old(ring.log)|, ring.stamp)
    {
      partial := ring.WriteBytes(p, level, partial);
    }
  }

  /** Tagged texts as the log holds them: numbered, each at its own writer's level. */
  predicate Records(log: seq<Entry>, tagged: seq<Tagged>, levels: seq<Level>, stamp: bytes -> bool) {
    |log| == |tagged|
    && forall i | 0 <= i < |log| ::
         tagged[i].writer < |levels| && log[i] == Entry(i + 1, levels[tagged[i].writer], ParseLine(tagged[i].text, stamp))
  }

  lemma RecordsMore(log: seq<Entry>, tagged: seq<Tagged>, levels: seq<Level>, w: nat, texts: seq<bytes>, stamp: bytes -> bool)
    requires Records(log, tagged, levels, stamp) && w < |levels|
    ensures Records(log + Entries(texts, levels[w], |log|, stamp), tagged + Tag(w, texts), levels, stamp)
  {}

  lemma StreamNext(turns: seq<Turn>, i: nat, w: nat, blank: bytes -> bool)
    requires i < |turns|
    ensures Stream(turns[..i + 1], w) == Stream(turns[..i], w) + if turns[i].writer == w then turns[i].data else []
    ensures var s := Stream(turns[..i], w); Rest(s + turns[i].data) == Rest(Rest(s) + turns[i].data)
    ensures turns[i].writer == w ==>
              Logged(turns[..i + 1], blank)
              == Logged(turns[..i], blank) + Tag(w, Texts(Lines(Rest(Stream(turns[..i], w)) + turns[i].data), blank))
  {
    assert turns[..i + 1][..i] == turns[..i];
    assert Stream(turns[..i], w) + [] == Stream(turns[..i], w);
    LinesAppend(Stream(turns[..i], w), turns[i].data);
  }

  /** Any run of writes: the log is what the turns complete, each line whole and at the level
      of the writer it came from, and a reader sees the last of it. */
  method Run(capacity: int, blank: bytes -> bool, stamp: bytes -> bool, levels: seq<Level>, turns: seq<Turn>, n: nat) returns (ring: Ring, seen: seq<Entry>)
    requires forall i | 0 <= i < |turns| :: turns[i].writer < |levels|
    ensures fresh(ring) && ring.Valid() && Records(ring.log, Logged(turns, blank), levels, stamp)
    ensures seen == Survivors(ring.log, ring.capacity, n)
  {
    ring := new Ring(capacity, blank, stamp);
    var writers := NewWriters(ring, levels);
    for i := 0 to |turns|
      invariant ring.Valid() && fresh(ring) && fresh(ring.entries) && ring.blank == blank && ring.stamp == stamp
      invariant Writing(writers, ring, levels) && forall w | 0 <= w < |writers| :: fresh(writers[w])
      invariant forall w | 0 <= w < |writers| :: writers[w].partial == Rest(Stream(turns[..i], w))
      invariant Records(ring.log, Logged(turns[..i], blank), levels, stamp)
    {
      var t := turns[i];
      ghost var log, texts := ring.log, Texts(Lines(Rest(Stream(turns[..i], t.writer)) + t.data), blank);
      RecordsMore(log, Logged(turns[..i], blank), levels, t.writer, texts, stamp);
      writers[t.writer].Write(t.data);
      forall w | 0 <= w < |writers|
        ensures writers[w].partial == Rest(Stream(turns[..i + 1], w))
      {
        StreamNext(turns, i, w, blank);
        assert Stream(turns[..i], w) + [] == Stream(turns[..i], w);
      }
      StreamNext(turns, i, t.writer, blank);
    }
    assert turns[..|turns|] == turns;
    seen := ring.Since(n);
  }

  /** Distinct writers of the ring, at these levels. */
  ghost predicate Writing(writers: seq<LevelWriter>, ring: Ring, levels: seq<Level>) {
    && |writers| == |levels|
    && (forall i, j | 0 <= i < j < |writers| :: writers[i] != writers[j])
    && forall i | 0 <= i < |writers| :: writers[i].ring == ring && writers[i].level == levels[i]
  }

  method NewWriters(ring: Ring, levels: seq<Level>) returns (writers: seq<LevelWriter>)
    ensures Writing(writers, ring, levels) && forall w | 0 <= w < |writers| :: fresh(writers[w]) && writers[w].partial == []
  {
    writers := [];
    for i := 0 to |levels|
      invariant Writing(writers, ring, levels[..i]) && forall w | 0 <= w < |writers| :: fresh(writers[w]) && writers[w].partial == []
    {
      var w := new LevelWriter(ring, levels[i]);
      writers := writers + [w];
    }
    assert levels[..|levels|] == levels;
  }

  /** The complete lines and the rest, found newline by newline. */
  method Split(s: bytes) returns (lines: seq<bytes>, rest: bytes)
    ensures lines == Lines(s) && rest == Rest(s)
  {
    lines, rest := [], s;
    while true
      invariant lines + Lines(rest) == Lines(s) && Rest(rest) == Rest(s)
      decreases |rest|
    {
      var i := IndexOf(rest, NEWLINE);
      if i == |rest| {
        NoNewline(rest);
        assert lines + [] == lines;
        return;
      }
      var x, y := rest[..i], rest[i + 1..];
      assert rest == x + [NEWLINE] + y;
      FirstLine(x, y);
      assert lines + ([x] + Lines(y)) == (lines + [x]) + Lines(y);
      lines, rest := lines + [x], y;
    }
  }

  /** indexByte, with the length for a byte that is not there. */
  method IndexOf(s: bytes, c: byte) returns (i: nat)
    ensures i <= |s| && c !in s[..i] && (i < |s| ==> s[i] == c)
  {
    i := 0;
    while i < |s|
      invariant i <= |s| && c !in s[..i]
    {
      if s[i] == c { return; }
      i := i + 1;
    }
  }

  lemma OneMore(log: seq<Entry>, from: nat, j: nat)
    requires from <= j < |log|
    ensures log[from..j + 1] == log[from..j] + [log[j]]
  {}

  lemma EntriesNext(texts: seq<bytes>, text: bytes, level: Level, n: nat, stamp: bytes -> bool)
    ensures Entries(texts + [text], level, n, stamp) == Entries(texts, level, n, stamp) + [Entry(n + |texts| + 1, level, ParseLine(text, stamp))]
  {}

  lemma TextsNext(lines: seq<bytes>, i: nat, blank: bytes -> bool)
    requires i < |lines|
    ensures Texts(lines[..i + 1], blank)
            == Texts(lines[..i], blank) + if blank(TrimReturns(lines[i])) then [] else [TrimReturns(lines[i])]
  {
    assert lines[..i + 1][..i] == lines[..i];
    assert Texts(lines[..i], blank) + [] == Texts(lines[..i], blank);
  }

  // ---- slots ----

  lemma RemainderIs(x: int, q: int, r: int, c: nat)
    requires c > 0 && x == q * c + r && 0 <= r < c
    ensures x % c == r
  {
    var d := x / c - q;
    assert d * c == r - x % c by {
      assert x == x / c * c + x % c;
      assert d * c == x / c * c - q * c;
    }
  }

  lemma Wraps(a: nat, q: nat, c: nat)
    requires c > 0
    ensures (a + q * c) % c == a % c
  {
    assert a == a / c * c + a % c;
    assert (q + a / c) * c == q * c + a / c * c;
    RemainderIs(a + q * c, q + a / c, a % c, c);
  }

  lemma NextSlot(n: nat, c: nat)
    requires c > 0
    ensures (n % c + 1) % c == (n + 1) % c
  {
    assert n == n / c * c + n % c;
    Wraps(n % c + 1, n / c, c);
  }

  /** Of c consecutive numbers no two share a slot. */
  lemma OtherSlot(k: nat, n: nat, c: nat)
    requires c > 0 && k < n < k + c
    ensures k % c != n % c
  {
    var d := n / c - k / c;
    assert d * c == (n - n % c) - (k - k % c) by {
      assert n == n / c * c + n % c && k == k / c * c + k % c;
      assert d * c == n / c * c - k / c * c;
    }
  }

  /** Where the i-th survivor is. */
  lemma SlotOf(n: nat, c: nat, count: nat, i: nat)
    requires c > 0 && count == Min(n, c) && i < count
    ensures ((if count == c then n % c else 0) + i) % c == (n - count + i) % c
  {
    if count == c {
      assert n == n / c * c + n % c;
      Wraps(n % c + i, n / c, c);
      Wraps(n - c + i, 1, c);
    }
  }
}
