/** The NFC Forum Type 4 driver over a card whose every answer is a free choice:
    done, refused, or lost before or after the card acted on it. */
module Type4Tag {
  import opened Bytes
  import opened Type4Plan
  import opened Type4Offsets

  // ---- offsets on the wire ----

  /** P1 and P2 of a binary command for a 16-bit offset, as the APDU builder masks them. */
  function P1(offset: nat): byte { ((offset % 65536) / 256) % 128 }
  function P2(offset: nat): byte { (offset % 65536) % 256 }

  /** What the card reads back out of P1 and P2. */
  lemma WireOffset(offset: nat)
    ensures P1(offset) as int * 256 + P2(offset) as int == OnWire(offset)
  {
    var o := offset % 65536;
    assert o % OFFSETS == offset % OFFSETS by {
      assert offset == (offset / 65536) * 2 * OFFSETS + o;
    }
    assert o == (o / 256) * 256 + o % 256;
    assert (o / 256) % 128 == (o % OFFSETS) / 256;
  }

  // ---- the Capability Container ----

  datatype Container = Container(fileId: bytes, fileSize: nat, mle: nat, mlc: nat)

  predicate IsControl(cc: bytes, i: nat)
    requires i + 3 < |cc|
  {
    cc[i] == 0x04 && cc[i + 1] >= 6 && i + 2 + cc[i + 1] as int <= |cc|
  }

  /** Where the NDEF File Control TLV is, looking from i on. */
  function FindControl(cc: bytes, i: nat): (r: Option<nat>)
    ensures r.Some? ==> i <= r.value && r.value + 3 < |cc| && IsControl(cc, r.value)
    decreases |cc| - i
  {
    if i + 3 >= |cc| then None
    else if IsControl(cc, i) then Some(i)
    else FindControl(cc, i + 2 + cc[i + 1] as int)
  }

  function ParseContainer(cc: bytes): Option<Container> {
    if |cc| < 7 then None
    else
      var mle, mlc := FromBe16(cc[3..]), FromBe16(cc[5..]);
      match FindControl(cc, 7)
      case None => Some(Container([0xE1, 0x04], 0, mle, mlc))
      case Some(i) => Some(Container(cc[i + 2..i + 4], FromBe16(cc[i + 4..]), mle, mlc))
  }

  /** parseType4CC. */
  method ParseType4CC(cc: bytes) returns (r: Option<Container>)
    ensures r == ParseContainer(cc)
  {
    if |cc| < 7 {
      return None;
    }
    var out := Container([0xE1, 0x04], 0, FromBe16(cc[3..]), FromBe16(cc[5..]));
    var i := 7;
    while i < |cc| - 3
      invariant 7 <= i
      invariant FindControl(cc, i) == FindControl(cc, 7)
      decreases |cc| - i
    {
      if IsControl(cc, i) {
        out := out.(fileId := cc[i + 2..i + 4], fileSize := FromBe16(cc[i + 4..]));
        return Some(out);
      }
      i := i + 2 + cc[i + 1] as int;
    }
    return Some(out);
  }

  /** A 15-byte Capability Container, section 5.1 of the Type 4 Tag Operation
      specification: CCLEN, version, MLe, MLc and the NDEF File Control TLV. */
  function BuildContainer(version: byte, c: Container, read: byte, write: byte): bytes {
    [0, 15, version] + Be16(c.mle) + Be16(c.mlc) + [0x04, 0x06] + c.fileId + Be16(c.fileSize) + [read, write]
  }

  lemma ContainerRoundTrip(version: byte, c: Container, read: byte, write: byte)
    requires |c.fileId| == 2 && c.fileSize < 65536 && c.mle < 65536 && c.mlc < 65536
    ensures ParseContainer(BuildContainer(version, c, read, write)) == Some(c)
  {
    var cc := BuildContainer(version, c, read, write);
    assert cc[3..][..2] == Be16(c.mle) && cc[5..][..2] == Be16(c.mlc) && cc[11..][..2] == Be16(c.fileSize);
    Be16RoundTrip(c.mle);
    Be16RoundTrip(c.mlc);
    Be16RoundTrip(c.fileSize);
    assert cc[9..11] == c.fileId;
  }

  // ---- the card ----

  /** What the card does with one command. A read answered with `most` returns at most
      that many bytes. */
  datatype Answer = Done(most: nat) | Refused | LostBefore | LostAfter

  /** How many bytes a read answer carries at most; one that does not come carries none. */
  function MostOf(a: Answer): nat { if a.Done? then a.most else 0 }

  class Card {
    const answers: nat -> Answer
    const container: bytes
    var sent: nat
    var file: bytes
    ghost var updates: seq<Update>   // the updates the file took, in order

    constructor (answers: nat -> Answer, container: bytes, file: bytes)
      ensures this.answers == answers && this.container == container
      ensures sent == 0 && this.file == file && updates == []
    {
      this.answers := answers;
      this.container := container;
      this.file := file;
      sent := 0;
      updates := [];
    }

    method Select() returns (ok: bool)
      modifies `sent
      ensures sent == old(sent) + 1 && ok == answers(old(sent)).Done?
    {
      ok := answers(sent).Done?;
      sent := sent + 1;
    }

    method ReadContainer() returns (r: Option<bytes>)
      modifies `sent
      ensures sent == old(sent) + 1
      ensures r == if answers(old(sent)).Done? then Some(container) else None
    {
      r := if answers(sent).Done? then Some(container) else None;
      sent := sent + 1;
    }

    method ReadBinary(offset: nat, want: nat) returns (r: Option<bytes>)
      modifies `sent
      ensures sent == old(sent) + 1
      ensures r == if answers(old(sent)).Done? then Some(Slice(file, OnWire(offset), Min(answers(old(sent)).most, want))) else None
    {
      var a := answers(sent);
      r := if a.Done? then Some(Slice(file, OnWire(offset), Min(a.most, want))) else None;
      sent := sent + 1;
    }

    /** The file takes an update that fits it, unless the card refuses it or never sees it. */
    method UpdateBinary(u: Update) returns (ok: bool)
      modifies `sent, `file, `updates
      ensures sent == old(sent) + 1
      ensures ok ==> file == Put(old(file), Wire(u)) && updates == old(updates) + [Wire(u)]
      ensures !ok ==> (file == old(file) && updates == old(updates))
                      || (file == Put(old(file), Wire(u)) && updates == old(updates) + [Wire(u)])
      ensures ok <==> answers(old(sent)).Done? && InRange(|old(file)|, Wire(u))
    {
      var a := answers(sent);
      sent := sent + 1;
      ok := a.Done? && InRange(|file|, Wire(u));
      if (a.Done? || a.LostAfter?) && InRange(|file|, Wire(u)) {
        file := Put(file, Wire(u));
        updates := updates + [Wire(u)];
      }
    }
  }

  function Slice(file: bytes, o: nat, n: nat): bytes {
    file[Min(o, |file|)..Min(o + n, |file|)]
  }

  // ---- reading ----

  datatype Failure = CardFailed | BadContainer | NoPayload | TooLong | OutOfFile

  /** One answer of the read loop: at most len bytes of the next chunk. */
  function Piece(file: bytes, offset: nat, remaining: nat, k: nat, len: nat): (p: bytes)
    ensures |p| <= remaining
  {
    Slice(file, OnWire(offset), Min(len, Min(remaining, k)))
  }

  lemma PieceInFile(file: bytes, offset: nat, remaining: nat, k: nat, len: nat)
    requires k >= 1 && remaining > 0 && offset + remaining <= |file| && offset + remaining <= OFFSETS
    ensures var p := Piece(file, offset, remaining, k, len);
            p == file[offset..offset + |p|] && (len >= 1 ==> p != [])
  {}

  /** What the read loop returns from a card that answers every command, where the i-th
      answer carries at most MostOf(answers(i)) bytes, when it has already collected `out`. None
      when an answer is empty. */
  function ReadLoop(file: bytes, out: bytes, remaining: nat, k: nat, answers: nat -> Answer, i: nat): Option<bytes>
    decreases remaining
  {
    if remaining == 0 then Some(out)
    else
      var got := Piece(file, 2 + |out|, remaining, k, MostOf(answers(i)));
      if got == [] then None else ReadLoop(file, out + got, remaining - |got|, k, answers, i + 1)
  }

  lemma Rejoin(file: bytes, a: nat, b: nat, c: nat)
    requires a <= b <= c <= |file|
    ensures file[a..b] + file[b..c] == file[a..c]
  {}

  /** One turn of the loop, in terms of what the card answered. */
  lemma ReadLoopTurn(file: bytes, out: bytes, remaining: nat, k: nat, answers: nat -> Answer, i: nat, got: bytes)
    requires remaining > 0 && got == Piece(file, 2 + |out|, remaining, k, MostOf(answers(i)))
    ensures ReadLoop(file, out, remaining, k, answers, i)
            == if got == [] then None else ReadLoop(file, out + got, remaining - |got|, k, answers, i + 1)
  {}

  /** One turn below 2^15 collects the file's next bytes. */
  lemma CollectsNext(file: bytes, out: bytes, end: nat, k: nat, len: nat)
    requires k >= 1 && 2 + |out| < end <= |file| && end <= OFFSETS && out == file[2..2 + |out|]
    ensures var got := Piece(file, 2 + |out|, end - 2 - |out|, k, len);
            && (len >= 1 ==> got != [])
            && 2 + |out + got| <= end && out + got == file[2..2 + |out + got|]
            && end - 2 - |out| - |got| == end - 2 - |out + got|
  {
    var offset := 2 + |out|;
    var got := Piece(file, offset, end - offset, k, len);
    PieceInFile(file, offset, end - offset, k, len);
    Rejoin(file, 2, offset, offset + |got|);
  }

  /** Below 2^15 what the loop collects is the file's bytes, and it collects them all
      however the card cuts its answers, if none is empty. */
  lemma {:induction false} ReadLoopReads(file: bytes, out: bytes, end: nat, k: nat, answers: nat -> Answer, i: nat)
    requires k >= 1 && 2 + |out| <= end <= |file| && end <= OFFSETS && out == file[2..2 + |out|]
    ensures var r := ReadLoop(file, out, end - 2 - |out|, k, answers, i);
            (r.Some? ==> r.value == file[2..end]) && ((forall j :: MostOf(answers(j)) >= 1) ==> r.Some?)
    decreases end - |out|
  {
    if 2 + |out| < end {
      var got := Piece(file, 2 + |out|, end - 2 - |out|, k, MostOf(answers(i)));
      CollectsNext(file, out, end, k, MostOf(answers(i)));
      ReadLoopTurn(file, out, end - 2 - |out|, k, answers, i, got);
      if got != [] {
        ReadLoopReads(file, out + got, end, k, answers, i + 1);
      }
    }
  }

  /** A card that answers a byte at a time shows the loop wrapping at 2^15. */
  lemma {:induction false} ByteAtATime(file: bytes, out: bytes, remaining: nat, k: nat, answers: nat -> Answer, i: nat)
    requires k >= 1 && |file| >= OFFSETS && forall j :: MostOf(answers(j)) == 1
    requires forall j | 0 <= j < |out| :: out[j] == file[OnWire(2 + j)]
    ensures var r := ReadLoop(file, out, remaining, k, answers, i);
            && r.Some? && |r.value| == |out| + remaining
            && forall j | 0 <= j < |r.value| :: r.value[j] == file[OnWire(2 + j)]
    decreases remaining
  {
    if remaining > 0 {
      var w := OnWire(2 + |out|);
      assert MostOf(answers(i)) == 1;
      assert Piece(file, 2 + |out|, remaining, k, 1) == file[w..w + 1] == [file[w]];
      ByteAtATime(file, out + [file[w]], remaining - 1, k, answers, i + 1);
    }
  }

  /** A stored message of n bytes that a read wraps on. */
  function Wrapped(n: nat): bytes
    requires 2 + n > OFFSETS
  {
    (Be16(n) + Zeros(n))[OFFSETS := ToByte(Be16(n)[0] as int + 1)]
  }

  lemma LongReadWraps(n: nat, k: nat)
    requires OFFSETS < 2 + n && n < 65536 && k >= 1
    ensures var file := Wrapped(n);
            |file| == 2 + n && FromBe16(file) == n
            && ReadLoop(file, [], n, k, (_: nat) => Done(1), 0) != Some(file[2..2 + n])
  {
    var file := Wrapped(n);
    Be16RoundTrip(n);
    ByteAtATime(file, [], n, k, (_: nat) => Done(1), 0);
    var got := ReadLoop(file, [], n, k, (_: nat) => Done(1), 0);
    assert got.value[OFFSETS - 2] == file[0] && file[2..2 + n][OFFSETS - 2] == file[OFFSETS];
  }

  /** The read returns every stored message of n bytes, from every card that answers
      each read with something, exactly when the message ends by 2^15. */
  lemma ReadReturnsIffShort(n: nat, k: nat)
    requires 0 < n < 65536 && k >= 1
    ensures 2 + n <= OFFSETS <==>
            forall file: bytes, answers: nat -> Answer |
              |file| >= 2 + n && FromBe16(file) == n && (forall j :: MostOf(answers(j)) >= 1) ::
              ReadLoop(file, [], n, k, answers, 0) == Some(file[2..2 + n])
  {
    if 2 + n <= OFFSETS {
      forall file: bytes, answers: nat -> Answer |
        |file| >= 2 + n && FromBe16(file) == n && (forall j :: MostOf(answers(j)) >= 1)
        ensures ReadLoop(file, [], n, k, answers, 0) == Some(file[2..2 + n])
      {
        ReadLoopReads(file, [], 2 + n, k, answers, 0);
      }
    } else {
      LongReadWraps(n, k);
    }
  }

  // ---- the driver ----

  /** selectNDEFFile: the application, the Capability Container and the file it names. */
  method SelectNdefFile(card: Card) returns (r: Result<Container, Failure>)
    modifies card`sent
    ensures r.Ok? ==> ParseContainer(card.container) == Some(r.value) && card.sent == old(card.sent) + 4
    ensures r.Err? ==> r.error.CardFailed? || r.error.BadContainer?
    ensures r.Ok? <==> ParseContainer(card.container).Some?
                       && forall i | old(card.sent) <= i < old(card.sent) + 4 :: card.answers(i).Done?
  {
    var first := card.sent;
    var ok := card.Select();
    if !ok {
      assert !card.answers(first).Done?;
      return Err(CardFailed);
    }
    ok := card.Select();
    if !ok {
      assert !card.answers(first + 1).Done?;
      return Err(CardFailed);
    }
    var raw := card.ReadContainer();
    if raw.None? {
      assert !card.answers(first + 2).Done?;
      return Err(CardFailed);
    }
    var cc := ParseType4CC(raw.value);
    if cc.None? { return Err(BadContainer); }
    ok := card.Select();
    if !ok {
      assert !card.answers(first + 3).Done?;
      return Err(CardFailed);
    }
    return Ok(cc.value);
  }

  /** The loop, having collected `out` with `remaining` to go, comes to this result. */
  ghost predicate ComesTo(card: Card, out: bytes, remaining: nat, k: nat, result: Option<bytes>)
    reads card
  {
    ReadLoop(card.file, out, remaining, k, card.answers, card.sent) == result
  }

  /** One turn of the loop: what the card answers with, empty when it does not. */
  method ReadTurn(card: Card, out: bytes, offset: nat, remaining: nat, k: nat, ghost result: Option<bytes>) returns (got: bytes)
    requires offset == 2 + |out| && remaining > 0 && ComesTo(card, out, remaining, k, result)
    modifies card`sent
    ensures |got| <= remaining
    ensures if got == [] then result == None else ComesTo(card, out + got, remaining - |got|, k, result)
  {
    ghost var i := card.sent;
    var chunk := card.ReadBinary(offset, Min(remaining, k));
    got := if chunk.None? then [] else chunk.value;
    ReadLoopTurn(card.file, out, remaining, k, card.answers, i, got);
  }

  /** The loop of ReadData over offset and remaining. */
  method ReadChunks(card: Card, nlen: nat, k: nat) returns (r: Option<bytes>)
    requires k >= 1
    modifies card`sent
    ensures r == ReadLoop(card.file, [], nlen, k, card.answers, old(card.sent))
  {
    ghost var result := ReadLoop(card.file, [], nlen, k, card.answers, card.sent);
    r := ReadRest(card, nlen, k, result);
  }

  /** The loop itself, which comes to the result it set out for. */
  method ReadRest(card: Card, nlen: nat, k: nat, ghost result: Option<bytes>) returns (r: Option<bytes>)
    requires ComesTo(card, [], nlen, k, result)
    modifies card`sent
    ensures r == result
  {
    var out: bytes := [];
    var offset: nat := 2;
    var remaining: nat := nlen;
    while remaining > 0
      invariant offset == 2 + |out| && ComesTo(card, out, remaining, k, result)
    {
      var got := ReadTurn(card, out, offset, remaining, k, result);
      if got == [] { return None; }
      out := out + got;
      offset := offset + |got|;
      remaining := remaining - |got|;
    }
    return Some(out);
  }

  method ReadLength(card: Card) returns (r: Option<nat>)
    modifies card`sent
    ensures card.sent == old(card.sent) + 1
    ensures r == if |card.file| >= 2 && MostOf(card.answers(old(card.sent))) >= 2 then Some(FromBe16(card.file)) else None
  {
    var head := card.ReadBinary(0, 2);
    if head.None? || |head.value| < 2 { return None; }
    assert head.value == card.file[..2];
    return Some(FromBe16(head.value));
  }

  /** The card answers the four commands from the n-th on, and its container parses. */
  ghost predicate Opens(card: Card, n: nat) {
    ParseContainer(card.container).Some? && forall i | n <= i < n + 4 :: card.answers(i).Done?
  }

  /** What a read that starts at the n-th command comes to. */
  ghost predicate Reads(card: Card, n: nat, data: bytes)
    reads card
  {
    && Opens(card, n) && |card.file| >= 2 && MostOf(card.answers(n + 4)) >= 2
    && var c, nlen := ParseContainer(card.container).value, FromBe16(card.file);
       && nlen > 0 && Room(c.fileSize, nlen)
       && ReadLoop(card.file, [], nlen, ChunkLimit(c.mle), card.answers, n + 5) == Some(data)
  }

  /** ReadData: it succeeds exactly when the card opens the file, gives its length and the
      loop collects the message, which is what it returns. */
  method ReadData(card: Card) returns (r: Result<bytes, Failure>)
    modifies card`sent
    ensures forall data: bytes :: r == Ok(data) <==> Reads(card, old(card.sent), data)
    ensures r == Err(NoPayload) ==> Decode(card.file) == Empty
  {
    var cc := SelectNdefFile(card);
    if cc.Err? { return Err(cc.error); }
    var length := ReadLength(card);
    if length.None? { return Err(CardFailed); }
    var nlen := length.value;
    if nlen == 0 { return Err(NoPayload); }
    if cc.value.fileSize > 2 && nlen > cc.value.fileSize - 2 { return Err(OutOfFile); }
    var out := ReadChunks(card, nlen, ChunkLimit(cc.value.mle));
    return if out.None? then Err(CardFailed) else Ok(out.value);
  }

  lemma PutNext(file: bytes, us: seq<Update>, j: nat)
    requires j < |us|
    ensures PutAll(file, us[..j + 1]) == Put(PutAll(file, us[..j]), us[j])
  {
    assert us[..j + 1] == us[..j] + [us[j]];
    PutAllAppend(file, us[..j], [us[j]]);
    assert [us[j]][1..] == [];
  }

  /** The card has taken the first j updates of the plan, as they reach it, and no others. */
  ghost predicate Took(card: Card, file: bytes, updates: seq<Update>, plan: seq<Update>, j: nat)
    requires j <= |plan|
    reads card
  {
    card.updates == updates + WireAll(plan)[..j] && card.file == PutAll(file, WireAll(plan)[..j])
  }

  /** The card takes and confirms the j-th update of the plan when it is the n-th command
      after which they start. */
  ghost predicate Takes(card: Card, n: nat, size: nat, plan: seq<Update>, j: nat)
    requires j < |plan|
  {
    card.answers(n + j).Done? && InRange(size, Wire(plan[j]))
  }

  /** The card takes and confirms the whole plan. */
  ghost predicate TakesAll(card: Card, n: nat, size: nat, plan: seq<Update>) {
    forall j | 0 <= j < |plan| :: Takes(card, n, size, plan, j)
  }

  /** Sending the plan's next update: it is taken, or it may have been and the send failed. */
  method SendNext(card: Card, u: Update, ghost file: bytes, ghost updates: seq<Update>, ghost plan: seq<Update>, ghost j: nat, ghost n: nat)
    returns (ok: bool, ghost made: nat)
    requires j < |plan| && plan[j] == u && Took(card, file, updates, plan, j) && card.sent == n + j
    modifies card
    ensures j <= made <= j + 1 && Took(card, file, updates, plan, made) && card.sent == n + j + 1
    ensures ok ==> made == j + 1
    ensures ok <==> Takes(card, n, |file|, plan, j)
  {
    ghost var before := card.updates;
    ghost var wired := WireAll(plan);
    ok := card.UpdateBinary(u);
    made := if card.updates == before then j else j + 1;
    PutNext(file, wired, j);
    assert wired[..j + 1] == wired[..j] + [wired[j]];
  }

  /** The chunk of the message at i, which is the plan's next update. */
  method SendChunk(card: Card, offset: nat, data: bytes, i: nat, k: nat, ghost file: bytes, ghost updates: seq<Update>, ghost plan: seq<Update>, ghost j: nat, ghost end: nat, ghost n: nat)
    returns (ok: bool, size: nat, ghost made: nat)
    requires k >= 1 && i < |data| && offset == 2 + i && Carries(plan, j, end, 2, data, i, k)
    requires Took(card, file, updates, plan, j) && card.sent == n + j
    modifies card
    ensures j < end <= |plan| && size == Min(k, |data| - i) && Carries(plan, j + 1, end, 2, data, i + k, k)
    ensures j <= made <= j + 1 && Took(card, file, updates, plan, made) && card.sent == n + j + 1
    ensures (ok ==> made == j + 1) && (ok <==> Takes(card, n, |file|, plan, j))
  {
    var chunk := data[i..Min(i + k, |data|)];
    PieceNext(plan, j, end, 2, data, i, k);
    ok, made := SendNext(card, Update(offset, chunk), file, updates, plan, j, n);
    size := |chunk|;
  }

  /** The loop of WriteData over the message's chunks, which are the plan's updates from the
      second up to the end-th. */
  method WriteChunks(card: Card, data: bytes, k: nat, ghost file: bytes, ghost updates: seq<Update>, ghost plan: seq<Update>, ghost end: nat, ghost n: nat)
    returns (ok: bool, ghost made: nat)
    requires k >= 1 && Carries(plan, 1, end, 2, data, 0, k) && 1 <= end <= |plan|
    requires Took(card, file, updates, plan, 1) && card.sent == n + 1
    modifies card
    ensures made <= end && Took(card, file, updates, plan, made)
    ensures ok ==> made == end && card.sent == n + made
    ensures ok <==> forall j | 1 <= j < end :: Takes(card, n, |file|, plan, j)
  {
    ok, made := true, 1;
    var offset: nat, i: nat := 2, 0;
    while i < |data|
      invariant ok && 1 <= made <= end
      invariant Carries(plan, made, end, 2, data, i, k)
      invariant Took(card, file, updates, plan, made)
      invariant card.sent == n + made
      invariant i < |data| ==> offset == 2 + i
      invariant forall j | 1 <= j < made :: Takes(card, n, |file|, plan, j)
    {
      ghost var j := made;
      var size;
      ok, size, made := SendChunk(card, offset, data, i, k, file, updates, plan, made, end, n);
      if !ok {
        assert !Takes(card, n, |file|, plan, j);
        return;
      }
      offset := offset + size;
      i := i + k;
    }
  }

  /** The card takes and confirms a whole write that starts at the n-th command. */
  ghost predicate Writes(card: Card, n: nat, size: nat, data: bytes) {
    && Opens(card, n)
    && var c := ParseContainer(card.container).value;
       Room(c.fileSize, |data|) && TakesAll(card, n + 4, size, Plan(data, ChunkLimit(c.mlc)))
  }

  /** The updates of WriteData, and whether the card took and confirmed them all. */
  method WriteFile(card: Card, data: bytes, k: nat) returns (ok: bool, ghost made: nat)
    requires k >= 1
    modifies card
    ensures made <= |Plan(data, k)| && Took(card, old(card.file), old(card.updates), Plan(data, k), made)
    ensures ok ==> made == |Plan(data, k)| && card.sent == old(card.sent) + made
    ensures ok <==> TakesAll(card, old(card.sent), |old(card.file)|, Plan(data, k))
  {
    ghost var file, updates, n, plan := card.file, card.updates, card.sent, Plan(data, k);
    assert updates + [] == updates && WireAll(plan)[..0] == [];
    ok, made := SendNext(card, Update(0, [0, 0]), file, updates, plan, 0, n);
    if !ok { return; }
    PlanMiddle(data, k);
    ok, made := WriteChunks(card, data, k, file, updates, plan, |plan| - 1, n);
    if !ok { return; }
    ok, made := SendNext(card, Update(0, Be16(|data|)), file, updates, plan, made, n);
  }

  /** WriteData: the file takes a prefix of the plan's updates, as they reach the card, and
      the whole plan when the write succeeds, which it does exactly when the card opens the
      file, has room and takes every update. `made` counts the updates it took. */
  method WriteData(card: Card, data: bytes) returns (r: Result<(), Failure>, ghost made: nat, ghost k: nat)
    modifies card
    ensures 1 <= k <= DEFAULT_CHUNK && made <= |Plan(data, k)|
    ensures Took(card, old(card.file), old(card.updates), Plan(data, k), made)
    ensures Opens(card, old(card.sent)) ==> k == ChunkLimit(ParseContainer(card.container).value.mlc)
    ensures r.Ok? ==> made == |Plan(data, k)| && card.sent == old(card.sent) + 4 + made
    ensures r.Ok? <==> Writes(card, old(card.sent), |old(card.file)|, data)
    ensures r == Err(TooLong) ==> made == 0
  {
    made, k := 0, 1;
    ghost var file, updates := card.file, card.updates;
    assert updates + [] == updates && WireAll(Plan(data, k))[..0] == [];
    var cc := SelectNdefFile(card);
    if cc.Err? { return Err(cc.error), made, k; }
    var maxWrite := ChunkLimit(cc.value.mlc);
    k := maxWrite;
    assert WireAll(Plan(data, k))[..0] == [];
    if cc.value.fileSize > 2 && |data| > cc.value.fileSize - 2 { return Err(TooLong), made, k; }
    var ok: bool;
    ok, made := WriteFile(card, data, maxWrite);
    return if ok then Ok(()) else Err(CardFailed), made, k;
  }

  // ---- writing and reading back ----

  lemma {:induction false} ChunksEnd(data: bytes, i: nat, k: nat)
    requires k >= 1
    ensures forall u | u in Chunks(data, i, k) :: u.offset + |u.data| <= 2 + |data|
    decreases |data| - i
  {
    if i < |data| {
      ChunksEnd(data, i + k, k);
    }
  }

  /** Every update of a message that fits a file within 2^15 is in range. */
  lemma PlanInRange(data: bytes, k: nat, size: nat, j: nat)
    requires k >= 1 && 2 + |data| <= size && 2 + |data| <= OFFSETS && j < |Plan(data, k)|
    ensures InRange(size, Wire(Plan(data, k)[j]))
  {
    var u := Plan(data, k)[j];
    if 0 < j < |Plan(data, k)| - 1 {
      assert u == Chunks(data, 0, k)[j - 1] && u in Chunks(data, 0, k);
      ChunksEnd(data, 0, k);
    }
    assert u.offset + |u.data| <= 2 + |data|;
    assert Wire(u).offset <= u.offset;
  }

  /** What a reader sees of a message that was stored, in terms of the read loop. */
  lemma StoredIsRead(file: bytes, data: bytes, k: nat, answers: nat -> Answer, i: nat)
    requires k >= 1 && Decode(file) == StoredAs(data) && 2 + |data| <= OFFSETS && |data| > 0
    ensures |file| >= 2 && FromBe16(file) == |data|
    ensures ReadLoop(file, [], |data|, k, answers, i).Some? ==> ReadLoop(file, [], |data|, k, answers, i).value == data
    ensures (forall j :: MostOf(answers(j)) >= 1) ==> ReadLoop(file, [], |data|, k, answers, i) == Some(data)
  {
    ReadLoopReads(file, [], 2 + |data|, k, answers, i);
  }

  /** The card answers everything, each read with at least a byte, and the length read of a
      message written from the n-th command on with both its bytes; and its container has room. */
  ghost predicate Obliging(card: Card, n: nat, data: bytes) {
    && (forall i :: MostOf(card.answers(i)) >= 1)
    && ParseContainer(card.container).Some?
    && var c := ParseContainer(card.container).value;
       Room(c.fileSize, |data|) && MostOf(card.answers(n + 4 + |Plan(data, ChunkLimit(c.mlc))| + 4)) >= 2
  }

  lemma ObligingWrites(card: Card, n: nat, size: nat, data: bytes)
    requires Obliging(card, n, data) && 2 + |data| <= size && 2 + |data| <= OFFSETS
    ensures Writes(card, n, size, data)
  {
    var k, m := ChunkLimit(ParseContainer(card.container).value.mlc), n + 4;
    assert forall i | n <= i < n + 4 :: MostOf(card.answers(i)) >= 1;
    forall j | 0 <= j < |Plan(data, k)|
      ensures Takes(card, m, size, Plan(data, k), j)
    {
      assert MostOf(card.answers(m + j)) >= 1;
      PlanInRange(data, k, size, j);
    }
  }

  /** Writing and reading back, against the card's own choices: the file is never torn, a
      write and a read that both succeed return exactly the message, and on a card that
      answers both do, for every message the file and fifteen bits hold. */
  method WriteThenRead(card: Card, data: bytes) returns (w: Result<(), Failure>, r: Result<bytes, Failure>)
    requires 2 + |data| <= OFFSETS && 2 + |data| <= |card.file|
    modifies card
    ensures Decode(card.file) in {old(Decode(card.file)), Empty, StoredAs(data)}
    ensures w.Ok? ==> Decode(card.file) == StoredAs(data)
    ensures w.Ok? && r.Ok? ==> r.value == data
    ensures Obliging(card, old(card.sent), data) && data != [] ==> w.Ok? && r == Ok(data)
  {
    ghost var made: nat, k: nat;
    ghost var before, n := card.file, card.sent;
    w, made, k := WriteData(card, data);
    ShortFits(|data|, 0, k);
    PlanUnwrapped(data, k);
    PlanIsTearFree(before, data, k, made);
    if w.Ok? {
      assert Plan(data, k)[..made] == Plan(data, k);
    }
    ghost var m := card.sent;
    r := ReadData(card);
    if data != [] {
      if Obliging(card, n, data) { ObligingWrites(card, n, |before|, data); }
      ReadBack(card, m, data, w.Ok?, r);
    }
  }

  /** What a read of a stored message returns, and that it does on a card that answers. */
  lemma ReadBack(card: Card, m: nat, data: bytes, written: bool, r: Result<bytes, Failure>)
    requires written ==> Decode(card.file) == StoredAs(data)
    requires 0 < |data| && 2 + |data| <= OFFSETS && forall d: bytes :: r == Ok(d) <==> Reads(card, m, d)
    ensures written && r.Ok? ==> r.value == data
    ensures (&& written && Opens(card, m) && MostOf(card.answers(m + 4)) >= 2
             && Room(ParseContainer(card.container).value.fileSize, |data|) && (forall j :: MostOf(card.answers(j)) >= 1))
            ==> r == Ok(data)
  {
    if written && ParseContainer(card.container).Some? {
      StoredIsRead(card.file, data, ChunkLimit(ParseContainer(card.container).value.mle), card.answers, m + 5);
      if r.Ok? {
        assert Reads(card, m, r.value);
      }
      assert Reads(card, m, data) <==> r == Ok(data);
    } else if r.Ok? {
      assert Reads(card, m, r.value);
    }
  }
}
