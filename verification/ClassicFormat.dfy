/** Formatting a MIFARE Classic 1K as an NDEF tag, sector trailers included. */
module ClassicFormat {
  import opened Bytes
  import opened Tlv
  import opened ClassicLayout
  import opened ClassicTag

  // ---- access bits ----

  type nibble = n: int | 0 <= n < 16

  /** accessBitsConsistent: each condition nibble is stored with its complement. */
  predicate Consistent(b6: byte, b7: byte, b8: byte) {
    b6 % 16 == 15 - b7 / 16 && b6 / 16 == 15 - b8 % 16 && b7 % 16 == 15 - b8 / 16
  }

  /** trailerAccessCondition: the top bits of C1, C2 and C3. */
  function Condition(b6: byte, b7: byte, b8: byte): nat {
    b7 / 16 / 8 * 4 + b8 % 16 / 8 * 2 + b8 / 16 / 8
  }

  const RECOVERABLE: nat := 3

  /** The three bytes that store the conditions c1, c2 and c3 of a sector's four blocks. */
  function AccessBytes(c1: nibble, c2: nibble, c3: nibble): (byte, byte, byte) {
    ((15 - c2) * 16 + (15 - c1), c1 * 16 + (15 - c3), c3 * 16 + c2)
  }

  lemma Nibbles(h: nibble, l: nibble)
    ensures (h * 16 + l) / 16 == h && (h * 16 + l) % 16 == l
  {}

  lemma StoredIsConsistent(c1: nibble, c2: nibble, c3: nibble)
    ensures var (b6, b7, b8) := AccessBytes(c1, c2, c3);
            Consistent(b6, b7, b8) && Condition(b6, b7, b8) == c1 / 8 * 4 + c2 / 8 * 2 + c3 / 8
  {
    Nibbles(15 - c2, 15 - c1);
    Nibbles(c1, 15 - c3);
    Nibbles(c3, c2);
  }

  /** The bytes are consistent exactly when they store some conditions. */
  lemma ConsistentIffStored(b6: byte, b7: byte, b8: byte)
    ensures Consistent(b6, b7, b8) <==>
            exists c1: nibble, c2: nibble, c3: nibble :: AccessBytes(c1, c2, c3) == (b6, b7, b8)
  {
    if Consistent(b6, b7, b8) {
      assert AccessBytes(b7 / 16, b8 % 16, b8 / 16) == (b6, b7, b8);
    }
    forall c1: nibble, c2: nibble, c3: nibble | AccessBytes(c1, c2, c3) == (b6, b7, b8)
      ensures Consistent(b6, b7, b8)
    {
      StoredIsConsistent(c1, c2, c3);
    }
  }

  /** The condition of the trailer block is what was stored for it. */
  lemma ConditionStored(c1: nibble, c2: nibble, c3: nibble)
    ensures var (b6, b7, b8) := AccessBytes(c1, c2, c3);
            Condition(b6, b7, b8) == RECOVERABLE <==> c1 < 8 && c2 >= 8 && c3 >= 8
  {
    StoredIsConsistent(c1, c2, c3);
  }

  /** validateNDEFTrailer: consistent, and rewritable with key B. */
  predicate Recoverable(t: bytes) {
    |t| == BLOCK && Consistent(t[6], t[7], t[8]) && Condition(t[6], t[7], t[8]) == RECOVERABLE
  }

  const MAD_TRAILER: bytes := [0xA0, 0xA1, 0xA2, 0xA3, 0xA4, 0xA5, 0x78, 0x77, 0x88, 0xC1, 0xFF, 0xFF, 0xFF, 0xFF, 0xFF, 0xFF]
  const NDEF_TRAILER: bytes := [0xD3, 0xF7, 0xD3, 0xF7, 0xD3, 0xF7, 0x7F, 0x07, 0x88, 0x40, 0xFF, 0xFF, 0xFF, 0xFF, 0xFF, 0xFF]

  lemma TrailersRecoverable()
    ensures Recoverable(MAD_TRAILER) && Recoverable(NDEF_TRAILER)
  {}

  // ---- the application directory ----

  /** One step of the CRC: shift, and the polynomial 0x1D when a bit falls out. */
  function Shift(crc: bv8): bv8 { if crc & 0x80 != 0 then (crc << 1) ^ 0x1D else crc << 1 }

  function Shifts(crc: bv8, n: nat): bv8
    decreases n
  {
    if n == 0 then crc else Shifts(Shift(crc), n - 1)
  }

  /** Each byte is added and then shifted through, which for bytes takes eight steps. */
  function Crc(crc: bv8, data: seq<bv8>, steps: nat): bv8
    decreases |data|
  {
    if data == [] then crc else Crc(Shifts(crc ^ data[0], steps), data[1..], steps)
  }

  method ShiftThrough(start: bv8, steps: nat) returns (crc: bv8)
    ensures crc == Shifts(start, steps)
  {
    crc := start;
    for k := 0 to steps
      invariant Shifts(crc, steps - k) == Shifts(start, steps)
    {
      crc := if crc & 0x80 != 0 then (crc << 1) ^ 0x1D else crc << 1;
    }
  }

  method CrcOf(data: seq<bv8>, preset: bv8, steps: nat) returns (crc: bv8)
    ensures crc == Crc(preset, data, steps)
  {
    crc := preset;
    for i := 0 to |data|
      invariant Crc(crc, data[i..], steps) == Crc(preset, data, steps)
    {
      assert data[i..][1..] == data[i + 1..];
      crc := ShiftThrough(crc ^ data[i], steps);
    }
  }

  function AsBits(s: bytes): (r: seq<bv8>)
    ensures |r| == |s|
  {
    seq(|s|, i requires 0 <= i < |s| => s[i] as bv8)
  }

  /** madCRC, preset 0xC7. */
  method MadCrc(data: bytes) returns (crc: byte)
    ensures crc == Crc(0xC7, AsBits(data), 8) as int
  {
    var c := CrcOf(AsBits(data), 0xC7, 8);
    crc := c as int;
  }

  lemma ShiftInjective(a: bv8, b: bv8)
    requires Shift(a) == Shift(b)
    ensures a == b
  {}

  lemma {:induction false} ShiftsInjective(a: bv8, b: bv8, n: nat)
    requires Shifts(a, n) == Shifts(b, n)
    ensures a == b
    decreases n
  {
    if n > 0 {
      ShiftsInjective(Shift(a), Shift(b), n - 1);
      ShiftInjective(a, b);
    }
  }

  lemma {:induction false} CrcInjective(a: bv8, b: bv8, data: seq<bv8>, steps: nat)
    requires Crc(a, data, steps) == Crc(b, data, steps)
    ensures a == b
    decreases |data|
  {
    if data != [] {
      CrcInjective(Shifts(a ^ data[0], steps), Shifts(b ^ data[0], steps), data[1..], steps);
      ShiftsInjective(a ^ data[0], b ^ data[0], steps);
      XorInjective(a, b, data[0]);
    }
  }

  lemma XorInjective(a: bv8, b: bv8, c: bv8)
    requires a ^ c == b ^ c || c ^ a == c ^ b
    ensures a == b
  {}

  lemma CrcFirst(crc: bv8, v: bv8, w: bv8, rest: seq<bv8>, steps: nat)
    requires v != w
    ensures Crc(Shifts(crc ^ v, steps), rest, steps) != Crc(Shifts(crc ^ w, steps), rest, steps)
  {
    if Crc(Shifts(crc ^ v, steps), rest, steps) == Crc(Shifts(crc ^ w, steps), rest, steps) {
      CrcInjective(Shifts(crc ^ v, steps), Shifts(crc ^ w, steps), rest, steps);
      ShiftsInjective(crc ^ v, crc ^ w, steps);
      XorInjective(v, w, crc);
    }
  }

  /** The CRC goes through one byte after the other. */
  lemma {:induction false} CrcThrough(crc: bv8, before: seq<bv8>, v: bv8, rest: seq<bv8>, steps: nat)
    ensures Crc(crc, before + [v] + rest, steps) == Crc(Shifts(Crc(crc, before, steps) ^ v, steps), rest, steps)
    decreases |before|
  {
    var all := before + [v] + rest;
    if before == [] {
      assert all[1..] == rest;
    } else {
      assert all[1..] == before[1..] + [v] + rest;
      CrcThrough(Shifts(crc ^ before[0], steps), before[1..], v, rest, steps);
    }
  }

  /** A directory with one byte altered has another CRC. */
  lemma CrcDetects(crc: bv8, before: seq<bv8>, v: bv8, w: bv8, rest: seq<bv8>, steps: nat)
    requires v != w
    ensures Crc(crc, before + [v] + rest, steps) != Crc(crc, before + [w] + rest, steps)
  {
    CrcThrough(crc, before, v, rest, steps);
    CrcThrough(crc, before, w, rest, steps);
    CrcFirst(Crc(crc, before, steps), v, w, rest, steps);
  }

  // ---- the plan ----

  /** The AIDs of n sectors that hold NDEF. */
  function Aids(n: nat): (r: bytes)
    ensures |r| == 2 * n
  {
    if n == 0 then [] else Aids(n - 1) + [0x03, 0xE1]
  }

  /** A directory that marks sectors 1 to 15 as NDEF: CRC, info byte and fifteen AIDs. */
  predicate IsDirectory(one: bytes, two: bytes) {
    && |one| == |two| == BLOCK && one[1..] == [0x01] + Aids(7) && two == Aids(8)
    && one[0] == Crc(0xC7, AsBits(one[1..] + two), 8) as int
  }

  const CAPACITY: nat := 15 * 3 * BLOCK

  /** The place of block b among the data blocks of sectors 1 to 15; a trailer counts as
      the block after it. */
  function Place(b: nat): nat
    requires 4 <= b <= 64
  {
    (b / 4 - 1) * 3 + Min(b % 4, 3)
  }

  /** The TLV, then zeros to the end of the card. */
  function Whole(tlv: bytes): (r: bytes)
    requires |tlv| <= CAPACITY
    ensures |r| == CAPACITY && r[..|tlv|] == tlv
  {
    tlv + Zeros(CAPACITY - |tlv|)
  }

  /** What formatting puts into block b of sectors 1 to 15. */
  function Cell(tlv: bytes, b: nat): (r: bytes)
    requires |tlv| <= CAPACITY && 4 <= b < 64
    ensures |r| == BLOCK
  {
    if IsTrailer(false, b) then NDEF_TRAILER
    else
      var i := Place(b) * BLOCK;
      Whole(tlv)[i..i + BLOCK]
  }

  /** The writes of the blocks from b on. */
  function Cells(tlv: bytes, b: nat): (ws: seq<Write>)
    requires |tlv| <= CAPACITY && 4 <= b <= 64
    ensures |ws| == 64 - b
    ensures forall i | 0 <= i < |ws| :: ws[i] == Write(b + i, Cell(tlv, b + i), Some(AuthBlock(b + i)))
  {
    seq(64 - b, i requires 0 <= i < 64 - b => Write(b + i, Cell(tlv, b + i), Some(AuthBlock(b + i))))
  }

  lemma CellsNext(tlv: bytes, b: nat)
    requires |tlv| <= CAPACITY && 4 <= b < 64
    ensures Cells(tlv, b) == [Write(b, Cell(tlv, b), Some(AuthBlock(b)))] + Cells(tlv, b + 1)
  {}

  /** The directory, then every block of the data sectors. */
  function FormatPlan(one: bytes, two: bytes, tlv: bytes): seq<Write>
    requires |tlv| <= CAPACITY
  {
    [Write(1, one, Some(3)), Write(2, two, Some(3)), Write(3, MAD_TRAILER, Some(3))] + Cells(tlv, 4)
  }

  // ---- recoverable at every point ----

  /** Every write to a trailer leaves it recoverable. */
  predicate Gentle(ws: seq<Write>) {
    forall i | 0 <= i < |ws| :: IsTrailer(false, ws[i].block) ==> Recoverable(ws[i].data)
  }

  lemma PlanGentle(one: bytes, two: bytes, tlv: bytes)
    requires |tlv| <= CAPACITY
    ensures Gentle(FormatPlan(one, two, tlv))
  {
    TrailersRecoverable();
  }

  /** The memory after these writes, of which the card took those `taken` says. */
  function Replay(blocks: seq<bytes>, ws: seq<Write>, taken: nat -> bool): (r: seq<bytes>)
    ensures |r| == |blocks|
    decreases |ws|
  {
    if ws == [] then blocks
    else
      var n := |ws| - 1;
      var before := Replay(blocks, ws[..n], taken);
      if taken(n) && ws[n].block < |before| then before[ws[n].block := ws[n].data] else before
  }

  /** After any prefix of the plan, whichever of its writes the card took, every trailer is
      its original or one that key B can rewrite. */
  lemma {:induction false} AlwaysRecoverable(blocks: seq<bytes>, ws: seq<Write>, n: nat, taken: nat -> bool, b: nat)
    requires Gentle(ws) && n <= |ws| && b < |blocks| && IsTrailer(false, b)
    ensures var now := Replay(blocks, ws[..n], taken)[b]; now == blocks[b] || Recoverable(now)
    decreases n
  {
    if n > 0 {
      AlwaysRecoverable(blocks, ws, n - 1, taken, b);
      assert ws[..n][..n - 1] == ws[..n - 1];
    }
  }

  // ---- what is read back ----

  /** Cells from b on hold the rest of the text. */
  lemma {:induction false} CellsText(blocks: seq<bytes>, tlv: bytes, b: nat)
    requires IsMemory(false, blocks) && |tlv| <= CAPACITY && 4 <= b <= 64
    requires forall x | 4 <= x < 64 :: blocks[x] == Cell(tlv, x)
    ensures Within(DataBlocks(false, b), 64)
    ensures Contents(blocks, DataBlocks(false, b)) == Whole(tlv)[Place(b) * BLOCK..]
    decreases 64 - b
  {
    if b < 64 {
      CellsText(blocks, tlv, b + 1);
      if !IsTrailer(false, b) {
        assert Place(b + 1) == Place(b) + 1;
        var w, i := Whole(tlv), Place(b) * BLOCK;
        assert w[i..] == w[i..i + BLOCK] + w[i + BLOCK..];
        assert DataBlocks(false, b)[1..] == DataBlocks(false, b + 1);
      } else {
        assert Place(b + 1) == Place(b);
      }
    }
  }

  // ---- the driver ----

  /** Every trailer is its original or recoverable. */
  ghost predicate Spared(was: seq<bytes>, now: seq<bytes>) {
    |was| == |now| == 64
    && forall b | 0 <= b < 64 && IsTrailer(false, b) :: now[b] == was[b] || Recoverable(now[b])
  }

  /** With the blocks below b formatted, the others lead to this trace. */
  ghost predicate Formatted(card: Card, tlv: bytes, b: nat, was: seq<bytes>, goal: seq<Write>)
    requires |tlv| <= CAPACITY && 4 <= b <= 64
    reads card
  {
    && card.Valid() && !card.is4K && Spared(was, card.blocks)
    && (forall x | 4 <= x < b :: card.blocks[x] == Cell(tlv, x))
    && card.writes + Cells(tlv, b) == goal
  }


  /** The write of block b of a data sector. */
  method WriteCell(card: Card, tlv: bytes, b: nat, data: bytes, last: Option<nat>, candidates: seq<bytes>, ghost was: seq<bytes>, ghost goal: seq<Write>)
    returns (r: Result<(), Failure>, next: Option<nat>)
    requires |tlv| <= CAPACITY && 4 <= b < 64 && data == Cell(tlv, b)
    requires Formatted(card, tlv, b, was, goal) && Tracks(card, last)
    modifies card`sent, card`auth, card`blocks, card`writes
    ensures old(card.writes) <= card.writes <= goal && card.Valid() && Spared(was, card.blocks)
    ensures r.Ok? ==> Formatted(card, tlv, b + 1, was, goal) && Tracks(card, next)
    ensures card.blocks[1] == old(card.blocks[1]) && card.blocks[2] == old(card.blocks[2])
    ensures card.Obliging() ==> r.Ok?
  {
    ghost var w := Write(b, data, Some(AuthBlock(b)));
    assert card.writes + ([w] + Cells(tlv, b + 1)) == (card.writes + [w]) + Cells(tlv, b + 1);
    CellsNext(tlv, b);
    TrailersRecoverable();
    r, next := ClassicTag.WriteBlock(card, b, data, last, candidates);
  }

  /** The next 16 bytes of the TLV, or zeros after its end, are the block's cell. */
  lemma ChunkIsCell(tlv: bytes, b: nat, chunk: bytes, offset: nat)
    requires |tlv| <= CAPACITY && |tlv| % BLOCK == 0 && 4 <= b < 64 && !IsTrailer(false, b)
    requires offset == Min(Place(b) * BLOCK, |tlv|)
    requires chunk == if offset < |tlv| then tlv[offset..offset + BLOCK] else Zeros(BLOCK)
    ensures chunk == Cell(tlv, b) && Min(offset + BLOCK, |tlv|) == Min(Place(b + 1) * BLOCK, |tlv|)
  {
    assert Place(b + 1) == Place(b) + 1;
    var i := Place(b) * BLOCK;
    if offset == |tlv| {
      assert Whole(tlv)[i..i + BLOCK] == Zeros(BLOCK);
    }
  }

  /** How much of the TLV has gone out when block b is next. */
  predicate Reached(tlv: bytes, b: nat, offset: nat)
    requires 4 <= b <= 64
  {
    offset == Min(Place(b) * BLOCK, |tlv|)
  }

  /** The next chunk, into data block b. */
  method WriteChunk(card: Card, tlv: bytes, b: nat, start: nat, from: Option<nat>, candidates: seq<bytes>, ghost was: seq<bytes>, ghost goal: seq<Write>)
    returns (r: Result<(), Failure>, offset: nat, last: Option<nat>)
    requires |tlv| <= CAPACITY && |tlv| % BLOCK == 0 && 4 <= b < 64 && !IsTrailer(false, b) && Reached(tlv, b, start)
    requires Formatted(card, tlv, b, was, goal) && Tracks(card, from)
    modifies card`sent, card`auth, card`blocks, card`writes
    ensures old(card.writes) <= card.writes <= goal && card.Valid() && Spared(was, card.blocks)
    ensures r.Ok? ==> Formatted(card, tlv, b + 1, was, goal) && Tracks(card, last) && Reached(tlv, b + 1, offset)
    ensures card.blocks[1] == old(card.blocks[1]) && card.blocks[2] == old(card.blocks[2])
    ensures card.Obliging() ==> r.Ok?
  {
    var chunk := if start < |tlv| then tlv[start..start + BLOCK] else Zeros(BLOCK);
    ChunkIsCell(tlv, b, chunk, start);
    offset := Min(start + BLOCK, |tlv|);
    r, last := WriteCell(card, tlv, b, chunk, from, candidates, was, goal);
  }

  lemma SectorShape(b: nat, k: nat)
    requires 4 <= b <= 60 && b % 4 == 0 && k <= 3
    ensures IsTrailer(false, b + k) <==> k == 3
    ensures k == 3 ==> Place(b + k) == Place(b + 4)
  {}

  /** One data sector, from block b on: its three data blocks, then its trailer. */
  method WriteSector(card: Card, tlv: bytes, b: nat, start: nat, from: Option<nat>, candidates: seq<bytes>, ghost was: seq<bytes>, ghost goal: seq<Write>)
    returns (r: Result<(), Failure>, offset: nat, last: Option<nat>)
    requires |tlv| <= CAPACITY && |tlv| % BLOCK == 0 && 4 <= b <= 60 && b % 4 == 0 && Reached(tlv, b, start)
    requires Formatted(card, tlv, b, was, goal) && Tracks(card, from)
    modifies card`sent, card`auth, card`blocks, card`writes
    ensures old(card.writes) <= card.writes <= goal && card.Valid() && Spared(was, card.blocks)
    ensures r.Ok? ==> Formatted(card, tlv, b + 4, was, goal) && Tracks(card, last) && Reached(tlv, b + 4, offset)
    ensures card.blocks[1] == old(card.blocks[1]) && card.blocks[2] == old(card.blocks[2])
    ensures card.Obliging() ==> r.Ok?
  {
    offset, last := start, from;
    for k := 0 to 3
      invariant Formatted(card, tlv, b + k, was, goal) && Tracks(card, last) && Reached(tlv, b + k, offset)
      invariant old(card.writes) <= card.writes
      invariant card.blocks[1] == old(card.blocks[1]) && card.blocks[2] == old(card.blocks[2])
    {
      SectorShape(b, k);
      r, offset, last := WriteChunk(card, tlv, b + k, offset, last, candidates, was, goal);
      if r.Err? { return; }
    }
    SectorShape(b, 3);
    r, last := WriteCell(card, tlv, b + 3, NDEF_TRAILER, last, candidates, was, goal);
  }

  /** The data sectors, one after the other. */
  method WriteSectors(card: Card, tlv: bytes, candidates: seq<bytes>, ghost was: seq<bytes>, ghost goal: seq<Write>) returns (r: Result<(), Failure>)
    requires |tlv| <= CAPACITY && |tlv| % BLOCK == 0 && Formatted(card, tlv, 4, was, goal)
    modifies card`sent, card`auth, card`blocks, card`writes
    ensures old(card.writes) <= card.writes <= goal && card.Valid() && Spared(was, card.blocks)
    ensures r.Ok? ==> Formatted(card, tlv, 64, was, goal)
    ensures card.blocks[1] == old(card.blocks[1]) && card.blocks[2] == old(card.blocks[2])
    ensures card.Obliging() ==> r.Ok?
  {
    var offset: nat, last: Option<nat>, b: nat := 0, None, 4;
    assert Place(4) == 0;
    for sector := 1 to 16
      invariant b == sector * 4 && Reached(tlv, b, offset)
      invariant Formatted(card, tlv, b, was, goal) && Tracks(card, last)
      invariant old(card.writes) <= card.writes
      invariant card.blocks[1] == old(card.blocks[1]) && card.blocks[2] == old(card.blocks[2])
    {
      r, offset, last := WriteSector(card, tlv, b, offset, last, candidates, was, goal);
      if r.Err? { return; }
      b := b + 4;
    }
    r := Ok(());
  }

  /** One write of sector 0, with `rest` still to come. */
  method WriteMadBlock(card: Card, b: nat, data: bytes, from: Option<nat>, candidates: seq<bytes>, ghost was: seq<bytes>, ghost rest: seq<Write>)
    returns (r: Result<(), Failure>, last: Option<nat>)
    requires card.Valid() && !card.is4K && 1 <= b <= 3 && |data| == BLOCK && Tracks(card, from) && Spared(was, card.blocks)
    requires b == 3 ==> Recoverable(data)
    modifies card`sent, card`auth, card`blocks, card`writes
    ensures card.Valid() && Spared(was, card.blocks)
    ensures old(card.writes) <= card.writes <= old(card.writes) + ([Write(b, data, Some(3))] + rest)
    ensures r.Ok? ==> card.writes == old(card.writes) + [Write(b, data, Some(3))] && Tracks(card, last)
    ensures r.Ok? ==> card.blocks == old(card.blocks)[b := data]
    ensures card.Obliging() ==> r.Ok?
  {
    r, last := ClassicTag.WriteBlock(card, b, data, from, candidates);
  }

  /** writeMAD: the directory that marks sectors 1 to 15 as NDEF, then the trailer. */
  method WriteMad(card: Card, one: bytes, two: bytes, candidates: seq<bytes>, ghost tlv: bytes, ghost goal: seq<Write>) returns (r: Result<(), Failure>)
    requires card.Valid() && !card.is4K && |one| == |two| == BLOCK && |tlv| <= CAPACITY
    requires goal == card.writes + FormatPlan(one, two, tlv)
    modifies card`sent, card`auth, card`blocks, card`writes
    ensures old(card.writes) <= card.writes <= goal && card.Valid() && Spared(old(card.blocks), card.blocks)
    ensures r.Ok? ==> Formatted(card, tlv, 4, old(card.blocks), goal) && card.blocks[1] == one && card.blocks[2] == two
    ensures card.Obliging() ==> r.Ok?
  {
    ghost var before, was := card.writes, card.blocks;
    ghost var a, b, c, rest := Write(1, one, Some(3)), Write(2, two, Some(3)), Write(3, MAD_TRAILER, Some(3)), Cells(tlv, 4);
    MadTrace(before, a, b, c, rest);
    TrailersRecoverable();
    var last;
    r, last := WriteMadBlock(card, 1, one, None, candidates, was, [b, c] + rest);
    if r.Err? { return; }
    r, last := WriteMadBlock(card, 2, two, last, candidates, was, [c] + rest);
    if r.Err? { return; }
    r, last := WriteMadBlock(card, 3, MAD_TRAILER, last, candidates, was, rest);
  }

  lemma MadTrace(before: seq<Write>, a: Write, b: Write, c: Write, rest: seq<Write>)
    ensures var goal := before + ([a, b, c] + rest);
            && before + ([a] + ([b, c] + rest)) == goal
            && (before + [a]) + ([b] + ([c] + rest)) == goal
            && (before + [a] + [b]) + ([c] + rest) == goal
            && (before + [a] + [b] + [c]) + rest == goal
  {
    assert [a, b, c] + rest == [a] + ([b, c] + rest) == [a] + ([b] + ([c] + rest));
  }

  /** Every sector that is about to be rewritten is authenticated first. */
  method Preflight(card: Card, candidates: seq<bytes>) returns (r: Result<(), Failure>)
    modifies card`sent, card`auth
    ensures card.Obliging() ==> r.Ok?
  {
    for sector := 0 to 16 {
      r := AuthenticateSector(card, sector, candidates);
      if r.Err? { return; }
    }
    r := Ok(());
  }

  /** The directory blocks: CRC, info byte and fifteen AIDs. */
  method Directory() returns (one: bytes, two: bytes)
    ensures IsDirectory(one, two)
  {
    var rest := [0x01] + Aids(7);
    two := Aids(8);
    var crc := MadCrc(rest + two);
    one := [crc] + rest;
    assert one[1..] == rest;
  }

  /** formatAndWriteNDEF. A 4K card and a message that does not fit are refused with nothing
      sent, and a sector that cannot be opened stops it before any write. After that the
      writes follow the plan, every trailer stays recoverable, and on success the message is
      what the card holds. */
  method FormatAndWrite(card: Card, data: bytes, candidates: seq<bytes>) returns (r: Result<(), Failure>, ghost started: bool)
    requires card.Valid()
    modifies card`sent, card`auth, card`blocks, card`writes
    ensures card.Valid()
    ensures card.is4K || |Padded(Encode(data, NDEF))| > CAPACITY ==> r.Err? && card.sent == old(card.sent) && !started
    ensures !started ==> r.Err? && card.writes == old(card.writes) && card.blocks == old(card.blocks)
    ensures started ==>
              && !card.is4K && Spared(old(card.blocks), card.blocks)
              && |Padded(Encode(data, NDEF))| <= CAPACITY
              && exists one: bytes, two: bytes :: IsDirectory(one, two) &&
                   old(card.writes) <= card.writes <= old(card.writes) + FormatPlan(one, two, Padded(Encode(data, NDEF)))
    ensures r.Ok? ==> IsDirectory(card.blocks[1], card.blocks[2])
    ensures r.Ok? ==> Find(Text(card), 0) == Some(data) && Text(card) == Whole(Padded(Encode(data, NDEF)))
    ensures card.Obliging() && !card.is4K && |Padded(Encode(data, NDEF))| <= CAPACITY ==> r.Ok?
  {
    started := false;
    if card.is4K { return Err(NotSupported), false; }
    var tlv := TLVEncode(data, NDEF);
    tlv := Pad(tlv);
    if |tlv| > CAPACITY { return Err(TooLarge), false; }
    TrailersRecoverable();
    if !Recoverable(MAD_TRAILER) || !Recoverable(NDEF_TRAILER) { return Err(BadTrailer), false; }
    r := Preflight(card, candidates);
    if r.Err? { return r, false; }
    started := true;
    var one, two := Directory();
    ghost var was, goal := card.blocks, card.writes + FormatPlan(one, two, tlv);
    r := WriteMad(card, one, two, candidates, tlv, goal);
    if r.Err? { return; }
    r := WriteSectors(card, tlv, candidates, was, goal);
    if r.Ok? { FormattedText(card, data, was, goal); }
  }

  lemma FormattedText(card: Card, data: bytes, was: seq<bytes>, goal: seq<Write>)
    requires |Padded(Encode(data, NDEF))| <= CAPACITY && Formatted(card, Padded(Encode(data, NDEF)), 64, was, goal)
    ensures Find(Text(card), 0) == Some(data) && Text(card) == Whole(Padded(Encode(data, NDEF)))
  {
    var tlv := Padded(Encode(data, NDEF));
    CellsText(card.blocks, tlv, 4);
    assert Whole(tlv)[0..] == Whole(tlv);
    StartIsFound(data, Zeros(CAPACITY - |tlv|));
  }
}
