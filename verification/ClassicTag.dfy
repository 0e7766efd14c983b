/** The MIFARE Classic driver over a card whose every answer is a free choice. */
module ClassicTag {
  import opened Bytes
  import opened Tlv
  import opened ClassicLayout

  /** What the card does with a command: it carries it out, refuses it, or its answer is
      lost, the card removed or not and the command carried out or not. */
  datatype Answer = Done | Refused | Lost(removed: bool, acted: bool)

  /** A write command as it was sent, with the block the card was authenticated with. */
  datatype Write = Write(block: nat, data: bytes, auth: Option<nat>)

  datatype Failure = Removed | NotAuthenticated | CardFailed | NoPayload | TooLarge | NotSupported | BadTrailer

  class Card {
    const is4K: bool
    const answers: nat -> Answer
    const present: nat -> bool
    var sent: nat
    var auth: Option<nat>
    var blocks: seq<bytes>
    ghost var writes: seq<Write>

    constructor (is4K: bool, answers: nat -> Answer, present: nat -> bool, blocks: seq<bytes>)
      requires IsMemory(is4K, blocks)
      ensures this.is4K == is4K && this.answers == answers && this.present == present
      ensures sent == 0 && auth.None? && this.blocks == blocks && writes == []
    {
      this.is4K := is4K;
      this.answers := answers;
      this.present := present;
      this.blocks := blocks;
      sent, auth, writes := 0, None, [];
    }

    ghost predicate Valid()
      reads this
    {
      IsMemory(is4K, blocks)
    }

    /** The card carries out every command. */
    ghost predicate Obliging()
      reads this
    {
      forall i :: answers(i).Done?
    }

    /** It is authenticated for the sector of this block. */
    predicate Open(b: nat)
      reads this
    {
      auth.Some? && Sector(is4K, auth.value) == Sector(is4K, b)
    }

    method LoadKey(key: bytes) returns (a: Answer)
      modifies `sent
      ensures sent == old(sent) + 1 && a == answers(old(sent))
    {
      a := answers(sent);
      sent := sent + 1;
    }

    method Authenticate(b: nat, keyB: bool) returns (a: Answer)
      modifies `sent, `auth
      ensures sent == old(sent) + 1 && a == answers(old(sent))
      ensures a.Done? ==> auth == Some(b)
    {
      a := answers(sent);
      auth := if a.Done? || (a.Lost? && a.acted) then Some(b) else None;
      sent := sent + 1;
    }

    method Read(b: nat) returns (a: Answer, data: bytes)
      requires Valid() && b < |blocks|
      modifies `sent
      ensures sent == old(sent) + 1 && a == if answers(old(sent)).Done? && !Open(b) then Refused else answers(old(sent))
      ensures data == blocks[b]
    {
      a := answers(sent);
      if a.Done? && !Open(b) { a := Refused; }
      data := blocks[b];
      sent := sent + 1;
    }

    /** A write outside the authenticated sector is refused; one whose answer is lost may
        have been carried out. */
    method WriteBlock(b: nat, data: bytes) returns (a: Answer)
      requires Valid() && b < |blocks| && |data| == BLOCK
      modifies `sent, `blocks, `writes
      ensures Valid() && sent == old(sent) + 1
      ensures a == if answers(old(sent)).Done? && !Open(b) then Refused else answers(old(sent))
      ensures writes == old(writes) + [Write(b, data, auth)]
      ensures blocks == old(blocks)[b := data] || (blocks == old(blocks) && !a.Done?)
    {
      a := answers(sent);
      if a.Done? && !Open(b) { a := Refused; }
      if Open(b) && (a.Done? || (a.Lost? && a.acted)) { blocks := blocks[b := data]; }
      writes := writes + [Write(b, data, auth)];
      sent := sent + 1;
    }
  }

  // ---- authentication ----

  const DEFAULT_KEYS: seq<bytes> := [
    [0xFF, 0xFF, 0xFF, 0xFF, 0xFF, 0xFF], [0xD3, 0xF7, 0xD3, 0xF7, 0xD3, 0xF7],
    [0xA0, 0xA1, 0xA2, 0xA3, 0xA4, 0xA5], [0x00, 0x00, 0x00, 0x00, 0x00, 0x00]
  ]

  /** keysToTry: the configured keys, then the defaults. */
  function KeysToTry(candidates: seq<bytes>): (r: seq<bytes>)
    ensures |r| >= 1
  {
    candidates + DEFAULT_KEYS
  }

  /** One of the two authentications with a loaded key: None to go on with the next. */
  method TryKey(card: Card, key: bytes, b: nat) returns (r: Option<Result<(), Failure>>)
    modifies card`sent, card`auth
    ensures r.Some? && r.value.Ok? ==> card.auth == Some(b)
    ensures r.Some? && r.value.Err? ==> r.value.error.Removed?
    ensures card.Obliging() ==> r.Some? && r.value.Ok?
  {
    var a := card.LoadKey(key);
    if a.Lost? && a.removed { return Some(Err(Removed)); }
    if !a.Done? { return None; }
    a := card.Authenticate(b, false);
    if a.Lost? { return if a.removed then Some(Err(Removed)) else None; }
    if a.Done? { return Some(Ok(())); }
    a := card.Authenticate(b, true);
    if a.Lost? { return if a.removed then Some(Err(Removed)) else None; }
    return if a.Done? then Some(Ok(())) else None;
  }

  /** authenticateSector: each key in turn, as key A and as key B. */
  method AuthenticateSector(card: Card, sector: nat, candidates: seq<bytes>) returns (r: Result<(), Failure>)
    modifies card`sent, card`auth
    ensures r.Ok? ==> card.auth == Some(sector * 4 + 3)
    ensures r.Err? ==> r.error.Removed? || r.error.NotAuthenticated?
    ensures card.Obliging() ==> r.Ok?
  {
    var keys := KeysToTry(candidates);
    for i := 0 to |keys|
      invariant card.Obliging() ==> i == 0
    {
      var done := TryKey(card, keys[i], sector * 4 + 3);
      if done.Some? { return done.value; }
    }
    return Err(if card.present(card.sent) then NotAuthenticated else Removed);
  }

  /** The sector the driver last authenticated is the one the card is open for. */
  ghost predicate Tracks(card: Card, last: Option<nat>)
    reads card
  {
    last.Some? ==> card.auth == Some(last.value * 4 + 3)
  }

  function FailureOf(a: Answer): Failure { if a.Lost? && a.removed then Removed else CardFailed }

  /** Authenticate, unless the block's sector is the last one authenticated. */
  method Reach(card: Card, b: nat, last: Option<nat>, candidates: seq<bytes>) returns (r: Result<(), Failure>)
    requires Tracks(card, last)
    modifies card`sent, card`auth
    ensures r.Ok? ==> card.auth == Some(AuthBlock(b))
    ensures card.Obliging() ==> r.Ok?
  {
    if last == Some(b / 4) { return Ok(()); }
    r := AuthenticateSector(card, b / 4, candidates);
  }

  /** readBlock. */
  method ReadBlock(card: Card, b: nat, last: Option<nat>, candidates: seq<bytes>) returns (r: Result<bytes, Failure>, next: Option<nat>)
    requires card.Valid() && b < |card.blocks| && Tracks(card, last)
    modifies card`sent, card`auth
    ensures r.Ok? ==> r.value == card.blocks[b] && Tracks(card, next)
    ensures card.Obliging() ==> r.Ok?
  {
    var s := Reach(card, b, last, candidates);
    if s.Err? { return Err(s.error), last; }
    AuthBlockInSector(card.is4K, b);
    var a, data := card.Read(b);
    return if a.Done? then Ok(data) else Err(FailureOf(a)), Some(b / 4);
  }

  /** writeBlock: the one write it may send is sent under the block's authentication. */
  method WriteBlock(card: Card, b: nat, data: bytes, last: Option<nat>, candidates: seq<bytes>) returns (r: Result<(), Failure>, next: Option<nat>)
    requires card.Valid() && b < |card.blocks| && Tracks(card, last) && |data| == BLOCK
    modifies card`sent, card`auth, card`blocks, card`writes
    ensures card.Valid()
    ensures card.writes == old(card.writes) + [Write(b, data, Some(AuthBlock(b)))] || (r.Err? && card.writes == old(card.writes))
    ensures card.blocks == old(card.blocks)[b := data] || (r.Err? && card.blocks == old(card.blocks))
    ensures r.Ok? ==> card.writes != old(card.writes) && Tracks(card, next)
    ensures card.blocks != old(card.blocks) ==> card.writes != old(card.writes)
    ensures card.Obliging() ==> r.Ok?
  {
    var s := Reach(card, b, last, candidates);
    if s.Err? { return Err(s.error), last; }
    AuthBlockInSector(card.is4K, b);
    var a := card.WriteBlock(b, data);
    return if a.Done? then Ok(()) else Err(FailureOf(a)), Some(b / 4);
  }

  // ---- reading ----

  lemma AreaWithin(is4K: bool)
    ensures Within(Area(is4K), MaxBlocks(is4K)) && Ascending(Area(is4K))
    ensures forall x :: x in Area(is4K) <==> 4 <= x < MaxBlocks(is4K) && !IsTrailer(is4K, x)
  {
    DataBlocksAre(is4K, 4);
    assert forall i | 0 <= i < |Area(is4K)| :: Area(is4K)[i] in Area(is4K);
  }

  /** The data blocks of the card after sector 0, as one string. */
  ghost function Text(card: Card): bytes
    requires card.Valid()
    reads card
  {
    AreaWithin(card.is4K);
    Contents(card.blocks, Area(card.is4K))
  }

  /** The blocks from b on are those of the area from the j-th on. */
  ghost predicate Aligned(is4K: bool, b: nat, j: nat) {
    j <= |Area(is4K)| && Area(is4K)[j..] == DataBlocks(is4K, b)
  }

  lemma AlignedNext(is4K: bool, b: nat, j: nat)
    requires Aligned(is4K, b, j) && b < MaxBlocks(is4K)
    ensures if IsTrailer(is4K, b) then Aligned(is4K, b + 1, j) else j < |Area(is4K)| && Area(is4K)[j] == b && Aligned(is4K, b + 1, j + 1)
  {
    var area := Area(is4K);
    if !IsTrailer(is4K, b) {
      assert area[j..][0] == b;
      assert area[j + 1..] == area[j..][1..];
    }
  }

  /** The read loop: it stops with the first blocks that show a message, or with a failure. */
  method ReadBlocks(card: Card, candidates: seq<bytes>) returns (all: bytes, failure: Option<Failure>, ghost j: nat)
    requires card.Valid()
    modifies card`sent, card`auth
    ensures card.Obliging() ==> failure.None?
    ensures j <= |Area(card.is4K)| && ReadUpTo(card, all, j)
    ensures failure.None? && Find(all, 0).None? ==> all == Text(card)
  {
    var last: Option<nat> := None;
    all, failure, j := [], None, 0;
    AreaWithin(card.is4K);
    var b: nat := 4;
    assert Area(card.is4K)[0..] == Area(card.is4K);
    while b < MaxBlocks(card.is4K)
      invariant b <= MaxBlocks(card.is4K) && Aligned(card.is4K, b, j) && ReadUpTo(card, all, j)
      invariant Tracks(card, last) && Find(all, 0).None?
    {
      AlignedNext(card.is4K, b, j);
      if !IsTrailer(card.is4K, b) {
        var block;
        block, last := ReadBlock(card, b, last, candidates);
        if block.Err? { return all, Some(block.error), j; }
        ContentsNext(card.blocks, Area(card.is4K), j);
        all := all + block.value;
        j := j + 1;
        var found := TLVFindNDEF(all);
        if found.Some? { return; }
      }
      b := b + 1;
    }
    assert Area(card.is4K)[..j] == Area(card.is4K);
  }

  /** The first j blocks of the area. */
  ghost predicate ReadUpTo(card: Card, all: bytes, j: nat)
    requires card.Valid() && j <= |Area(card.is4K)|
    reads card
  {
    AreaWithin(card.is4K);
    all == Contents(card.blocks, Area(card.is4K)[..j])
  }

  lemma FoundEarly(card: Card, all: bytes, j: nat)
    requires card.Valid() && j <= |Area(card.is4K)| && ReadUpTo(card, all, j) && Find(all, 0).Some?
    ensures Find(Text(card), 0) == Find(all, 0)
  {
    var area := Area(card.is4K);
    AreaWithin(card.is4K);
    ContentsSplit(card.blocks, area, j);
    PrefixStable(all, Contents(card.blocks, area[j..]), 0);
  }

  /** ReadData. What it returns is the message of the whole memory, though it stops early
      and though reads may fail; and a card that answers everything gives its message
      whenever it has one. */
  method ReadData(card: Card, candidates: seq<bytes>) returns (r: Result<bytes, Failure>)
    requires card.Valid()
    modifies card`sent, card`auth
    ensures r.Ok? ==> Find(Text(card), 0) == Some(r.value)
    ensures card.Obliging() ==> r == (match Find(Text(card), 0) case Some(v) => Ok(v) case None => Err(NoPayload))
  {
    var all, failure;
    ghost var j;
    all, failure, j := ReadBlocks(card, candidates);
    if failure == Some(Removed) { return Err(Removed); }
    if all == [] {
      AreaSize(card.is4K);
      if failure.None? { TextNotEmpty(card); }
      if failure.Some? && !card.present(card.sent) { return Err(Removed); }
      return Err(if failure == Some(NotAuthenticated) then NoPayload else CardFailed);
    }
    var found := TLVFindNDEF(all);
    if found.None? { return Err(NoPayload); }
    FoundEarly(card, all, j);
    return Ok(found.value);
  }

  lemma TextNotEmpty(card: Card)
    requires card.Valid()
    ensures Text(card) != []
  {
    AreaWithin(card.is4K);
    AreaSize(card.is4K);
    assert |card.blocks[Area(card.is4K)[0]]| == BLOCK;
  }

  // ---- writing ----

  /** How many zeros fill n bytes up to whole blocks. */
  function Fill(n: nat): nat { (BLOCK - n % BLOCK) % BLOCK }

  function Padded(s: bytes): (r: bytes)
    ensures |r| % BLOCK == 0
  {
    s + Zeros(Fill(|s|))
  }

  method Pad(s: bytes) returns (r: bytes)
    ensures r == Padded(s)
  {
    r := s;
    ghost var k: nat := 0;
    while |r| % BLOCK != 0
      invariant k <= Fill(|s|) && r == s + Zeros(k)
      decreases Fill(|s|) - k
    {
      r := r + [0];
      k := k + 1;
      assert Zeros(k) == Zeros(k - 1) + [0];
    }
  }

  /** The writes that put a string into these blocks. */
  function Writes(ds: seq<nat>, s: bytes): seq<Write>
    requires |s| % BLOCK == 0 && |s| <= BLOCK * |ds|
    decreases |ds|
  {
    if s == [] then [] else [Write(ds[0], s[..BLOCK], Some(AuthBlock(ds[0])))] + Writes(ds[1..], s[BLOCK..])
  }

  /** Each block is written at most once, in order, only data blocks after sector 0, and
      each under an authentication block of its own physical sector. */
  predicate Safe(is4K: bool, ws: seq<Write>) {
    && (forall i, j | 0 <= i < j < |ws| :: ws[i].block < ws[j].block)
    && forall i | 0 <= i < |ws| ::
         && 4 <= ws[i].block < MaxBlocks(is4K) && !IsTrailer(is4K, ws[i].block)
         && ws[i].auth.Some? && Sector(is4K, ws[i].auth.value) == Sector(is4K, ws[i].block)
  }

  lemma {:induction false} WritesFollow(ds: seq<nat>, s: bytes)
    requires |s| % BLOCK == 0 && |s| <= BLOCK * |ds|
    ensures |Writes(ds, s)| == |s| / BLOCK
    ensures forall i | 0 <= i < |s| / BLOCK ::
              Writes(ds, s)[i].block == ds[i] && Writes(ds, s)[i].auth == Some(AuthBlock(ds[i]))
    decreases |ds|
  {
    if s != [] {
      WritesFollow(ds[1..], s[BLOCK..]);
    }
  }

  lemma PlanIsSafe(is4K: bool, s: bytes, n: nat)
    requires |s| % BLOCK == 0 && |s| <= BLOCK * |Area(is4K)| && n <= |Writes(Area(is4K), s)|
    ensures Safe(is4K, Writes(Area(is4K), s)[..n])
  {
    var area, ws := Area(is4K), Writes(Area(is4K), s);
    WritesFollow(area, s);
    AreaWithin(is4K);
    forall i | 0 <= i < n
      ensures 4 <= ws[i].block < MaxBlocks(is4K) && !IsTrailer(is4K, ws[i].block)
              && ws[i].auth.Some? && Sector(is4K, ws[i].auth.value) == Sector(is4K, ws[i].block)
    {
      assert area[i] in area;
      AuthBlockInSector(is4K, area[i]);
    }
  }

  /** With j blocks of s written, writing the others leads to this memory and trace. */
  ghost predicate Leads(card: Card, s: bytes, j: nat, blocks: seq<bytes>, writes: seq<Write>)
    requires card.Valid() && |s| % BLOCK == 0 && |s| <= BLOCK * |Area(card.is4K)| && j * BLOCK <= |s|
    reads card
  {
    AreaWithin(card.is4K);
    var ds, rest := Area(card.is4K)[j..], s[j * BLOCK..];
    Store(card.blocks, ds, rest) == blocks && card.writes + Writes(ds, rest) == writes
  }

  /** One more block, in terms of what is left to store and to write. */
  lemma StoreNext(blocks: seq<bytes>, area: seq<nat>, s: bytes, j: nat)
    requires Within(area, |blocks|) && |s| % BLOCK == 0 && |s| <= BLOCK * |area| && j * BLOCK < |s|
    ensures j < |area| && j * BLOCK + BLOCK <= |s|
    ensures var chunk := s[j * BLOCK..j * BLOCK + BLOCK];
            && Store(blocks, area[j..], s[j * BLOCK..]) == Store(blocks[area[j] := chunk], area[j + 1..], s[(j + 1) * BLOCK..])
            && Writes(area[j..], s[j * BLOCK..])
               == [Write(area[j], chunk, Some(AuthBlock(area[j])))] + Writes(area[j + 1..], s[(j + 1) * BLOCK..])
  {
    var ds, rest := area[j..], s[j * BLOCK..];
    assert ds[1..] == area[j + 1..] && rest[BLOCK..] == s[(j + 1) * BLOCK..];
    assert rest[..BLOCK] == s[j * BLOCK..j * BLOCK + BLOCK];
  }

  /** Only blocks of the area differ. */
  ghost predicate Untouched(is4K: bool, was: seq<bytes>, now: seq<bytes>) {
    |was| == |now| && forall x | 0 <= x < |was| && x !in Area(is4K) :: now[x] == was[x]
  }

  /** The write of the j-th block: done, or failed with the command sent or not. */
  method WriteNext(card: Card, s: bytes, j: nat, b: nat, last: Option<nat>, candidates: seq<bytes>, ghost blocks: seq<bytes>, ghost writes: seq<Write>)
    returns (r: Result<(), Failure>, next: Option<nat>)
    requires card.Valid() && Tracks(card, last) && |s| % BLOCK == 0 && |s| <= BLOCK * |Area(card.is4K)| && j * BLOCK < |s|
    requires j < |Area(card.is4K)| && b == Area(card.is4K)[j] && b < MaxBlocks(card.is4K)
    requires Leads(card, s, j, blocks, writes)
    modifies card`sent, card`auth, card`blocks, card`writes
    ensures card.Valid() && old(card.writes) <= card.writes <= writes
    ensures r.Ok? ==> Tracks(card, next) && (j + 1) * BLOCK <= |s| && Leads(card, s, j + 1, blocks, writes)
    ensures Untouched(card.is4K, old(card.blocks), card.blocks)
    ensures card.Obliging() ==> r.Ok?
  {
    AreaWithin(card.is4K);
    StoreNext(card.blocks, Area(card.is4K), s, j);
    var chunk := s[j * BLOCK..j * BLOCK + BLOCK];
    ghost var w, rest := Write(b, chunk, Some(AuthBlock(b))), Writes(Area(card.is4K)[j + 1..], s[(j + 1) * BLOCK..]);
    assert card.writes + ([w] + rest) == (card.writes + [w]) + rest;
    r, next := WriteBlock(card, b, chunk, last, candidates);
  }

  method SkipTrailers(is4K: bool, from: nat, ghost j: nat) returns (b: nat)
    requires Aligned(is4K, from, j) && j < |Area(is4K)|
    ensures b < MaxBlocks(is4K) && b == Area(is4K)[j] && Aligned(is4K, b + 1, j + 1)
  {
    b := from;
    while IsTrailer(is4K, b)
      invariant Aligned(is4K, b, j)
      decreases MaxBlocks(is4K) - b
    {
      AlignedBelow(is4K, b, j);
      AlignedNext(is4K, b, j);
      b := b + 1;
    }
    AlignedBelow(is4K, b, j);
    AlignedNext(is4K, b, j);
  }

  /** The write loop: the area's blocks in order, trailers skipped. */
  method WriteBlocks(card: Card, s: bytes, candidates: seq<bytes>) returns (r: Result<(), Failure>)
    requires card.Valid() && |s| % BLOCK == 0 && |s| <= BLOCK * |Area(card.is4K)|
    modifies card`sent, card`auth, card`blocks, card`writes
    ensures card.Valid() && old(card.writes) <= card.writes <= old(card.writes) + Writes(Area(card.is4K), s)
    ensures Untouched(card.is4K, old(card.blocks), card.blocks)
    ensures r.Ok? ==>
              && card.writes == old(card.writes) + Writes(Area(card.is4K), s)
              && Within(Area(card.is4K), |old(card.blocks)|) && card.blocks == Store(old(card.blocks), Area(card.is4K), s)
    ensures card.Obliging() ==> r.Ok?
  {
    AreaWithin(card.is4K);
    ghost var area := Area(card.is4K);
    ghost var blocks, writes := Store(card.blocks, area, s), card.writes + Writes(area, s);
    assert area[0..] == area && s[0 * BLOCK..] == s;
    var b: nat, j: nat, last: Option<nat> := 4, 0, None;
    while j * BLOCK < |s|
      invariant card.Valid() && Tracks(card, last) && j * BLOCK <= |s| && b <= MaxBlocks(card.is4K)
      invariant Aligned(card.is4K, b, j) && Leads(card, s, j, blocks, writes)
      invariant old(card.writes) <= card.writes <= writes
      invariant Untouched(card.is4K, old(card.blocks), card.blocks)
      decreases |s| - j * BLOCK
    {
      b := SkipTrailers(card.is4K, b, j);
      r, last := WriteNext(card, s, j, b, last, candidates, blocks, writes);
      if r.Err? { return; }
      b := b + 1;
      j := j + 1;
    }
    assert s[j * BLOCK..] == [];
    r := Ok(());
  }

  /** While blocks of the area remain, the current block is on the card. */
  lemma AlignedBelow(is4K: bool, b: nat, j: nat)
    requires Aligned(is4K, b, j) && j < |Area(is4K)|
    ensures b < MaxBlocks(is4K)
  {}

  /** How many data blocks there are from b on, as the driver counts them. */
  method CountUsable(is4K: bool) returns (n: nat)
    ensures n == |Area(is4K)|
  {
    n := 0;
    var b := 4;
    while b < MaxBlocks(is4K)
      invariant 4 <= b <= MaxBlocks(is4K) && n + |DataBlocks(is4K, b)| == |Area(is4K)|
    {
      if !IsTrailer(is4K, b) { n := n + 1; }
      b := b + 1;
    }
  }

  /** WriteData. A message whose blocks do not all fit is refused before anything is sent.
      Otherwise only data blocks after sector 0 are written, each at most once and under its
      own sector's authentication, and success stores the message whatever the card held. */
  method WriteData(card: Card, data: bytes, candidates: seq<bytes>) returns (r: Result<(), Failure>)
    requires card.Valid()
    modifies card`sent, card`auth, card`blocks, card`writes
    ensures card.Valid() && old(card.writes) <= card.writes && Safe(card.is4K, card.writes[|old(card.writes)|..])
    ensures forall x | 0 <= x < |card.blocks| && (x < 4 || IsTrailer(card.is4K, x)) :: card.blocks[x] == old(card.blocks[x])
    ensures |Padded(Encode(data, NDEF))| > BLOCK * |Area(card.is4K)| ==>
              r == Err(TooLarge) && card.sent == old(card.sent) && card.blocks == old(card.blocks)
    ensures r.Ok? ==> Find(Text(card), 0) == Some(data)
    ensures card.Obliging() && |Padded(Encode(data, NDEF))| <= BLOCK * |Area(card.is4K)| ==> r.Ok?
  {
    ghost var before, blocks := card.writes, card.blocks;
    var s := TLVEncode(data, NDEF);
    s := Pad(s);
    var usable := CountUsable(card.is4K);
    if |s| / BLOCK > usable { return Err(TooLarge); }
    r := WriteBlocks(card, s, candidates);
    AreaWithin(card.is4K);
    PlanIsSafe(card.is4K, s, |card.writes| - |before|);
    assert card.writes[|before|..] == Writes(Area(card.is4K), s)[..|card.writes| - |before|];
    if r.Ok? { StoredIsFound(card.is4K, blocks, data); }
  }

  lemma StartIsFound(data: bytes, rest: bytes)
    requires |data| < 65536
    ensures Find(Padded(Encode(data, NDEF)) + rest, 0) == Some(data)
  {
    var e := Encode(data, NDEF);
    var text := Padded(e) + rest;
    assert text[0..|e|] == e;
    FindsPart(text, 0, data);
    assert data[..|data| % 65536] == data;
  }

  lemma StoredIsFound(is4K: bool, blocks: seq<bytes>, data: bytes)
    requires IsMemory(is4K, blocks) && Within(Area(is4K), |blocks|)
    requires |Padded(Encode(data, NDEF))| <= BLOCK * |Area(is4K)|
    ensures Find(Contents(Store(blocks, Area(is4K), Padded(Encode(data, NDEF))), Area(is4K)), 0) == Some(data)
  {
    var area, s := Area(is4K), Padded(Encode(data, NDEF));
    AreaWithin(is4K);
    AreaSize(is4K);
    StoredContents(blocks, area, s);
    StartIsFound(data, Contents(blocks, area[|s| / BLOCK..]));
  }

  /** Writing and reading back: whatever the card answers, what is read after a write that
      succeeded is the message, and a card that answers everything takes and returns every
      message whose blocks fit. */
  method WriteThenRead(card: Card, data: bytes, candidates: seq<bytes>) returns (w: Result<(), Failure>, r: Result<bytes, Failure>)
    requires card.Valid()
    modifies card
    ensures w.Ok? && r.Ok? ==> r.value == data
    ensures card.Obliging() && |Padded(Encode(data, NDEF))| <= BLOCK * |Area(card.is4K)| ==> w.Ok? && r == Ok(data)
  {
    w := WriteData(card, data, candidates);
    r := ReadData(card, candidates);
  }
}
