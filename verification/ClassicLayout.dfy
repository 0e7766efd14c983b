/** The block layout of a MIFARE Classic card, and its data blocks as one byte string. */
module ClassicLayout {
  import opened Bytes

  const BLOCK: nat := 16

  function MaxBlocks(is4K: bool): nat { if is4K then 256 else 64 }

  /** isSectorTrailer: the last block of each sector of four, or of sixteen from block 128
      of a 4K card on. */
  predicate IsTrailer(is4K: bool, b: nat) {
    if is4K && b >= 128 then (b + 1) % 16 == 0 else (b + 1) % 4 == 0
  }

  /** The physical sector of a block. */
  function Sector(is4K: bool, b: nat): nat {
    if is4K && b >= 128 then 32 + (b - 128) / 16 else b / 4
  }

  /** The block the driver authenticates with to reach block b. */
  function AuthBlock(b: nat): nat { b / 4 * 4 + 3 }

  /** It is in the sector of the block, on either card. */
  lemma AuthBlockInSector(is4K: bool, b: nat)
    requires b < MaxBlocks(is4K)
    ensures Sector(is4K, AuthBlock(b)) == Sector(is4K, b) && AuthBlock(b) < MaxBlocks(is4K)
  {
    var a := AuthBlock(b);
    if is4K && b >= 128 {
      assert (a - 128) / 16 == (b - 128) / 16 by {
        var q := (b - 128) / 16;
        assert 16 * q <= b - 128 < 16 * q + 16;
        assert 4 * (4 * q) <= b - 128 < 4 * (4 * q + 4);
        assert 4 * q + 32 <= b / 4 < 4 * q + 36;
        assert 16 * q <= a - 128 < 16 * q + 16;
      }
    }
  }

  /** The data blocks from b on, in order. */
  function DataBlocks(is4K: bool, b: nat): seq<nat>
    decreases MaxBlocks(is4K) - b
  {
    if b >= MaxBlocks(is4K) then []
    else if IsTrailer(is4K, b) then DataBlocks(is4K, b + 1)
    else [b] + DataBlocks(is4K, b + 1)
  }

  /** Where a message goes: the data blocks after sector 0. */
  function Area(is4K: bool): seq<nat> { DataBlocks(is4K, 4) }

  predicate Ascending(ds: seq<nat>) { forall i, j | 0 <= i < j < |ds| :: ds[i] < ds[j] }

  lemma {:induction false} DataBlocksAre(is4K: bool, b: nat)
    ensures Ascending(DataBlocks(is4K, b))
    ensures forall x :: x in DataBlocks(is4K, b) <==> b <= x < MaxBlocks(is4K) && !IsTrailer(is4K, x)
    decreases MaxBlocks(is4K) - b
  {
    if b < MaxBlocks(is4K) {
      DataBlocksAre(is4K, b + 1);
      var rest := DataBlocks(is4K, b + 1);
      assert forall i | 0 <= i < |rest| :: rest[i] in rest;
    }
  }

  lemma {:induction false} SmallSectors(b: nat)
    requires b % 4 == 0 && b <= 64
    ensures 4 * |DataBlocks(false, b)| == 3 * (64 - b)
    decreases 64 - b
  {
    if b < 64 {
      SmallSectors(b + 4);
      FourBlocks(false, b);
    }
  }

  lemma FourBlocks(is4K: bool, b: nat)
    requires b % 4 == 0 && b + 4 <= (if is4K then 128 else 64)
    ensures DataBlocks(is4K, b) == [b, b + 1, b + 2] + DataBlocks(is4K, b + 4)
  {
    assert IsTrailer(is4K, b + 3) && !IsTrailer(is4K, b) && !IsTrailer(is4K, b + 1) && !IsTrailer(is4K, b + 2);
    assert DataBlocks(is4K, b + 3) == DataBlocks(is4K, b + 4);
    assert DataBlocks(is4K, b + 2) == [b + 2] + DataBlocks(is4K, b + 3);
    assert DataBlocks(is4K, b + 1) == [b + 1] + DataBlocks(is4K, b + 2);
  }

  /** Blocks that are no trailers, one after the other. */
  lemma {:induction false} PlainRun(b: nat, n: nat)
    requires 128 <= b && b + n <= 256 && forall i | b <= i < b + n :: !IsTrailer(true, i)
    ensures |DataBlocks(true, b)| == n + |DataBlocks(true, b + n)|
    decreases n
  {
    if n > 0 {
      assert !IsTrailer(true, b);
      PlainRun(b + 1, n - 1);
    }
  }

  lemma {:induction false} LargeSectors(b: nat)
    requires 128 <= b <= 256 && b % 16 == 0
    ensures 16 * |DataBlocks(true, b)| == 15 * (256 - b)
    decreases 256 - b
  {
    if b < 256 {
      LargeSectors(b + 16);
      PlainRun(b, 15);
      assert IsTrailer(true, b + 15);
    }
  }

  lemma {:induction false} SmallThenLarge(b: nat)
    requires b % 4 == 0 && b <= 128
    ensures 4 * |DataBlocks(true, b)| == 3 * (128 - b) + 480
    decreases 128 - b
  {
    if b == 128 {
      LargeSectors(128);
    } else {
      SmallThenLarge(b + 4);
      FourBlocks(true, b);
    }
  }

  /** A 1K card has 45 blocks for a message, a 4K card 213. */
  lemma AreaSize(is4K: bool)
    ensures |Area(is4K)| == if is4K then 213 else 45
  {
    if is4K {
      SmallThenLarge(4);
    } else {
      SmallSectors(4);
    }
  }

  // ---- the memory as one string ----

  predicate IsMemory(is4K: bool, blocks: seq<bytes>) {
    |blocks| == MaxBlocks(is4K) && forall b | 0 <= b < |blocks| :: |blocks[b]| == BLOCK
  }

  /** The blocks are there. */
  predicate Within(ds: seq<nat>, n: nat) { forall i | 0 <= i < |ds| :: ds[i] < n }

  /** The contents of these blocks, in order. */
  function Contents(blocks: seq<bytes>, ds: seq<nat>): bytes
    requires Within(ds, |blocks|)
  {
    if ds == [] then [] else blocks[ds[0]] + Contents(blocks, ds[1..])
  }

  lemma {:induction false} ContentsSplit(blocks: seq<bytes>, ds: seq<nat>, j: nat)
    requires Within(ds, |blocks|) && j <= |ds|
    ensures Contents(blocks, ds) == Contents(blocks, ds[..j]) + Contents(blocks, ds[j..])
  {
    if j == 0 {
      assert ds[..0] == [] && ds[0..] == ds;
    } else {
      ContentsSplit(blocks, ds[1..], j - 1);
      assert ds[1..][..j - 1] == ds[..j][1..] && ds[1..][j - 1..] == ds[j..];
    }
  }

  lemma ContentsNext(blocks: seq<bytes>, ds: seq<nat>, j: nat)
    requires Within(ds, |blocks|) && j < |ds|
    ensures Contents(blocks, ds[..j + 1]) == Contents(blocks, ds[..j]) + blocks[ds[j]]
  {
    ContentsSplit(blocks, ds[..j + 1], j);
    assert ds[..j + 1][..j] == ds[..j] && ds[..j + 1][j..] == [ds[j]];
    assert Contents(blocks, [ds[j]]) == blocks[ds[j]] + Contents(blocks, []) == blocks[ds[j]];
  }

  /** The memory with a string of whole blocks stored in these blocks. */
  function Store(blocks: seq<bytes>, ds: seq<nat>, s: bytes): (r: seq<bytes>)
    requires Within(ds, |blocks|) && |s| % BLOCK == 0 && |s| <= BLOCK * |ds|
    ensures |r| == |blocks|
    decreases |ds|
  {
    if s == [] then blocks else Store(blocks[ds[0] := s[..BLOCK]], ds[1..], s[BLOCK..])
  }

  lemma {:induction false} StoreKeeps(blocks: seq<bytes>, ds: seq<nat>, s: bytes, b: nat)
    requires Within(ds, |blocks|) && |s| % BLOCK == 0 && |s| <= BLOCK * |ds|
    requires b < |blocks| && b !in ds
    ensures Store(blocks, ds, s)[b] == blocks[b]
    decreases |ds|
  {
    if s != [] {
      StoreKeeps(blocks[ds[0] := s[..BLOCK]], ds[1..], s[BLOCK..], b);
    }
  }

  /** What was stored comes first, then what the remaining blocks held. */
  lemma {:induction false} StoredContents(blocks: seq<bytes>, ds: seq<nat>, s: bytes)
    requires Within(ds, |blocks|) && Ascending(ds) && |s| % BLOCK == 0 && |s| <= BLOCK * |ds|
    ensures Contents(Store(blocks, ds, s), ds) == s + Contents(blocks, ds[|s| / BLOCK..])
    decreases |ds|
  {
    if s == [] {
      assert ds[0..] == ds;
    } else {
      var one := blocks[ds[0] := s[..BLOCK]];
      var rest, tail := ds[1..], s[BLOCK..];
      StoredContents(one, rest, tail);
      StoreKeeps(one, rest, tail, ds[0]);
      assert rest[|tail| / BLOCK..] == ds[|s| / BLOCK..];
      ContentsElsewhere(blocks, ds[0], s[..BLOCK], ds[|s| / BLOCK..]);
      assert s == s[..BLOCK] + tail;
    }
  }

  lemma {:induction false} ContentsElsewhere(blocks: seq<bytes>, b: nat, v: bytes, ds: seq<nat>)
    requires Within(ds, |blocks|) && b < |blocks| && b !in ds
    ensures Contents(blocks[b := v], ds) == Contents(blocks, ds)
  {
    if ds != [] {
      assert ds[0] in ds;
      ContentsElsewhere(blocks, b, v, ds[1..]);
    }
  }
}
