/** The updates a Type 4 write sends, and what the NDEF file holds after any prefix
    of them. */
module Type4Plan {
  import opened Bytes

  /** One UPDATE BINARY. */
  datatype Update = Update(offset: nat, data: bytes)

  /** What an NDEF file says it stores. */
  datatype Stored = Empty | Message(content: bytes) | Malformed

  /** NLEN, then that many bytes. */
  function Decode(file: bytes): Stored {
    if |file| < 2 then Malformed
    else
      var n := FromBe16(file);
      if n == 0 then Empty else if 2 + n > |file| then Malformed else Message(file[2..2 + n])
  }

  function StoredAs(data: bytes): Stored { if data == [] then Empty else Message(data) }

  predicate InRange(size: nat, u: Update) { u.offset + |u.data| <= size }

  /** The file with one update made; an update past its end changes nothing. */
  function Put(file: bytes, u: Update): (r: bytes)
    ensures |r| == |file|
  {
    if InRange(|file|, u) then file[..u.offset] + u.data + file[u.offset + |u.data|..] else file
  }

  function PutAll(file: bytes, us: seq<Update>): (r: bytes)
    ensures |r| == |file|
    decreases |us|
  {
    if us == [] then file else PutAll(Put(file, us[0]), us[1..])
  }

  // ---- the plan ----

  const DEFAULT_CHUNK: nat := 253

  /** The most one command carries: what the Capability Container declares, when that
      is smaller than the default. */
  function ChunkLimit(declared: nat): (k: nat)
    ensures 1 <= k <= DEFAULT_CHUNK
  {
    if 0 < declared < DEFAULT_CHUNK then declared else DEFAULT_CHUNK
  }

  /** The updates that carry data[i..] in chunks of k, the message starting at 2. */
  function Chunks(data: bytes, i: nat, k: nat): seq<Update>
    requires k >= 1
    decreases |data| - i
  {
    if i >= |data| then []
    else [Update(2 + i, data[i..Min(i + k, |data|)])] + Chunks(data, i + k, k)
  }

  /** Clear NLEN, write the message, then write its length. */
  function Plan(data: bytes, k: nat): seq<Update>
    requires k >= 1
  {
    [Update(0, [0, 0])] + Chunks(data, 0, k) + [Update(0, Be16(|data|))]
  }

  /** The commands that carry n bytes in chunks of k. */
  function ChunkCount(n: nat, k: nat): nat
    requires k >= 1
  {
    (n + k - 1) / k
  }

  lemma OneChunkMore(n: nat, k: nat)
    requires 1 <= k < n
    ensures ChunkCount(n, k) == 1 + ChunkCount(n - k, k)
  {
    var q := (n - k + k - 1) / k;
    assert n - 1 == q * k + (n - 1) % k;
    Quotient(n + k - 1, q + 1, (n - 1) % k, k);
  }

  lemma Quotient(x: nat, q: nat, r: nat, c: nat)
    requires c > 0 && x == q * c + r && r < c
    ensures x / c == q
  {
    var d := x / c - q;
    assert d * c == r - x % c by {
      assert x == x / c * c + x % c;
      assert d * c == x / c * c - q * c;
    }
  }

  lemma {:induction false} ChunksCount(data: bytes, i: nat, k: nat)
    requires k >= 1 && i <= |data|
    ensures |Chunks(data, i, k)| == ChunkCount(|data| - i, k)
    decreases |data| - i
  {
    if |data| - i > k {
      ChunksCount(data, i + k, k);
      OneChunkMore(|data| - i, k);
    } else if i < |data| {
      Quotient(|data| - i + k - 1, 1, |data| - i - 1, k);
    } else {
      Quotient(k - 1, 0, k - 1, k);
    }
  }

  /** The plan has one update per chunk, and the clear and the length around them. */
  lemma PlanLength(data: bytes, k: nat)
    requires k >= 1
    ensures |Plan(data, k)| == 2 + ChunkCount(|data|, k)
  {
    ChunksCount(data, 0, k);
  }

  /** P1 keeps seven bits of a 16-bit offset, so an offset reaches the card modulo 2^15. */
  const OFFSETS: nat := 0x8000

  function OnWire(offset: nat): (w: nat)
    ensures w < OFFSETS && (offset < OFFSETS ==> w == offset)
  {
    offset % OFFSETS
  }

  function Wire(u: Update): Update { u.(offset := OnWire(u.offset)) }

  function WireAll(us: seq<Update>): (r: seq<Update>)
    ensures |r| == |us|
    ensures forall j | 0 <= j < |us| :: r[j] == Wire(us[j])
  {
    seq(|us|, j requires 0 <= j < |us| => Wire(us[j]))
  }

  /** Every chunk of an n-byte message, from byte i on, starts below 2^15. */
  predicate Fits(n: nat, i: nat, k: nat)
    requires k >= 1
    decreases n - i
  {
    i >= n || (2 + i < OFFSETS && Fits(n, i + k, k))
  }

  lemma {:induction false} ShortFits(n: nat, i: nat, k: nat)
    requires k >= 1 && 2 + n <= OFFSETS
    ensures Fits(n, i, k)
    decreases n - i
  {
    if i < n {
      ShortFits(n, i + k, k);
    }
  }

  // ---- what updates leave behind ----

  lemma {:induction false} PutAllAppend(file: bytes, us: seq<Update>, vs: seq<Update>)
    ensures PutAll(file, us + vs) == PutAll(PutAll(file, us), vs)
    decreases |us|
  {
    if us == [] {
      assert us + vs == vs;
    } else {
      assert (us + vs)[1..] == us[1..] + vs;
      PutAllAppend(Put(file, us[0]), us[1..], vs);
    }
  }

  /** Updates at or after byte o leave everything before o alone. */
  lemma {:induction false} PutAllKeepsPrefix(file: bytes, us: seq<Update>, o: nat)
    requires o <= |file| && forall u | u in us :: o <= u.offset
    ensures PutAll(file, us)[..o] == file[..o]
    decreases |us|
  {
    if us != [] {
      assert us[0] in us;
      PutAllKeepsPrefix(Put(file, us[0]), us[1..], o);
    }
  }

  lemma {:induction false} ChunkOffsets(data: bytes, i: nat, k: nat)
    requires k >= 1
    ensures forall u | u in Chunks(data, i, k) :: 2 + i <= u.offset
    decreases |data| - i
  {
    if i < |data| {
      ChunkOffsets(data, i + k, k);
    }
  }

  lemma PutSlices(file: bytes, u: Update, m: nat)
    requires u.offset + |u.data| <= m <= |file|
    ensures Put(file, u)[..u.offset + |u.data|] == file[..u.offset] + u.data
    ensures Put(file, u)[m..] == file[m..]
  {}

  lemma PutFirst(file: bytes, u: Update, us: seq<Update>)
    ensures PutAll(file, [u] + us) == PutAll(Put(file, u), us)
  {
    assert ([u] + us)[1..] == us;
  }

  lemma Regroup(a: bytes, b: bytes, c: bytes, d: bytes)
    ensures (a + b) + c + d == a + (b + c) + d
  {}

  /** The chunks together write data[i..] at its place and nothing else. */
  lemma {:induction false} ChunksWrite(file: bytes, data: bytes, i: nat, k: nat)
    requires k >= 1 && i <= |data| && 2 + |data| <= |file|
    ensures PutAll(file, Chunks(data, i, k)) == file[..2 + i] + data[i..] + file[2 + |data|..]
    decreases |data| - i
  {
    if i == |data| {
      assert file == file[..2 + i] + [] + file[2 + i..];
    } else {
      var e := Min(i + k, |data|);
      var u := Update(2 + i, data[i..e]);
      ChunksFirst(file, data, i, k);
      ChunksWrite(Put(file, u), data, e, k);
      OneChunk(file, data, i, e);
    }
  }

  lemma ChunksFirst(file: bytes, data: bytes, i: nat, k: nat)
    requires k >= 1 && i < |data|
    ensures var e := Min(i + k, |data|);
            PutAll(file, Chunks(data, i, k)) == PutAll(Put(file, Update(2 + i, data[i..e])), Chunks(data, e, k))
  {
    PutFirst(file, Update(2 + i, data[i..Min(i + k, |data|)]), Chunks(data, i + k, k));
  }

  lemma OneChunk(file: bytes, data: bytes, i: nat, e: nat)
    requires i <= e <= |data| && 2 + |data| <= |file|
    ensures var f := Put(file, Update(2 + i, data[i..e]));
            f[..2 + e] + data[e..] + f[2 + |data|..] == file[..2 + i] + data[i..] + file[2 + |data|..]
  {
    PutSlices(file, Update(2 + i, data[i..e]), 2 + |data|);
    Regroup(file[..2 + i], data[i..e], data[e..], file[2 + |data|..]);
    assert data[i..] == data[i..e] + data[e..];
  }

  lemma PlanPrefix(data: bytes, k: nat, j: nat)
    requires k >= 1 && 0 < j < |Plan(data, k)|
    ensures Plan(data, k)[..j] == [Update(0, [0, 0])] + Chunks(data, 0, k)[..j - 1]
  {}

  lemma ClearedPrefix(file: bytes, data: bytes, k: nat, j: nat)
    requires k >= 1 && 2 <= |file| && 0 < j < |Plan(data, k)|
    ensures Decode(PutAll(file, Plan(data, k)[..j])) == Empty
  {
    var clear := Update(0, [0, 0]);
    var chunks := Chunks(data, 0, k)[..j - 1];
    PlanPrefix(data, k, j);
    assert ([clear] + chunks)[1..] == chunks;
    ChunkOffsets(data, 0, k);
    PutAllKeepsPrefix(Put(file, clear), chunks, 2);
    var f := PutAll(Put(file, clear), chunks);
    assert f[0] == f[..2][0] && f[1] == f[..2][1];
  }

  /** Writing the length over the first two bytes of a + data + rest. */
  lemma PutLength(a: bytes, data: bytes, rest: bytes, length: bytes)
    requires |a| == |length| == 2
    ensures PutAll(a + data + rest, [Update(0, length)]) == length + data + rest
  {
    assert [Update(0, length)][1..] == [];
    assert (a + data + rest)[2..] == data + rest;
  }

  lemma WholePlan(file: bytes, data: bytes, k: nat)
    requires k >= 1 && 2 + |data| <= |file|
    ensures PutAll(file, Plan(data, k)) == Be16(|data|) + data + file[2 + |data|..]
  {
    var clear, length := Update(0, [0, 0]), Update(0, Be16(|data|));
    var cleared := Put(file, clear);
    var chunks := Chunks(data, 0, k);
    assert Plan(data, k) == [clear] + (chunks + [length]);
    PutFirst(file, clear, chunks + [length]);
    PutAllAppend(cleared, chunks, [length]);
    ChunksWrite(cleared, data, 0, k);
    PutSlices(file, clear, 2 + |data|);
    assert data[0..] == data;
    PutLength(cleared[..2], data, file[2 + |data|..], Be16(|data|));
  }

  lemma DecodeWritten(data: bytes, rest: bytes)
    requires |data| < 65536
    ensures Decode(Be16(|data|) + data + rest) == StoredAs(data)
  {
    var f := Be16(|data|) + data + rest;
    Be16RoundTrip(|data|);
    assert f[2..2 + |data|] == data;
  }

  /** Tear freedom: after any prefix of the plan the file stores what it stored before,
      nothing, or the whole new message, and the last only after the last update. */
  lemma PlanIsTearFree(file: bytes, data: bytes, k: nat, j: nat)
    requires k >= 1 && 2 + |data| <= |file| && |data| < 65536
    requires j <= |Plan(data, k)|
    ensures var now := Decode(PutAll(file, Plan(data, k)[..j]));
            if j == 0 then now == Decode(file) else if j < |Plan(data, k)| then now == Empty else now == StoredAs(data)
  {
    if 0 < j < |Plan(data, k)| {
      ClearedPrefix(file, data, k, j);
    } else if j == |Plan(data, k)| {
      assert Plan(data, k)[..j] == Plan(data, k);
      WholePlan(file, data, k);
      DecodeWritten(data, file[2 + |data|..]);
    }
  }

  // ---- following a plan ----

  /** A file of this size has room for a message of n bytes, or the size is not known. */
  predicate Room(size: nat, n: nat) { size <= 2 || n <= size - 2 }

  /** Between `at` and `end` the plan carries data[i..] in chunks of k. */
  predicate Carries(plan: seq<Update>, at: nat, end: nat, offset: nat, data: bytes, i: nat, k: nat)
    requires k >= 1
    decreases |data| - i
  {
    if i >= |data| then at == end <= |plan|
    else
      && at < end <= |plan| && plan[at] == Update(offset + i, data[i..Min(i + k, |data|)])
      && Carries(plan, at + 1, end, offset, data, Min(i + k, |data|), k)
  }

  /** A stretch of the plan that is the message's chunks carries them. */
  lemma {:induction false} ChunksCarry(plan: seq<Update>, at: nat, end: nat, data: bytes, i: nat, k: nat)
    requires k >= 1 && at <= end <= |plan| && plan[at..end] == Chunks(data, i, k)
    ensures Carries(plan, at, end, 2, data, i, k)
    decreases |data| - i
  {
    if i < |data| {
      assert plan[at] == plan[at..end][0];
      assert plan[at + 1..end] == plan[at..end][1..];
      assert Chunks(data, i + k, k) == Chunks(data, Min(i + k, |data|), k);
      ChunksCarry(plan, at + 1, end, data, Min(i + k, |data|), k);
    }
  }

  /** The next piece is the plan's next update, and the rest follow it. */
  lemma PieceNext(plan: seq<Update>, at: nat, end: nat, offset: nat, data: bytes, i: nat, k: nat)
    requires k >= 1 && Carries(plan, at, end, offset, data, i, k) && i < |data|
    ensures at < end && plan[at] == Update(offset + i, data[i..Min(i + k, |data|)])
    ensures Carries(plan, at + 1, end, offset, data, Min(i + k, |data|), k)
  {}

  /** One update carries data that fits a chunk. */
  lemma OneCarries(plan: seq<Update>, at: nat, offset: nat, data: bytes, k: nat)
    requires 1 <= |data| <= k && at < |plan| && plan[at] == Update(offset, data)
    ensures Carries(plan, at, at + 1, offset, data, 0, k)
  {
    assert data[0..|data|] == data;
  }

  /** Between its first update and its last, a plan carries the message. */
  lemma PlanMiddle(data: bytes, k: nat)
    requires k >= 1
    ensures var plan := Plan(data, k);
            Carries(plan, 1, |plan| - 1, 2, data, 0, k) && plan[|plan| - 1] == Update(0, Be16(|data|))
  {
    var plan := Plan(data, k);
    assert plan[1..|plan| - 1] == Chunks(data, 0, k);
    ChunksCarry(plan, 1, |plan| - 1, data, 0, k);
  }
}
