/** Exactly when the 15-bit offsets of UPDATE BINARY carry a message: a write stores
    every message of a length if and only if each of its chunks starts below 2^15. */
module Type4Offsets {
  import opened Bytes
  import opened Type4Plan

  // ---- offsets that fit reach the card unchanged ----

  lemma {:induction false} ChunksUnwrapped(data: bytes, i: nat, k: nat)
    requires k >= 1 && Fits(|data|, i, k)
    ensures forall u | u in Chunks(data, i, k) :: Wire(u) == u
    decreases |data| - i
  {
    if i < |data| {
      ChunksUnwrapped(data, i + k, k);
    }
  }

  lemma PlanUnwrapped(data: bytes, k: nat)
    requires k >= 1 && Fits(|data|, 0, k)
    ensures WireAll(Plan(data, k)) == Plan(data, k)
  {
    ChunksUnwrapped(data, 0, k);
    var plan := Plan(data, k);
    forall j | 0 <= j < |plan|
      ensures Wire(plan[j]) == plan[j]
    {
      if 0 < j < |plan| - 1 {
        assert plan[j] in Chunks(data, 0, k);
      }
    }
  }

  lemma {:induction false} FitsBound(n: nat, i: nat, k: nat)
    requires k >= 1 && Fits(n, i, k) && i < n
    ensures 2 + n < OFFSETS + k
    decreases n - i
  {
    if i + k < n {
      FitsBound(n, i + k, k);
    }
  }

  // ---- an offset that does not fit loses a byte ----

  /** Where the first chunk that starts at or past 2^15 begins in the message. */
  function FirstHigh(n: nat, i: nat, k: nat): (q: nat)
    requires k >= 1 && !Fits(n, i, k)
    ensures i <= q < n && 2 + q >= OFFSETS
    ensures q == i || i + k <= q
    decreases n - i
  {
    if 2 + i >= OFFSETS then i else FirstHigh(n, i + k, k)
  }

  /** The update, as it reaches the card, writes nothing but zero at byte p. */
  predicate Spares(u: Update, p: nat) {
    var w := Wire(u).offset;
    w <= p < w + |u.data| ==> u.data[p - w] == 0
  }

  predicate ZeroBut(data: bytes, q: nat) { forall j | 0 <= j < |data| && j != q :: data[j] == 0 }

  lemma {:induction false} HighSpares(data: bytes, i: nat, k: nat, q: nat)
    requires k >= 1 && 2 + i >= OFFSETS && ZeroBut(data, q)
    ensures forall u | u in Chunks(data, i, k) :: Spares(u, 2 + q)
    decreases |data| - i
  {
    if i < |data| {
      HighSpares(data, i + k, k, q);
    }
  }

  lemma {:induction false} ChunksSpare(data: bytes, i: nat, k: nat, q: nat)
    requires k >= 1 && !Fits(|data|, i, k) && q == FirstHigh(|data|, i, k) && ZeroBut(data, q)
    ensures forall u | u in Chunks(data, i, k) :: Spares(u, 2 + q)
    decreases |data| - i
  {
    if 2 + i >= OFFSETS {
      HighSpares(data, i, k, q);
    } else {
      ChunksSpare(data, i + k, k, q);
    }
  }

  lemma {:induction false} SparedStaysZero(file: bytes, us: seq<Update>, p: nat)
    requires p < |file| && file[p] == 0 && forall u | u in us :: Spares(u, p)
    ensures PutAll(file, WireAll(us))[p] == 0
    decreases |us|
  {
    if us != [] {
      assert us[0] in us;
      assert WireAll(us)[1..] == WireAll(us[1..]);
      SparedStaysZero(Put(file, Wire(us[0])), us[1..], p);
    }
  }

  /** A message of n bytes that a wrapped write does not store. */
  function Lost(n: nat, k: nat): bytes
    requires k >= 1 && !Fits(n, 0, k)
  {
    Zeros(n)[FirstHigh(n, 0, k) := 1]
  }

  lemma PlanSpares(n: nat, k: nat, u: Update)
    requires k >= 1 && !Fits(n, 0, k) && u in Plan(Lost(n, k), k)
    ensures Spares(u, 2 + FirstHigh(n, 0, k))
  {
    var data := Lost(n, k);
    ChunksSpare(data, 0, k, FirstHigh(n, 0, k));
    if u !in Chunks(data, 0, k) {
      assert u == Update(0, [0, 0]) || u == Update(0, Be16(n));
    }
  }

  lemma DecodedByte(f: bytes, data: bytes, q: nat)
    requires Decode(f) == StoredAs(data) && q < |data|
    ensures 2 + q < |f| && f[2 + q] == data[q]
  {}

  lemma WrappedWriteLoses(n: nat, k: nat)
    requires k >= 1 && !Fits(n, 0, k)
    ensures var data := Lost(n, k);
            |data| == n && Decode(PutAll(Zeros(2 + n), WireAll(Plan(data, k)))) != StoredAs(data)
  {
    var data := Lost(n, k);
    var q := FirstHigh(n, 0, k);
    forall u | u in Plan(data, k) {
      PlanSpares(n, k, u);
    }
    SparedStaysZero(Zeros(2 + n), Plan(data, k), 2 + q);
    var f := PutAll(Zeros(2 + n), WireAll(Plan(data, k)));
    if Decode(f) == StoredAs(data) {
      DecodedByte(f, data, q);
      assert false;
    }
  }

  /** The write is right for every file and every message of n bytes exactly when each
      chunk starts below 2^15. */
  lemma WriteStoresIffFits(n: nat, k: nat)
    requires 1 <= k <= DEFAULT_CHUNK
    ensures Fits(n, 0, k) <==>
            forall file: bytes, data: bytes | |data| == n && 2 + n <= |file| ::
              Decode(PutAll(file, WireAll(Plan(data, k)))) == StoredAs(data)
  {
    if Fits(n, 0, k) {
      if n > 0 {
        FitsBound(n, 0, k);
      }
      forall file: bytes, data: bytes | |data| == n && 2 + n <= |file|
        ensures Decode(PutAll(file, WireAll(Plan(data, k)))) == StoredAs(data)
      {
        PlanUnwrapped(data, k);
        PlanIsTearFree(file, data, k, |Plan(data, k)|);
        assert Plan(data, k)[..|Plan(data, k)|] == Plan(data, k);
      }
    } else {
      WrappedWriteLoses(n, k);
      assert |Zeros(2 + n)| == 2 + n;
    }
  }

  /** What the file stores is the old message, none, or the new one. */
  predicate Whole(file: bytes, data: bytes, now: bytes) {
    Decode(now) == Decode(file) || Decode(now) == Empty || Decode(now) == StoredAs(data)
  }

  /** Updates that end with the length leave that length. */
  lemma LengthLast(file: bytes, us: seq<Update>, u: Update)
    requires 2 <= |file| && u.offset == 0 && |u.data| == 2
    ensures FromBe16(PutAll(file, us + [u])) == FromBe16(u.data)
  {
    PutAllAppend(file, us, [u]);
    PutsHead(PutAll(file, us), u);
  }

  lemma PutsHead(file: bytes, u: Update)
    requires 2 <= |file| && u.offset == 0 && |u.data| == 2
    ensures FromBe16(PutAll(file, [u])) == FromBe16(u.data)
  {
    assert [u][1..] == [];
    assert PutAll(file, [u]) == Put(file, u);
    assert Put(file, u)[0] == u.data[0] && Put(file, u)[1] == u.data[1];
  }

  /** A wrapped write of a length that NLEN holds leaves a message that is neither. */
  lemma WrappedWriteTears(n: nat, k: nat)
    requires k >= 1 && !Fits(n, 0, k) && n < 65536
    ensures var data := Lost(n, k);
            |data| == n && !Whole(Zeros(2 + n), data, PutAll(Zeros(2 + n), WireAll(Plan(data, k))))
  {
    WrappedWriteLoses(n, k);
    var wired := WireAll(Plan(Lost(n, k), k));
    assert wired == wired[..|wired| - 1] + [Update(0, Be16(n))];
    LengthLast(Zeros(2 + n), wired[..|wired| - 1], Update(0, Be16(n)));
    Be16RoundTrip(n);
  }

  /** The updates as they reach the card never tear a message, whatever the file, the message
      and the prefix, exactly when each chunk starts below 2^15. */
  lemma TearFreeIffFits(n: nat, k: nat)
    requires 1 <= k <= DEFAULT_CHUNK && n < 65536
    ensures Fits(n, 0, k) <==>
            forall file: bytes, data: bytes, j: nat | |data| == n && 2 + n <= |file| && j <= |Plan(data, k)| ::
              Whole(file, data, PutAll(file, WireAll(Plan(data, k))[..j]))
  {
    if Fits(n, 0, k) {
      forall file: bytes, data: bytes, j: nat | |data| == n && 2 + n <= |file| && j <= |Plan(data, k)|
        ensures Whole(file, data, PutAll(file, WireAll(Plan(data, k))[..j]))
      {
        PlanUnwrapped(data, k);
        PlanIsTearFree(file, data, k, j);
      }
    } else {
      WrappedWriteTears(n, k);
      var data := Lost(n, k);
      assert WireAll(Plan(data, k))[..|Plan(data, k)|] == WireAll(Plan(data, k));
      assert |Zeros(2 + n)| == 2 + n;
    }
  }
}
