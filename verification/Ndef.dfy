/** NDEF messages, section 3.2 of the NFC Forum NDEF specification 1.0. */
module Ndef {
  import opened Bytes

  datatype Record = Record(tnf: byte, kind: bytes, id: bytes, payload: bytes)

  const FOUR_BYTES: nat := 0x1_0000_0000

  /** A record whose fields the layout can hold. */
  predicate Fits(r: Record) { r.tnf < 8 && |r.kind| < 256 && |r.id| < 256 && |r.payload| < FOUR_BYTES }

  predicate AllFit(rs: seq<Record>) { forall i | 0 <= i < |rs| :: Fits(rs[i]) }

  // ---- encoding ----

  function Flag(b: bool, weight: nat): nat { if b then weight else 0 }

  predicate IsShort(r: Record) { |r.payload| <= 255 }

  /** MB, ME, SR, IL and the type name format. */
  function Header(r: Record, first: bool, last: bool): (h: byte)
  {
    r.tnf % 8 + Flag(r.id != [], 8) + Flag(IsShort(r), 16) + Flag(last, 64) + Flag(first, 128)
  }

  function PayloadLength(r: Record): bytes {
    if IsShort(r) then [|r.payload|] else Be32(|r.payload|)
  }

  function IdLength(r: Record): bytes { if r.id == [] then [] else [ToByte(|r.id|)] }

  function Lengths(r: Record): bytes { [ToByte(|r.kind|)] + PayloadLength(r) + IdLength(r) }

  function EncodeRecord(r: Record, first: bool, last: bool): bytes {
    [Header(r, first, last)] + Lengths(r) + (r.kind + (r.id + r.payload))
  }

  /** The records from here on, the last of them marked as the end. */
  function EncodeFrom(rs: seq<Record>, first: bool): bytes {
    if rs == [] then [] else EncodeRecord(rs[0], first, |rs| == 1) + EncodeFrom(rs[1..], false)
  }

  function Encode(rs: seq<Record>): Option<bytes> {
    if rs == [] then None else Some(EncodeFrom(rs, true))
  }

  // ---- parsing ----

  datatype Parsed = Parsed(record: Record, next: nat, last: bool)

  /** The bytes s[at..at + n], if there are that many. */
  function Take(s: bytes, at: nat, n: nat): Option<bytes> {
    if at + n <= |s| then Some(s[at..at + n]) else None
  }

  predicate HasIdFlag(h: byte) { h / 8 % 2 == 1 }
  predicate ShortFlag(h: byte) { h / 16 % 2 == 1 }
  predicate LastFlag(h: byte) { h / 64 % 2 == 1 }

  /** The record at `at`. */
  function ParseRecord(s: bytes, at: nat): (r: Option<Parsed>)
    ensures r.Some? ==> at < r.value.next <= |s| && Fits(r.value.record)
  {
    if at + 2 > |s| then None else ParseLengths(s, at, ShortFlag(s[at]), HasIdFlag(s[at]))
  }

  /** Its lengths, then its fields. */
  function ParseLengths(s: bytes, at: nat, short: bool, hasId: bool): (r: Option<Parsed>)
    requires at + 2 <= |s|
    ensures r.Some? ==> at < r.value.next <= |s| && Fits(r.value.record)
  {
    var afterLength := at + 2 + if short then 1 else 4;
    var afterLengths := afterLength + Flag(hasId, 1);
    if afterLengths > |s| then None
    else
      var payload := if short then s[at + 2] as nat else FromBe32(s[at + 2..]);
      var id: nat := if hasId then s[afterLength] else 0;
      ParseFields(s, s[at], afterLengths, s[at + 1], id, payload)
  }

  function ParseFields(s: bytes, header: byte, at: nat, kind: nat, id: nat, payload: nat): (r: Option<Parsed>)
    requires kind < 256 && id < 256
    ensures r.Some? ==> r.value.next == at + kind + id + payload <= |s| && |r.value.record.payload| == payload
    ensures r.Some? ==> r.value.record.tnf < 8 && |r.value.record.kind| < 256 && |r.value.record.id| < 256
  {
    var end := at + kind + id + payload;
    if end > |s| then None
    else
      Some(Parsed(Record(header % 8, s[at..at + kind], s[at + kind..at + kind + id], s[at + kind + id..end]), end, LastFlag(header)))
  }

  /** The records from `at` on, up to the one marked as the end or the end of the bytes. */
  function ParseFrom(s: bytes, at: nat): (r: Option<seq<Record>>)
    ensures r.Some? ==> AllFit(r.value)
    decreases |s| - at
  {
    if at >= |s| then Some([])
    else match ParseRecord(s, at)
         case None => None
         case Some(p) =>
           if p.last then Some([p.record])
           else match ParseFrom(s, p.next)
                case None => None
                case Some(rs) => Some([p.record] + rs)
  }

  function Parse(s: bytes): Option<seq<Record>> {
    if s == [] then None else ParseFrom(s, 0)
  }

  // ---- round trip ----

  lemma Weights(t: nat, a: nat, b: nat, c: nat, d: nat)
    requires t < 8 && a < 2 && b < 2 && c < 2 && d < 2
    ensures var h := t + 8 * a + 16 * b + 64 * c + 128 * d;
            h % 8 == t && h / 8 % 2 == a && h / 16 % 2 == b && h / 64 % 2 == c
  {
    var h := t + 8 * a + 16 * b + 64 * c + 128 * d;
    assert h / 8 == a + 2 * b + 8 * c + 16 * d;
    assert h / 16 == b + 4 * c + 8 * d;
    assert h / 64 == c + 2 * d;
  }

  lemma HeaderFields(r: Record, first: bool, last: bool)
    ensures var h := Header(r, first, last);
            h % 8 == r.tnf % 8 && (HasIdFlag(h) <==> r.id != []) && (ShortFlag(h) <==> IsShort(r)) && (LastFlag(h) <==> last)
  {
    Weights(r.tnf % 8, Flag(r.id != [], 1), Flag(IsShort(r), 1), Flag(last, 1), Flag(first, 1));
  }

  /** The fields of a record at `at`, read back in order. */
  lemma FieldsRoundTrip(s: bytes, at: nat, r: Record, header: byte)
    requires Stands(s, at, r.kind + (r.id + r.payload)) && |r.kind| < 256 && |r.id| < 256
    ensures var end := at + |r.kind| + |r.id| + |r.payload|;
            ParseFields(s, header, at, |r.kind|, |r.id|, |r.payload|) == Some(Parsed(r.(tnf := header % 8), end, LastFlag(header)))
  {
    StandsSplit(s, at, r.kind, r.id + r.payload);
    StandsSplit(s, at + |r.kind|, r.id, r.payload);
  }

  lemma SizedRoundTrip(s: bytes, at: nat, r: Record)
    requires Fits(r) && at < |s| && Stands(s, at + 1, Lengths(r))
    requires Stands(s, at + 1 + |Lengths(r)|, r.kind + (r.id + r.payload))
    ensures ParseLengths(s, at, IsShort(r), r.id != [])
            == Some(Parsed(r.(tnf := s[at] % 8), at + 1 + |Lengths(r)| + |r.kind| + |r.id| + |r.payload|, LastFlag(s[at])))
  {
    LengthsRoundTrip(s, at + 1, r);
    FieldsRoundTrip(s, at + 1 + |Lengths(r)|, r, s[at]);
  }

  /** A record after a header that says these things of it. */
  lemma HeadedRoundTrip(s: bytes, at: nat, r: Record, h: byte, last: bool)
    requires Fits(r) && Stands(s, at, [h] + Lengths(r) + (r.kind + (r.id + r.payload)))
    requires h % 8 == r.tnf && (HasIdFlag(h) <==> r.id != []) && (ShortFlag(h) <==> IsShort(r)) && (LastFlag(h) <==> last)
    ensures ParseRecord(s, at) == Some(Parsed(r, at + 1 + |Lengths(r)| + |r.kind| + |r.id| + |r.payload|, last))
  {
    StandsSplit(s, at, [h] + Lengths(r), r.kind + (r.id + r.payload));
    StandsSplit(s, at, [h], Lengths(r));
    assert s[at] == s[at..at + 1][0];
    SizedRoundTrip(s, at, r);
  }

  lemma RecordRoundTrip(s: bytes, at: nat, r: Record, first: bool, last: bool)
    requires Fits(r) && Stands(s, at, EncodeRecord(r, first, last))
    ensures ParseRecord(s, at) == Some(Parsed(r, at + |EncodeRecord(r, first, last)|, last))
  {
    HeaderFields(r, first, last);
    HeadedRoundTrip(s, at, r, Header(r, first, last), last);
  }

  lemma LengthsRoundTrip(s: bytes, at: nat, r: Record)
    requires Fits(r) && Stands(s, at, Lengths(r))
    ensures s[at] == |r.kind|
    ensures if IsShort(r) then s[at + 1] == |r.payload| else at + 5 <= |s| && FromBe32(s[at + 1..]) == |r.payload|
    ensures r.id != [] ==> s[at + |Lengths(r)| - 1] == |r.id|
  {
    StandsSplit(s, at, [ToByte(|r.kind|)] + PayloadLength(r), IdLength(r));
    StandsSplit(s, at, [ToByte(|r.kind|)], PayloadLength(r));
    assert s[at] == s[at..at + 1][0];
    var p := at + 1;
    if IsShort(r) {
      assert s[p] == s[p..p + 1][0];
    } else {
      Be32RoundTrip(|r.payload|);
      assert s[p..][..2] == s[p..p + 4][..2] && s[p..][2..][..2] == s[p..p + 4][2..];
    }
    if r.id != [] {
      var q := at + |Lengths(r)| - 1;
      assert s[q] == s[q..q + 1][0];
    }
  }

  lemma ParseNext(s: bytes, at: nat, rs: seq<Record>, next: nat)
    requires at < |s| && rs != [] && ParseRecord(s, at) == Some(Parsed(rs[0], next, |rs| == 1))
    requires |rs| > 1 ==> at < next && ParseFrom(s, next) == Some(rs[1..])
    ensures ParseFrom(s, at) == Some(rs)
  {
    assert rs == [rs[0]] + rs[1..];
    if |rs| == 1 {
      assert rs == [rs[0]];
    }
  }

  lemma FirstRoundTrip(s: bytes, at: nat, rs: seq<Record>, first: bool) returns (next: nat)
    requires rs != [] && Fits(rs[0]) && Stands(s, at, EncodeFrom(rs, first))
    ensures at < next && at < |s| && ParseRecord(s, at) == Some(Parsed(rs[0], next, |rs| == 1))
    ensures Stands(s, next, EncodeFrom(rs[1..], false))
  {
    var r := EncodeRecord(rs[0], first, |rs| == 1);
    next := at + |r|;
    StandsSplit(s, at, r, EncodeFrom(rs[1..], false));
    RecordRoundTrip(s, at, rs[0], first, |rs| == 1);
  }

  lemma {:induction false} FromRoundTrip(s: bytes, at: nat, rs: seq<Record>, first: bool)
    requires rs != [] && AllFit(rs) && Stands(s, at, EncodeFrom(rs, first))
    ensures ParseFrom(s, at) == Some(rs)
    decreases |rs|
  {
    var next := FirstRoundTrip(s, at, rs, first);
    if |rs| > 1 {
      FromRoundTrip(s, next, rs[1..], false);
    }
    ParseNext(s, at, rs, next);
  }

  /** Parsing an encoded message, whatever follows it, gives back exactly its records if
      and only if the layout can hold each of them. */
  lemma RoundTripIffFits(rs: seq<Record>, rest: bytes)
    requires rs != []
    ensures Encode(rs).Some? && (Parse(Encode(rs).value + rest) == Some(rs) <==> AllFit(rs))
  {
    var s := EncodeFrom(rs, true) + rest;
    if AllFit(rs) {
      assert s[0..|EncodeFrom(rs, true)|] == EncodeFrom(rs, true);
      FromRoundTrip(s, 0, rs, true);
    }
  }

  lemma RoundTrip(rs: seq<Record>)
    requires rs != [] && AllFit(rs)
    ensures Encode(rs).Some? && Parse(Encode(rs).value) == Some(rs)
  {
    RoundTripIffFits(rs, []);
    assert Encode(rs).value + [] == Encode(rs).value;
  }

  // ---- the loops ----

  /** copy: the buffer from pos on takes the bytes. */
  method CopyInto(buf: array<byte>, pos: nat, data: bytes)
    requires pos + |data| <= buf.Length
    modifies buf
    ensures buf[..pos] == old(buf[..pos]) && buf[pos..pos + |data|] == data
  {
    for i := 0 to |data|
      invariant buf[..pos] == old(buf[..pos])
      invariant buf[pos..pos + i] == data[..i]
    {
      buf[pos + i] := data[i];
    }
  }

  /** One field after the other, at an advancing position. */
  method WriteField(buf: array<byte>, pos: nat, field: bytes, ghost done: bytes) returns (next: nat)
    requires pos + |field| <= buf.Length && buf[..pos] == done
    modifies buf
    ensures next == pos + |field| && buf[..next] == done + field
  {
    CopyInto(buf, pos, field);
    next := pos + |field|;
    assert buf[..next] == buf[..pos] + buf[pos..next];
  }

  /** The four parts of a record, into a buffer of their size. */
  method Assemble(head: bytes, r: Record, size: nat) returns (out: bytes)
    requires size == |head| + |r.kind| + |r.id| + |r.payload|
    ensures out == head + (r.kind + (r.id + r.payload))
  {
    var buf := new byte[size];
    assert buf[..0] == [] && [] + head == head;
    var pos := WriteField(buf, 0, head, []);
    pos := WriteField(buf, pos, r.kind, head);
    pos := WriteField(buf, pos, r.id, head + r.kind);
    pos := WriteField(buf, pos, r.payload, head + r.kind + r.id);
    out := buf[..];
    assert out == buf[..pos];
  }

  /** One record. */
  method BuildRecord(r: Record, first: bool, last: bool) returns (out: bytes)
    ensures out == EncodeRecord(r, first, last)
  {
    var size := 1 + 1 + (if IsShort(r) then 1 else 4) + (if r.id != [] then 1 else 0) + |r.kind| + |r.id| + |r.payload|;
    out := Assemble([Header(r, first, last)] + Lengths(r), r, size);
  }

  lemma EncodeNext(rs: seq<Record>, i: nat)
    requires i < |rs|
    ensures EncodeFrom(rs[i..], i == 0) == EncodeRecord(rs[i], i == 0, i == |rs| - 1) + EncodeFrom(rs[i + 1..], false)
  {
    assert rs[i..][1..] == rs[i + 1..];
  }

  /** encodeNDEFRecords. */
  method EncodeRecords(rs: seq<Record>) returns (r: Option<bytes>)
    ensures r == Encode(rs)
  {
    if rs == [] { return None; }
    var out: bytes := [];
    ghost var goal := EncodeFrom(rs, true);
    assert rs[0..] == rs && out + goal == goal;
    for i := 0 to |rs|
      invariant out + EncodeFrom(rs[i..], i == 0) == goal
    {
      out := AppendRecord(out, rs, i);
    }
    assert rs[|rs|..] == [] && out + [] == out;
    return Some(out);
  }

  method AppendRecord(out: bytes, rs: seq<Record>, i: nat) returns (more: bytes)
    requires i < |rs|
    ensures more + EncodeFrom(rs[i + 1..], false) == out + EncodeFrom(rs[i..], i == 0)
  {
    EncodeNext(rs, i);
    var one := BuildRecord(rs[i], i == 0, i == |rs| - 1);
    Reassociate(out, one, EncodeFrom(rs[i + 1..], false));
    more := out + one;
  }

  lemma Reassociate(a: bytes, b: bytes, c: bytes)
    ensures (a + b) + c == a + (b + c)
  {}

  /** Records parsed so far, then the rest. */
  function Then(done: seq<Record>, rest: Option<seq<Record>>): Option<seq<Record>> {
    if rest.None? then None else Some(done + rest.value)
  }

  lemma ThenNext(done: seq<Record>, r: Record, rest: Option<seq<Record>>)
    ensures Then(done, Then([r], rest)) == Then(done + [r], rest)
  {
    if rest.Some? {
      assert done + ([r] + rest.value) == (done + [r]) + rest.value;
    }
  }

  /** parseNDEFRecords, over an advancing offset. */
  method ParseRecords(s: bytes) returns (r: Option<seq<Record>>)
    ensures r == Parse(s)
  {
    if s == [] { return None; }
    var records: seq<Record> := [];
    var offset: nat := 0;
    ghost var goal := ParseFrom(s, 0);
    assert goal.Some? ==> [] + goal.value == goal.value;
    while offset < |s|
      invariant goal == Then(records, ParseFrom(s, offset))
      decreases |s| - offset
    {
      var p := ParseRecord(s, offset);
      if p.None? { return None; }
      ThenNext(records, p.value.record, ParseFrom(s, p.value.next));
      records := records + [p.value.record];
      offset := p.value.next;
      if p.value.last { return Some(records); }
    }
    assert records + [] == records;
    return Some(records);
  }
}
