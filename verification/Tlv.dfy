/** TLV blocks, section 2.3 of the NFC Forum Type 2 Tag Operation specification. */
module Tlv {
  import opened Bytes

  const NULL: byte := 0x00
  const NDEF: byte := 0x03
  const TERMINATOR: byte := 0xFE

  /** The length field in its short form, or in its long one, which keeps sixteen bits. */
  function LengthField(n: nat, long: bool): (s: bytes)
    requires long || n < 0xFF
    ensures |s| == if long then 3 else 1
  {
    if long then [0xFF] + Be16(n) else [n]
  }

  /** Type, length, value and terminator. */
  function Encode(data: bytes, kind: byte): bytes {
    [kind] + LengthField(|data|, |data| >= 0xFF) + data + [TERMINATOR]
  }

  /** TLVEncode, appending field by field. */
  method TLVEncode(data: bytes, kind: byte) returns (r: bytes)
    ensures r == Encode(data, kind)
  {
    r := [kind];
    if |data| < 0xFF {
      r := r + [|data|];
    } else {
      r := r + [0xFF];
      r := r + [ToByte(|data| / 256)];
      r := r + [ToByte(|data|)];
    }
    r := r + data;
    r := r + [TERMINATOR];
  }

  /** Where the value of the record at `at` starts and how long its length field says it
      is; None for a length field that is cut short. */
  function Field(data: bytes, at: nat): (r: Option<(nat, nat)>)
    ensures r.Some? ==> at + 2 <= r.value.0
  {
    if at + 2 > |data| then None
    else if data[at + 1] != 0xFF then Some((at + 2, data[at + 1]))
    else if at + 4 > |data| then None
    else Some((at + 4, FromBe16(data[at + 2..])))
  }

  /** The value of the first NDEF record from `at` on, before any terminator. */
  function Find(data: bytes, at: nat): Option<bytes>
    decreases |data| - at
  {
    if at >= |data| || data[at] == TERMINATOR then None
    else if data[at] == NULL then Find(data, at + 1)
    else match Field(data, at)
         case None => None
         case Some((start, n)) =>
           if data[at] != NDEF then Find(data, start + n)
           else if start + n > |data| then None
           else Some(data[start..start + n])
  }

  /** TLVFindNDEF, over a moving offset. */
  method TLVFindNDEF(data: bytes) returns (r: Option<bytes>)
    ensures r == Find(data, 0)
  {
    var offset: nat := 0;
    while offset < |data|
      invariant Find(data, offset) == Find(data, 0)
      decreases |data| - offset
    {
      var kind := data[offset];
      if kind == NULL {
        offset := offset + 1;
      } else if kind == TERMINATOR {
        return None;
      } else {
        var field := Field(data, offset);
        if field.None? { return None; }
        var (start, n) := field.value;
        if kind == NDEF {
          return if start + n > |data| then None else Some(data[start..start + n]);
        }
        offset := start + n;
      }
    }
    return None;
  }

  /** What is found in a prefix is found, the same, in every extension of it, so a reader
      may stop at the first prefix that shows a message. */
  lemma {:induction false} PrefixStable(data: bytes, more: bytes, at: nat)
    requires Find(data, at).Some?
    ensures Find(data + more, at) == Find(data, at)
    decreases |data| - at
  {
    var all := data + more;
    assert all[at] == data[at];
    if data[at] == NULL {
      PrefixStable(data, more, at + 1);
    } else {
      var (start, n) := Field(data, at).value;
      FieldStable(data, more, at);
      if data[at] != NDEF {
        PrefixStable(data, more, start + n);
      } else {
        assert all[start..start + n] == data[start..start + n];
      }
    }
  }

  lemma FieldStable(data: bytes, more: bytes, at: nat)
    requires Field(data, at).Some?
    ensures Field(data + more, at) == Field(data, at)
  {
    var all := data + more;
    assert all[at + 1] == data[at + 1];
    if data[at + 1] == 0xFF {
      assert all[at + 2..][..2] == data[at + 2..][..2];
    }
  }

  // ---- finding what was encoded ----

  /** A record a reader passes over on its way to the message. */
  datatype Other = Padding | Record(kind: byte, value: bytes, long: bool)

  predicate Skippable(o: Other) {
    o.Record? ==> o.kind != NULL && o.kind != NDEF && o.kind != TERMINATOR && |o.value| < (if o.long then 65536 else 0xFF)
  }

  function Written(o: Other): (w: bytes)
    requires Skippable(o)
    ensures |w| == if o.Padding? then 1 else 1 + |LengthField(|o.value|, o.long)| + |o.value|
  {
    if o.Padding? then [NULL] else [o.kind] + LengthField(|o.value|, o.long) + o.value
  }

  /** The record stands at `at`, and the next one would at `next`. */
  predicate Passes(s: bytes, at: nat, o: Other, next: nat) {
    Skippable(o) && next == at + |Written(o)| && Stands(s, at, Written(o))
  }

  /** These records stand one after the other, at these places. */
  predicate Laid(s: bytes, places: seq<nat>, os: seq<Other>) {
    |places| == |os| + 1 && forall i | 0 <= i < |os| :: Passes(s, places[i], os[i], places[i + 1])
  }

  /** The length field of a record at `at`, read back. */
  lemma FieldIs(s: bytes, at: nat, n: nat, long: bool)
    requires n < (if long then 65536 else 0xFF) && Stands(s, at + 1, LengthField(n, long))
    ensures Field(s, at) == Some((at + 1 + |LengthField(n, long)|, n))
  {
    var field := s[at + 1..at + 1 + |LengthField(n, long)|];
    assert s[at + 1] == field[0];
    if long {
      Be16RoundTrip(n);
      assert s[at + 2] == field[1] && s[at + 3] == field[2];
    }
  }

  /** Passing over a record whose length field says n. */
  lemma SkipsRecord(s: bytes, at: nat, n: nat, long: bool)
    requires at < |s| && s[at] != NULL && s[at] != NDEF && s[at] != TERMINATOR
    requires n < (if long then 65536 else 0xFF) && Stands(s, at + 1, LengthField(n, long))
    ensures Find(s, at) == Find(s, at + 1 + |LengthField(n, long)| + n)
  {
    FieldIs(s, at, n, long);
  }

  lemma RecordStands(s: bytes, at: nat, kind: byte, field: bytes, value: bytes)
    requires Stands(s, at, [kind] + field + value)
    ensures at < |s| && s[at] == kind && Stands(s, at + 1, field) && Stands(s, at + 1 + |field|, value)
  {
    StandsSplit(s, at, [kind] + field, value);
    StandsSplit(s, at, [kind], field);
    assert s[at] == s[at..at + 1][0];
  }

  lemma SkipsPadding(s: bytes, at: nat)
    requires Stands(s, at, [NULL])
    ensures Find(s, at) == Find(s, at + 1)
  {
    assert s[at] == s[at..at + 1][0];
  }

  lemma SkipsWritten(s: bytes, at: nat, kind: byte, value: bytes, long: bool, field: bytes)
    requires kind != NULL && kind != NDEF && kind != TERMINATOR && |value| < (if long then 65536 else 0xFF)
    requires field == LengthField(|value|, long) && Stands(s, at, [kind] + field + value)
    ensures Find(s, at) == Find(s, at + 1 + |field| + |value|)
  {
    RecordStands(s, at, kind, field, value);
    SkipsRecord(s, at, |value|, long);
  }

  /** Passing over one record. */
  lemma FindSkips(s: bytes, at: nat, o: Other, next: nat)
    requires Passes(s, at, o, next)
    ensures Find(s, at) == Find(s, next)
  {
    var w := Written(o);
    if o.Padding? {
      assert w == [NULL];
      SkipsPadding(s, at);
    } else {
      var field := LengthField(|o.value|, o.long);
      assert w == [o.kind] + field + o.value;
      SkipsWritten(s, at, o.kind, o.value, o.long, field);
    }
  }

  /** An NDEF record whose length field says n of the bytes that follow. */
  lemma FindsValue(s: bytes, at: nat, n: nat, long: bool, data: bytes)
    requires at < |s| && s[at] == NDEF && n <= |data| && n < (if long then 65536 else 0xFF)
    requires Stands(s, at + 1, LengthField(n, long)) && Stands(s, at + 1 + |LengthField(n, long)|, data)
    ensures Find(s, at) == Some(data[..n])
  {
    FieldIs(s, at, n, long);
    var start := at + 1 + |LengthField(n, long)|;
    assert s[start..start + n] == s[start..start + |data|][..n];
  }

  /** What a search makes of an encoded message: as many bytes of it as sixteen bits say. */
  lemma FindsPart(s: bytes, at: nat, data: bytes)
    requires Stands(s, at, Encode(data, NDEF))
    ensures Find(s, at) == Some(data[..|data| % 65536])
  {
    var long := |data| >= 0xFF;
    var field := LengthField(|data|, long);
    StandsSplit(s, at, [NDEF] + field + data, [TERMINATOR]);
    RecordStands(s, at, NDEF, field, data);
    Be16Truncates(|data|);
    assert field == LengthField(|data| % 65536, long);
    FindsValue(s, at, |data| % 65536, long, data);
  }

  /** A search passes over all other records. */
  lemma {:induction false} SkipsAll(s: bytes, places: seq<nat>, os: seq<Other>, i: nat)
    requires Laid(s, places, os) && i <= |os|
    ensures Find(s, places[0]) == Find(s, places[i])
    decreases i
  {
    if i > 0 {
      SkipsAll(s, places, os, i - 1);
      FindSkips(s, places[i - 1], os[i - 1], places[i]);
    }
  }

  lemma Whole(data: bytes)
    ensures data[..|data| % 65536] == data <==> |data| < 65536
  {}

  /** After any other records, and whatever follows, a search finds the encoded message
      exactly when sixteen bits hold its length. */
  lemma FindsEncoded(s: bytes, places: seq<nat>, os: seq<Other>, data: bytes)
    requires Laid(s, places, os) && Stands(s, places[|os|], Encode(data, NDEF))
    ensures Find(s, places[0]) == Some(data) <==> |data| < 65536
  {
    SkipsAll(s, places, os, |os|);
    FindsPart(s, places[|os|], data);
    Whole(data);
  }
}
