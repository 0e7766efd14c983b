/** Command APDUs, section 5.1 of ISO/IEC 7816-4:2005. */
module Apdu {
  import opened Bytes

  const MAX_LC: nat := 0xFFFF
  const MAX_LE: nat := 0x10000

  datatype Head = Head(cla: byte, ins: byte, p1: byte, p2: byte)

  function HeadBytes(h: Head): bytes { [h.cla, h.ins, h.p1, h.p2] }

  /** BuildExtendedAPDU. */
  function BuildExtended(h: Head, data: bytes, le: Option<int>): Option<bytes> {
    if |data| > MAX_LC || (le.Some? && !(0 <= le.value <= MAX_LE)) then None
    else
      var field := if le.None? then [] else Be16(if le.value == MAX_LE then 0 else le.value);
      Some(if data != [] then HeadBytes(h) + [0] + Be16(|data|) + data + field
           else if le.Some? then HeadBytes(h) + [0] + field
           else HeadBytes(h))
  }

  /** BuildAPDU: the short form, or the extended one for more than 255 bytes of data. */
  function Build(h: Head, data: bytes, le: Option<byte>): Option<bytes> {
    if |data| > 0xFF then
      BuildExtended(h, data, if le.None? then None else Some(if le.value == 0 then MAX_LE else le.value))
    else
      var lc := if data == [] then [] else [|data|];
      var field := if le.None? then [] else [le.value];
      Some(HeadBytes(h) + lc + data + field)
  }

  // ---- reading a command ----

  /** A command as the card reads it: the data, and the most bytes it may answer with. */
  datatype Command = Command(head: Head, data: bytes, ne: Option<nat>)

  function NeOf(le: nat, most: nat): nat { if le == 0 then most else le }

  /** The cases of the standard, by the length of what follows the header and its first byte. */
  function Decode(s: bytes): Option<Command> {
    if |s| < 4 then None
    else
      var h, n := Head(s[0], s[1], s[2], s[3]), |s| - 4;
      if n == 0 then Some(Command(h, [], None))
      else if n == 1 then Some(Command(h, [], Some(NeOf(s[4], 256))))
      else if s[4] != 0 then DecodeShort(s, h, s[4])
      else if n == 3 then Some(Command(h, [], Some(NeOf(FromBe16(s[5..]), MAX_LE))))
      else if n > 3 then DecodeExtended(s, h, FromBe16(s[5..]))
      else None
  }

  function DecodeShort(s: bytes, h: Head, lc: nat): Option<Command>
    requires |s| >= 5
  {
    if |s| == 5 + lc then Some(Command(h, s[5..], None))
    else if |s| == 6 + lc then Some(Command(h, s[5..5 + lc], Some(NeOf(s[5 + lc], 256))))
    else None
  }

  function DecodeExtended(s: bytes, h: Head, lc: nat): Option<Command>
    requires |s| >= 7
  {
    if |s| == 7 + lc then Some(Command(h, s[7..], None))
    else if |s| == 9 + lc then Some(Command(h, s[7..7 + lc], Some(NeOf(FromBe16(s[7 + lc..]), MAX_LE))))
    else None
  }

  /** The card reads an extended command as it was meant, an Le of 0 and of 65536 both as
      the most. */
  lemma ExtendedRoundTrip(h: Head, data: bytes, le: Option<int>)
    ensures BuildExtended(h, data, le).Some? <==> |data| <= MAX_LC && (le.Some? ==> 0 <= le.value <= MAX_LE)
    ensures BuildExtended(h, data, le).Some? ==>
              Decode(BuildExtended(h, data, le).value)
              == Some(Command(h, data, if le.None? then None else Some(NeOf(le.value, MAX_LE))))
  {
    var built := BuildExtended(h, data, le);
    if built.Some? {
      var s := built.value;
      var v: nat := if le.None? || le.value == MAX_LE then 0 else le.value;
      Be16RoundTrip(v);
      if data != [] {
        ExtendedWithData(h, data, le, v);
      } else if le.Some? {
        assert s[5..] == Be16(v);
      }
    }
  }

  lemma ExtendedWithData(h: Head, data: bytes, le: Option<int>, v: nat)
    requires 0 < |data| <= MAX_LC && (le.Some? ==> 0 <= le.value <= MAX_LE) && v < MAX_LE
    requires le.Some? ==> v == if le.value == MAX_LE then 0 else le.value
    ensures BuildExtended(h, data, le).Some?
            && Decode(BuildExtended(h, data, le).value)
               == Some(Command(h, data, if le.None? then None else Some(NeOf(le.value, MAX_LE))))
  {
    var s := BuildExtended(h, data, le).value;
    var field := if le.None? then [] else Be16(v);
    assert s == HeadBytes(h) + [0] + Be16(|data|) + data + field;
    assert s[..4] == HeadBytes(h) && s[4] == 0 && Stands(s, 5, Be16(|data|)) && Stands(s, 7, data) && Stands(s, 7 + |data|, field);
    ExtendedReads(s, h, data, field, v);
    assert le.Some? ==> NeOf(le.value, MAX_LE) == NeOf(v, MAX_LE);
  }

  lemma ExtendedReads(s: bytes, h: Head, data: bytes, field: bytes, v: nat)
    requires |data| <= MAX_LC && v < MAX_LE && (field == [] || field == Be16(v)) && |s| == 7 + |data| + |field| && 0 < |data|
    requires s[..4] == HeadBytes(h) && s[4] == 0 && Stands(s, 5, Be16(|data|)) && Stands(s, 7, data) && Stands(s, 7 + |data|, field)
    ensures Decode(s) == Some(Command(h, data, if field == [] then None else Some(NeOf(v, MAX_LE))))
  {
    Be16RoundTrip(|data|);
    Be16RoundTrip(v);
    assert s[5] == s[5..7][0] && s[6] == s[5..7][1];
    assert s[0] == s[..4][0] && s[1] == s[..4][1] && s[2] == s[..4][2] && s[3] == s[..4][3];
    if field == [] {
      assert s[7..] == s[7..7 + |data|];
    } else {
      assert s[7 + |data|..] == field;
    }
  }

  /** The card reads a command as it was meant, whichever form its data calls for. */
  lemma BuildRoundTrip(h: Head, data: bytes, le: Option<byte>)
    ensures Build(h, data, le).Some? <==> |data| <= MAX_LC
    ensures |data| <= MAX_LC ==>
              Decode(Build(h, data, le).value)
              == Some(Command(h, data, if le.None? then None else Some(NeOf(le.value, if |data| <= 0xFF then 256 else MAX_LE))))
  {
    if |data| > 0xFF {
      ExtendedRoundTrip(h, data, if le.None? then None else Some(if le.value == 0 then MAX_LE else le.value));
    } else {
      var s := Build(h, data, le).value;
      if data != [] {
        if le.None? {
          assert s[5..] == data;
        } else {
          assert s[5..5 + |data|] == data;
        }
      }
    }
  }

  // ---- following up ----

  /** withShortLe. */
  function WithShortLe(cmd: bytes, le: byte): Option<bytes> {
    if |cmd| < 4 then None
    else
      var n := |cmd| - 4;
      if n == 0 then Some(cmd + [le])
      else if n == 1 then Some(cmd[4 := le])
      else if cmd[4] == 0 then None
      else if n == 1 + cmd[4] as int then Some(cmd + [le])
      else if n == 2 + cmd[4] as int then Some(cmd[|cmd| - 1 := le])
      else None
  }

  /** Re-sending a short command with the Le the card named is building it with that Le,
      and only a short command is rewritten. */
  lemma ResendIsRebuilt(h: Head, data: bytes, le: Option<byte>, x: byte)
    requires |data| <= MAX_LC
    ensures WithShortLe(Build(h, data, le).value, x) == if |data| <= 0xFF then Build(h, data, Some(x)) else None
  {
    var s := Build(h, data, le).value;
    if |data| <= 0xFF {
      var lc := if data == [] then [] else [|data|];
      assert if le.Some? then s[|s| - 1 := x] == HeadBytes(h) + lc + data + [x] else s + [x] == HeadBytes(h) + lc + data + [x];
    }
  }

  /** getResponseCLA. */
  function GetResponseCla(cla: byte): byte {
    if cla >= 0x80 then cla else if cla >= 0x40 then 0x40 + cla % 16 else cla % 4
  }

  function GetResponse(cla: byte, le: byte): bytes { [GetResponseCla(cla), 0xC0, 0x00, 0x00, le] }

  const WRONG_LENGTH: byte := 0x6C
  const MORE_DATA: byte := 0x61
  const MAX_ROUNDS: nat := 64
}
