/** Payloads of the Well Known record types: text, URI (section 3.2.2 of the NFC Forum URI
    RTD) and Smart Poster, which nests a message. */
module NdefPayloads {
  import opened Bytes
  import opened Ndef

  // ---- text ----

  /** A text as stored: UTF-8 bytes, or UTF-16 code units still in bytes. */
  datatype Text = Utf8(text: bytes) | Utf16(units: bytes)

  const DEFAULT_LANGUAGE: bytes := [0x65, 0x6E]

  function MakeText(text: bytes, language: bytes): bytes {
    var l := if language == [] then DEFAULT_LANGUAGE else language;
    var code := l[..Min(|l|, 0x3F)];
    [|code|] + code + text
  }

  function ParseText(payload: bytes): Option<Text> {
    if payload == [] then None
    else
      var start := 1 + payload[0] % 64;
      if start > |payload| then None
      else if payload[0] < 0x80 then Some(Utf8(payload[start..]))
      else if (|payload| - start) % 2 != 0 then None
      else Some(Utf16(payload[start..]))
  }

  /** The text comes back whatever the language code, one longer than 63 bytes included. */
  lemma TextRoundTrip(text: bytes, language: bytes)
    ensures ParseText(MakeText(text, language)) == Some(Utf8(text))
  {
    var l := if language == [] then DEFAULT_LANGUAGE else language;
    var code := l[..Min(|l|, 0x3F)];
    assert MakeText(text, language)[1 + |code|..] == text;
  }

  // ---- URI ----

  const PREFIXES: seq<string> := [
    "", "http://www.", "https://www.", "http://", "https://", "tel:", "mailto:",
    "ftp://anonymous:anonymous@", "ftp://ftp.", "ftps://", "sftp://", "smb://", "nfs://", "ftp://",
    "dav://", "news:", "telnet://", "imap:", "rtsp://", "urn:", "pop:", "sip:", "sips:", "tftp:",
    "btspp://", "btl2cap://", "btgoep://", "tcpobex://", "irdaobex://", "file://", "urn:epc:id:",
    "urn:epc:tag:", "urn:epc:pat:", "urn:epc:raw:", "urn:epc:", "urn:nfc:"
  ]

  function Ascii(s: string): (r: bytes)
    ensures |r| == |s|
  {
    seq(|s|, i requires 0 <= i < |s| => s[i] as int % 256)
  }

  /** The prefixes by identifier code, the empty one first. */
  function Table(): (t: seq<bytes>)
    ensures IsTable(t)
  {
    var t := seq(|PREFIXES|, i requires 0 <= i < |PREFIXES| => Ascii(PREFIXES[i]));
    assert |PREFIXES| == 36 && PREFIXES[0] == "";
    t
  }

  predicate IsTable(t: seq<bytes>) { 0 < |t| <= 256 && t[0] == [] }

  /** What an identifier code stands for; a code outside the table stands for nothing. */
  function Prefix(t: seq<bytes>, code: nat): bytes { if code < |t| then t[code] else [] }

  function ParseUri(t: seq<bytes>, payload: bytes): Option<bytes> {
    if payload == [] then None else Some(Prefix(t, payload[0]) + payload[1..])
  }

  predicate Matches(t: seq<bytes>, c: nat, uri: bytes) { c < |t| && t[c] <= uri }

  /** The code is that of the longest prefix of the URI among the first n, and the first
      such. */
  predicate IsBest(t: seq<bytes>, uri: bytes, code: nat, n: nat) {
    && n <= |t| && Matches(t, code, uri)
    && (forall c | 0 <= c < n :: Matches(t, c, uri) ==> |t[c]| <= |t[code]|)
    && (forall c | 0 <= c < code :: Matches(t, c, uri) ==> |t[c]| < |t[code]|)
  }

  /** The payload abbreviates the URI by the best prefix of the table. */
  predicate Abbreviates(t: seq<bytes>, uri: bytes, payload: bytes) {
    payload != [] && IsBest(t, uri, payload[0], |t|) && payload[1..] == uri[|t[payload[0]]|..]
  }

  /** The loop over the codes. */
  method BestCode(t: seq<bytes>, uri: bytes) returns (best: nat)
    requires IsTable(t)
    ensures IsBest(t, uri, best, |t|)
  {
    best := 0;
    var length: nat := 0;
    for code := 1 to |t|
      invariant best < code && IsBest(t, uri, best, code) && length == |t[best]|
    {
      if |t[code]| > length && t[code] <= uri {
        best, length := code, |t[code]|;
      }
    }
  }

  /** MakeURIRecordPayload: the longest matching prefix, abbreviated. */
  method MakeUri(uri: bytes) returns (payload: bytes)
    ensures Abbreviates(Table(), uri, payload)
  {
    var t := Table();
    var best := BestCode(t, uri);
    payload := [best] + uri[|t[best]|..];
  }

  /** A payload made this way gives back the URI, and no payload that gives it is shorter. */
  lemma UriRoundTrip(t: seq<bytes>, uri: bytes, payload: bytes)
    requires IsTable(t) && Abbreviates(t, uri, payload)
    ensures ParseUri(t, payload) == Some(uri)
    ensures forall p: bytes :: ParseUri(t, p) == Some(uri) ==> |payload| <= |p|
  {
    var best := t[payload[0]];
    assert best + uri[|best|..] == uri;
    forall p: bytes | ParseUri(t, p) == Some(uri)
      ensures |payload| <= |p|
    {
      if p[0] < |t| {
        assert Matches(t, p[0], uri);
      }
    }
  }

  // ---- Smart Poster ----

  const WELL_KNOWN: byte := 1

  /** The nested records: a title, when there is one, and the URI. */
  function PosterRecords(title: bytes, language: bytes, uri: bytes): (rs: seq<Record>)
    ensures rs != []
  {
    (if title == [] then [] else [Record(WELL_KNOWN, [0x54], [], MakeText(title, language))])
    + [Record(WELL_KNOWN, [0x55], [], uri)]
  }

  lemma PosterFits(title: bytes, language: bytes, uri: bytes)
    requires |title| + 64 < FOUR_BYTES && |uri| < FOUR_BYTES
    ensures AllFit(PosterRecords(title, language, uri))
  {}

  /** A Smart Poster's payload parses back to its records, which give the title and the URI,
      as long as four bytes hold the length of each. */
  lemma PosterRoundTrip(title: bytes, language: bytes, uri: bytes, payload: bytes)
    requires Abbreviates(Table(), uri, payload)
    requires |title| + 64 < FOUR_BYTES && |payload| < FOUR_BYTES
    ensures var rs := PosterRecords(title, language, payload);
            && Encode(rs).Some? && Parse(Encode(rs).value) == Some(rs)
            && ParseUri(Table(), rs[|rs| - 1].payload) == Some(uri)
            && (title != [] ==> ParseText(rs[0].payload) == Some(Utf8(title)))
  {
    PosterFits(title, language, payload);
    RoundTrip(PosterRecords(title, language, payload));
    TextRoundTrip(title, language);
    UriRoundTrip(Table(), uri, payload);
  }
}
