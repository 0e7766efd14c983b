/** Files of an NTAG 424 DNA: their settings, and the NDEF file read and written over the
    route those settings leave. */
module Ntag424Files {
  import opened Bytes
  import opened Type4Plan
  import opened Ntag424Card
  import opened Ntag424Keys
  import opened Ntag424Tag
  import opened Ntag424Session

  const FILE_NDEF: byte := 2

  // ---- settings ----

  /** selectApp: the session is forgotten, then the application selected. */
  method SelectApp(t: Tag) returns (r: Result<(), Error>)
    requires t.Careful()
    modifies t`session, t`ledger, t`slowest, t`score, t.card
    ensures t.session.None? && t.Careful() && Harmless(old(t.score), t.score) && t.score.sent == old(t.score).sent + 1
    ensures var a := t.card.answers(old(t.card.sent));
            r == if a.Good? then Ok(()) else Err(if a.Lost? then LostError(a) else Unverified)
  {
    t.session := None;
    var a := t.SendPlain(Command.SelectApp);
    if a.Lost? { return Err(LostError(a)); }
    return if a.Good? then Ok(()) else Err(Unverified);
  }

  /** What a read of a file's settings without a session comes to when it starts at the n-th
      exchange, and the exchange after it; none if it goes on in a session under key 0. */
  function Plainly(k: KeySet, answers: nat -> Answer, n: nat): Option<(Result<FileSettings, Error>, nat)> {
    if !answers(n).Good? then Some((Err(if answers(n).Lost? then LostError(answers(n)) else Unverified), n + 1))
    else match answers(n + 1)
         case Good(SettingsOf(fs)) => Some((Ok(fs), n + 2))
         case Good(_) => Some((Err(Unverified), n + 2))
         case Refused(x, y) => if y == 0xAE && Holds(k, 0) then None else Some((Err(Status(x, y)), n + 2))
         case a => Some((Err(ErrorOf(a)), n + 2))
  }

  /** The same inside an open session, which the card may have lost. */
  function Privately(k: KeySet, answers: nat -> Answer, n: nat): Option<(Result<FileSettings, Error>, nat)> {
    match answers(n)
    case Good(SettingsOf(fs)) => Some((Ok(fs), n + 1))
    case Good(_) => Some((Err(Unverified), n + 1))
    case Refused(x, y) => if IsLoss(x, y) then Plainly(k, answers, n + 1) else Some((Err(Status(x, y)), n + 1))
    case a => Some((Err(ErrorOf(a)), n + 1))
  }

  /** What getFileSettings comes to, by the card's answers, with a session open or not. */
  function Foretold(k: KeySet, open: bool, answers: nat -> Answer, n: nat): Option<(Result<FileSettings, Error>, nat)> {
    if open then Privately(k, answers, n) else Plainly(k, answers, n)
  }

  /** The settings read ended so, after the exchange so numbered, if that was foretold. */
  predicate CameTrue(told: Option<(Result<FileSettings, Error>, nat)>, r: Result<FileSettings, Error>, at: nat) {
    told.Some? ==> told.value == (r, at)
  }

  /** The plain read of a file's settings, after a select. */
  method PlainSettingsOf(t: Tag, file: byte) returns (r: Result<FileSettings, Error>)
    requires t.Careful()
    modifies t`session, t`ledger, t`slowest, t`score, t.card
    ensures t.session.None? && t.Careful()
    ensures if r.Ok? then Saw(old(t.score), t.score, file, SettingsOf(r.value)) else Harmless(old(t.score), t.score)
    ensures t.score.sent == old(t.score).sent + if t.card.answers(old(t.card.sent)).Good? then 2 else 1
    ensures r.Ok? ==> t.Heard(SettingsOf(r.value)) && t.card.history.last.command == PlainSettings(file)
    ensures CameTrue(Plainly(t.keys, t.card.answers, old(t.card.sent)), r, t.card.sent)
    ensures Plainly(t.keys, t.card.answers, old(t.card.sent)).None? <==> r.Err? && r.error.Status? && r.error.sw2 == 0xAE && Holds(t.keys, 0)
  {
    var s := SelectApp(t);
    if s.Err? { return Err(s.error); }
    ghost var m := t.score;
    var a := t.SendRead(PlainSettings(file));
    TallyPlain(m, Exchange(PlainSettings(file), a));
    if !a.Good? { return Err(ErrorOf(a)); }
    return if a.payload.SettingsOf? then Ok(a.payload.settings) else Err(Unverified);
  }

  /** The settings as the open session shows them; on failure the session is dropped. */
  method SettingsInSession(t: Tag, file: byte) returns (r: Result<FileSettings, Error>)
    requires t.Agreed() && t.Careful() && t.session.Some?
    modifies t`session, t`ledger, t`slowest, t`score, t.card
    ensures t.Agreed() && t.Careful() && t.score.sent == old(t.score).sent + 1
    ensures if r.Ok? then Saw(old(t.score), t.score, file, SettingsOf(r.value)) else Harmless(old(t.score), t.score)
    ensures if r.Ok? then t.session == old(t.session) && t.Heard(SettingsOf(r.value)) && t.Did(GetSettings(file)) else t.session.None?
    ensures LostSession(r) ==> t.score.losses > old(t.score).losses
    ensures var a := t.card.answers(old(t.card.sent));
            if LostSession(r) then a.Refused? && IsLoss(a.sw1, a.sw2)
            else Privately(t.keys, t.card.answers, old(t.card.sent)) == Some((r, t.card.sent))
  {
    var p := Ask(t, t.session.value, ReadSettings(file));
    if p.Ok? { return Ok(p.value.settings); }
    t.session := None;
    return Err(p.error);
  }

  /** getFileSettings: inside the open session, plainly, or under key 0. The card shows
      settings of the file exactly when it succeeds, and unless key 0 is needed its first
      answers say what the read comes to. */
  method GetFileSettings(t: Tag, file: byte) returns (r: Result<FileSettings, Error>)
    requires t.Agreed() && t.Careful()
    modifies t, t.card
    ensures t.Agreed() && t.Careful() && t.Steady()
    ensures if r.Ok? then Saw(old(t.score), t.score, file, SettingsOf(r.value)) else Harmless(old(t.score), t.score) && t.score.sent > old(t.score).sent
    ensures r.Ok? ==> t.Heard(SettingsOf(r.value)) && (t.Did(GetSettings(file)) || t.card.history.last.command == PlainSettings(file))
    ensures old(t.session).Some? && t.score.losses == old(t.score).losses ==>
              t.score.sent == old(t.score).sent + 1 && t.lrp == old(t.lrp) && t.realUid == old(t.realUid)
    ensures CameTrue(Foretold(t.keys, old(t.session).Some?, t.card.answers, old(t.card.sent)), r, t.card.sent)
    ensures old(t.session).None? ==> Afresh(t.session, t.score.sent - old(t.score).sent, t.card.answers(old(t.card.sent)), old(t.NeedsUid(0)))
    ensures old(t.session).None? && Plainly(t.keys, t.card.answers, old(t.card.sent)).Some? ==>
              t.session.None? && t.realUid == old(t.realUid) && t.lrp == old(t.lrp) && t.NoRefusal()
  {
    if t.session.Some? {
      r := SettingsInSession(t, file);
      if r.Ok? || !IsSessionLost(r.error) { return; }
    }
    r := SettingsAfresh(t, file);
  }

  /** What a settings read without a session sends: the select, the plain read once that
      succeeded, and if it leaves a session open the authentication as well. */
  predicate Afresh(session: Option<nat>, sent: int, select: Answer, needsUid: bool) {
    if select.Good? then sent >= 2 && (session.Some? && !needsUid ==> sent >= 6) else sent == 1
  }

  /** Without a session: plainly when the card allows it, and otherwise under key 0. */
  method SettingsAfresh(t: Tag, file: byte) returns (r: Result<FileSettings, Error>)
    requires t.Agreed() && t.Careful()
    modifies t, t.card
    ensures t.Agreed() && t.Careful() && t.Steady() && t.score.sent > old(t.score).sent
    ensures if r.Ok? then Saw(old(t.score), t.score, file, SettingsOf(r.value)) else Harmless(old(t.score), t.score)
    ensures r.Ok? ==> t.Heard(SettingsOf(r.value)) && (t.Did(GetSettings(file)) || t.card.history.last.command == PlainSettings(file))
    ensures Afresh(t.session, t.score.sent - old(t.score).sent, t.card.answers(old(t.card.sent)), old(t.NeedsUid(0)))
    ensures CameTrue(Plainly(t.keys, t.card.answers, old(t.card.sent)), r, t.card.sent)
    ensures Plainly(t.keys, t.card.answers, old(t.card.sent)).Some? ==>
              t.session.None? && t.realUid == old(t.realUid) && t.lrp == old(t.lrp) && t.NoRefusal()
  {
    r := PlainSettingsOf(t, file);
    if r.Ok? || !r.error.Status? || r.error.sw2 != 0xAE || !Holds(t.keys, 0) { return; }
    var p := WithSession(t, 0, ReadSettings(file));
    return if p.Ok? then Ok(p.value.settings) else Err(p.error);
  }

  // ---- the ISO path ----

  /** The score after one more update that was confirmed, sent without a note. */
  function Updated(s: Score, u: Update): Score {
    s.(sent := s.sent + 1, changes := s.changes + 1, accepted := s.accepted + [u])
  }

  /** The score after the first n updates of the plan, as they reach the card. */
  function Unnoted(s: Score, plan: seq<Update>, n: nat): Score
    requires n <= |plan|
    decreases n
  {
    if n == 0 then s else Updated(Unnoted(s, plan, n - 1), Wire(plan[n - 1]))
  }

  /** An ISO update changes the card, confirmed or not. */
  lemma TallyUpdate(s: Score, u: Update, a: Answer)
    ensures Tally(s, Exchange(Iso(UpdateBinary(u)), a)) == if a.Good? then Updated(s, u) else s.(sent := s.sent + 1, changes := s.changes + 1)
  {
    assert s.accepted + [] == s.accepted;
  }

  lemma {:induction false} UnnotedIs(s: Score, plan: seq<Update>, n: nat)
    requires n <= |plan|
    ensures Unnoted(s, plan, n) == s.(sent := s.sent + n, changes := s.changes + n, accepted := s.accepted + WireAll(plan)[..n])
    decreases n
  {
    var wired := WireAll(plan);
    if n == 0 {
      assert s.accepted + wired[..0] == s.accepted;
    } else {
      UnnotedIs(s, plan, n - 1);
      assert wired[..n] == wired[..n - 1] + [wired[n - 1]];
      assert (s.accepted + wired[..n - 1]) + [wired[n - 1]] == s.accepted + (wired[..n - 1] + [wired[n - 1]]);
    }
  }

  /** Some updates were sent, and nothing noted, lost or shown and no settings changed. */
  predicate OnlyUpdates(s: Score, t: Score) {
    && Grows(s, t) && t.noted == s.noted && t.settings == s.settings && t.applied == s.applied && t.latest == s.latest
    && t.losses == s.losses && t.told == s.told
  }

  /** At least one of at most n updates was sent, and the card did not confirm the last. */
  predicate BrokeOff(s: Score, t: Score, answers: nat -> Answer, n: nat) {
    OnlyUpdates(s, t) && t.changes > s.changes && s.sent < t.sent <= s.sent + n && !answers(t.sent - 1).Good?
  }

  /** The card answers the n exchanges from the given one on well. */
  predicate AllGood(answers: nat -> Answer, from: nat, n: nat) {
    forall i | from <= i < from + n :: answers(i).Good?
  }

  /** The card's next four answers open the NDEF file. */
  predicate Opens(answers: nat -> Answer, n: nat) {
    && answers(n).Good? && answers(n + 1).Good? && answers(n + 3).Good?
    && answers(n + 2).Good? && answers(n + 2).payload.ContainerOf?
  }

  /** An ISO write that starts at the n-th exchange gets as far as its first update. */
  predicate Sends(answers: nat -> Answer, n: nat, data: bytes) {
    Opens(answers, n) && Room(answers(n + 2).payload.fileSize, |data|)
  }

  /** The chunk it then uses. */
  function ChunkAt(answers: nat -> Answer, n: nat): (k: nat)
    requires Opens(answers, n)
    ensures k >= 1
  {
    ChunkLimit(answers(n + 2).payload.mlc)
  }

  /** It succeeds. */
  predicate Completes(answers: nat -> Answer, n: nat, data: bytes) {
    Sends(answers, n, data) && AllGood(answers, n + 4, |Plan(data, ChunkAt(answers, n))|)
  }

  /** selectNDEFFile: four exchanges, and what the Capability Container says. */
  method SelectNdef(t: Tag) returns (r: Result<Payload, Error>)
    requires t.session.None? && t.Careful()
    modifies t`ledger, t`slowest, t`score, t.card
    ensures t.Careful() && t.score == old(t.score).(sent := t.score.sent)
    ensures old(t.score).sent < t.score.sent <= old(t.score).sent + 4
    ensures r.Ok? <==> Opens(t.card.answers, old(t.card.sent))
    ensures r.Ok? ==> r.value == t.card.answers(old(t.card.sent) + 2).payload && t.score.sent == old(t.score).sent + 4
  {
    var a := t.SendPlain(Command.SelectApp);
    if !a.Good? { return Err(ErrorOf(a)); }
    a := t.SendPlain(Iso(SelectFile));
    if !a.Good? { return Err(ErrorOf(a)); }
    a := t.SendPlain(Iso(ReadContainer));
    if !a.Good? { return Err(ErrorOf(a)); }
    if !a.payload.ContainerOf? { return Err(Unverified); }
    var container := a.payload;
    a := t.SendPlain(Iso(SelectFile));
    return if a.Good? then Ok(container) else Err(ErrorOf(a));
  }

  /** The plan's next update, as it reaches the card. */
  method SendPiece(t: Tag, offset: nat, chunk: bytes, ghost s: Score, ghost plan: seq<Update>, ghost n: nat) returns (r: Result<(), Error>)
    requires t.session.None? && t.Careful()
    requires n < |plan| && plan[n] == Update(offset, chunk) && t.score == Unnoted(s, plan, n) && AllGood(t.card.answers, s.sent, n)
    modifies t`ledger, t`slowest, t`score, t.card
    ensures t.Careful()
    ensures if r.Ok? then t.score == Unnoted(s, plan, n + 1) && AllGood(t.card.answers, s.sent, n + 1)
            else BrokeOff(s, t.score, t.card.answers, n + 1)
  {
    ghost var m := t.score;
    var u := Wire(Update(offset, chunk));
    var a := t.Send(Iso(UpdateBinary(u)));
    TallyUpdate(m, u, a);
    UnnotedIs(s, plan, n);
    return if a.Good? then Ok(()) else Err(ErrorOf(a));
  }

  /** The chunk of the message at i. */
  method SendNextPiece(t: Tag, offset: nat, data: bytes, i: nat, k: nat, ghost s: Score, ghost plan: seq<Update>, ghost n: nat, ghost end: nat)
    returns (r: Result<(), Error>, size: nat)
    requires t.session.None? && t.Careful() && k >= 1 && i < |data| && offset == 2 + i
    requires Carries(plan, n, end, 2, data, i, k) && t.score == Unnoted(s, plan, n) && AllGood(t.card.answers, s.sent, n)
    modifies t`ledger, t`slowest, t`score, t.card
    ensures t.Careful() && t.session.None? && n < end <= |plan| && size == Min(k, |data| - i)
    ensures if r.Ok? then t.score == Unnoted(s, plan, n + 1) && AllGood(t.card.answers, s.sent, n + 1) && Carries(plan, n + 1, end, 2, data, i + k, k)
            else BrokeOff(s, t.score, t.card.answers, end)
  {
    var chunk := data[i..Min(i + k, |data|)];
    PieceNext(plan, n, end, 2, data, i, k);
    r := SendPiece(t, offset, chunk, s, plan, n);
    size := |chunk|;
  }

  /** The loop of the ISO write over the message's chunks, once so many updates are sent. */
  method IsoChunks(t: Tag, data: bytes, k: nat, ghost s: Score, ghost plan: seq<Update>, ghost from: nat, ghost end: nat) returns (r: Result<(), Error>)
    requires t.session.None? && t.Careful() && k >= 1
    requires Carries(plan, from, end, 2, data, 0, k) && from <= |plan| && t.score == Unnoted(s, plan, from) && AllGood(t.card.answers, s.sent, from)
    modifies t`ledger, t`slowest, t`score, t.card
    ensures t.Careful()
    ensures if r.Ok? then end <= |plan| && t.score == Unnoted(s, plan, end) && AllGood(t.card.answers, s.sent, end)
            else BrokeOff(s, t.score, t.card.answers, end)
  {
    ghost var n: nat := from;
    var offset: nat, i: nat := 2, 0;
    while i < |data|
      invariant t.Careful()
      invariant i < |data| ==> offset == 2 + i
      invariant Carries(plan, n, end, 2, data, i, k)
      invariant n <= |plan| && t.score == Unnoted(s, plan, n)
      invariant AllGood(t.card.answers, s.sent, n)
    {
      var size;
      r, size := SendNextPiece(t, offset, data, i, k, s, plan, n, end);
      if r.Err? { return; }
      n, offset, i := n + 1, offset + size, i + k;
    }
    r := Ok(());
  }

  /** The chunks and the length, once the length is cleared. */
  method IsoRest(t: Tag, data: bytes, k: nat, ghost s: Score, ghost plan: seq<Update>) returns (r: Result<(), Error>)
    requires t.session.None? && t.Careful() && k >= 1 && |plan| >= 2
    requires Carries(plan, 1, |plan| - 1, 2, data, 0, k) && plan[|plan| - 1] == Update(0, Be16(|data|))
    requires t.score == Unnoted(s, plan, 1) && AllGood(t.card.answers, s.sent, 1)
    modifies t`ledger, t`slowest, t`score, t.card
    ensures t.Careful()
    ensures if r.Ok? then t.score == Unnoted(s, plan, |plan|) && AllGood(t.card.answers, s.sent, |plan|)
            else BrokeOff(s, t.score, t.card.answers, |plan|)
  {
    r := IsoChunks(t, data, k, s, plan, 1, |plan| - 1);
    if r.Err? { return; }
    r := SendPiece(t, 0, Be16(|data|), s, plan, |plan| - 1);
  }

  /** The updates of the ISO write, in chunks of k: the whole plan, as it reaches the card,
      on success, and otherwise as far as the first update the card did not confirm. */
  method IsoUpdates(t: Tag, data: bytes, k: nat) returns (r: Result<(), Error>)
    requires t.session.None? && t.Careful() && k >= 1
    modifies t`ledger, t`slowest, t`score, t.card
    ensures t.Careful()
    ensures var plan := Plan(data, k);
            if r.Ok? then t.score == Unnoted(old(t.score), plan, |plan|) && AllGood(t.card.answers, old(t.score).sent, |plan|)
            else BrokeOff(old(t.score), t.score, t.card.answers, |plan|)
  {
    ghost var s, plan := t.score, Plan(data, k);
    PlanMiddle(data, k);
    r := SendPiece(t, 0, [0, 0], s, plan, 0);
    if r.Err? { return; }
    r := IsoRest(t, data, k, s, plan);
  }

  /** What an ISO write adds to the score: no note, no settings change, and on success the
      whole plan confirmed as it reaches the card, after `opening` other exchanges. */
  predicate IsoWritten(s: Score, t: Score, data: bytes, k: nat, ok: bool, opening: nat)
    requires k >= 1
  {
    && OnlyUpdates(s, t) && t.sent <= s.sent + opening + |Plan(data, k)|
    && (ok ==> t.sent == s.sent + opening + |Plan(data, k)| && EndsWith(t.accepted, WireAll(Plan(data, k))))
  }

  lemma EndsWithAppend<T>(a: seq<T>, b: seq<T>)
    ensures EndsWith(a + b, b)
  {}

  lemma UnnotedWhole(s: Score, plan: seq<Update>)
    ensures Unnoted(s, plan, |plan|) == s.(sent := s.sent + |plan|, changes := s.changes + |plan|, accepted := s.accepted + WireAll(plan))
  {
    UnnotedIs(s, plan, |plan|);
    assert WireAll(plan)[..|plan|] == WireAll(plan);
  }

  lemma WholeWritten(s: Score, t: Score, w: seq<Update>, n: nat)
    requires t == s.(sent := s.sent + n, changes := s.changes + n, accepted := s.accepted + w) && n > 0
    ensures OnlyUpdates(s, t) && t.changes > s.changes && t.sent == s.sent + n && EndsWith(t.accepted, w)
  {
    EndsWithAppend(s.accepted, w);
  }

  lemma OpenedFirst(s: Score, m: Score, t: Score, data: bytes, k: nat, ok: bool, n: nat)
    requires k >= 1 && m == s.(sent := s.sent + n) && IsoWritten(m, t, data, k, ok, 0)
    ensures IsoWritten(s, t, data, k, ok, n)
  {}

  /** The write of the selected file, in chunks of k. It sends at least the first update, and
      succeeds exactly when the card confirms them all. */
  method IsoWriteFile(t: Tag, data: bytes, k: nat) returns (r: Result<(), Error>)
    requires t.session.None? && t.Careful() && k >= 1
    modifies t`ledger, t`slowest, t`score, t.card
    ensures t.Careful() && IsoWritten(old(t.score), t.score, data, k, r.Ok?, 0) && t.score.changes > old(t.score).changes
    ensures r.Ok? <==> AllGood(t.card.answers, old(t.card.sent), |Plan(data, k)|)
  {
    ghost var s := t.score;
    r := IsoUpdates(t, data, k);
    if r.Ok? {
      UnnotedWhole(s, Plan(data, k));
      WholeWritten(s, t.score, WireAll(Plan(data, k)), |Plan(data, k)|);
    }
  }

  /** The Type 4 write, outside any session. It changes the card exactly when the card opens
      the file and it has room, succeeds exactly when every update is then confirmed, and uses
      the chunk the card's container names. */
  method IsoWrite(t: Tag, data: bytes) returns (r: Result<(), Error>, ghost k: nat)
    requires t.session.None? && t.Careful()
    modifies t`ledger, t`slowest, t`score, t.card
    ensures t.Careful() && k >= 1 && IsoWritten(old(t.score), t.score, data, k, r.Ok?, 4)
    ensures t.score.changes > old(t.score).changes <==> Sends(t.card.answers, old(t.card.sent), data)
    ensures r.Ok? <==> Completes(t.card.answers, old(t.card.sent), data)
    ensures Opens(t.card.answers, old(t.card.sent)) ==> k == ChunkAt(t.card.answers, old(t.card.sent))
  {
    k := 1;
    var c := SelectNdef(t);
    if c.Err? { return Err(c.error), k; }
    var chunk := ChunkLimit(c.value.mlc);
    k := chunk;
    if c.value.fileSize > 2 && |data| > c.value.fileSize - 2 { return Err(TooLong), k; }
    ghost var m := t.score;
    r := IsoWriteFile(t, data, chunk);
    OpenedFirst(old(t.score), m, t.score, data, chunk, r.Ok?, 4);
  }

  /** One read outside any session. */
  method IsoReadChunk(t: Tag, offset: nat, want: nat, ghost start: nat) returns (r: Result<bytes, Error>)
    requires t.session.None? && t.Careful() && start <= t.card.sent
    modifies t`ledger, t`slowest, t`score, t.card
    ensures t.Careful() && Harmless(old(t.score), t.score) && t.card.sent > old(t.card.sent)
    ensures r.Ok? && t.Shown(start) ==> |r.value| <= want && ReadFrom(t.file, OnWire(offset), r.value) && old(t.Shown(start))
  {
    BookLength(t.card.history, t.card.took, t.eraStart);
    ghost var m := t.score;
    var a := t.SendRead(Iso(ReadBinary(OnWire(offset), want)));
    TallyPlain(m, Exchange(Iso(ReadBinary(OnWire(offset), want)), a));
    if !a.Good? { return Err(ErrorOf(a)); }
    return if a.payload.DataOf? then Ok(a.payload.data) else Err(Unverified);
  }

  /** What the loop has gathered of an nlen-byte message, if the card's reads show the file. */
  predicate Gathered(file: bytes, nlen: nat, out: bytes, shown: bool) {
    shown ==> |out| <= nlen && (2 + nlen <= OFFSETS && out != [] ==> ReadFrom(file, 2, out))
  }

  lemma GatheredMore(file: bytes, nlen: nat, out: bytes, got: bytes, before: bool, after: bool)
    requires |out| < nlen && Gathered(file, nlen, out, before) && (after ==> before)
    requires after ==> |got| <= nlen - |out| && ReadFrom(file, OnWire(2 + |out|), got)
    ensures Gathered(file, nlen, out + got, after)
  {
    if after && 2 + nlen <= OFFSETS {
      if out == [] {
        assert out + got == got;
      } else {
        ReadOn(file, 2, out, got);
      }
    }
  }

  /** The loop of the Type 4 read. */
  method IsoReadChunks(t: Tag, nlen: nat, chunk: nat, ghost start: nat) returns (r: Result<bytes, Error>)
    requires t.session.None? && t.Careful() && start <= t.card.sent && nlen > 0
    modifies t`ledger, t`slowest, t`score, t.card
    ensures t.Careful() && Harmless(old(t.score), t.score)
    ensures r.Ok? ==> r.value != [] && |r.value| >= nlen && Gathered(t.file, nlen, r.value, t.Shown(start)) && (t.Shown(start) ==> old(t.Shown(start)))
  {
    var out: bytes, offset, remaining := [], 2, nlen;
    while remaining > 0
      invariant t.Careful() && Harmless(old(t.score), t.score) && t.session.None? && start <= t.card.sent
      invariant offset == 2 + |out| && remaining == nlen - |out|
      invariant Gathered(t.file, nlen, out, t.Shown(start)) && (t.Shown(start) ==> old(t.Shown(start)))
      decreases remaining
    {
      ghost var before := t.Shown(start);
      var a := IsoReadChunk(t, offset, Min(remaining, chunk), start);
      if a.Err? { return Err(a.error); }
      if a.value == [] { return Err(Unverified); }
      GatheredMore(t.file, nlen, out, a.value, before, t.Shown(start));
      out := out + a.value;
      offset := offset + |a.value|;
      remaining := remaining - |a.value|;
    }
    return Ok(out);
  }

  lemma HeadIs(file: bytes, head: bytes)
    requires |head| == 2 && ReadFrom(file, 0, head)
    ensures |file| >= 2 && FromBe16(file) == FromBe16(head)
  {}

  /** The message is what the file stores, for files an offset of fifteen bits reaches. */
  ghost predicate MessageShown(t: Tag, n: nat, data: bytes)
    reads t, t.card
  {
    t.Shown(n) && 2 + |data| <= OFFSETS ==> Decode(t.file) == Message(data)
  }

  /** The Type 4 read, outside any session. */
  method IsoRead(t: Tag) returns (r: Result<bytes, Error>)
    requires t.session.None? && t.Careful()
    modifies t`ledger, t`slowest, t`score, t.card
    ensures t.Careful() && Harmless(old(t.score), t.score)
    ensures r.Ok? ==> r.value != [] && MessageShown(t, old(t.card.sent), r.value)
  {
    ghost var start := t.card.sent;
    var c := SelectNdef(t);
    if c.Err? { return Err(c.error); }
    var head := IsoReadChunk(t, 0, 2, start);
    if head.Err? { return Err(head.error); }
    if |head.value| < 2 { return Err(Unverified); }
    var nlen := FromBe16(head.value);
    if nlen == 0 { return Err(NoPayload); }
    if c.value.fileSize > 2 && nlen > c.value.fileSize - 2 { return Err(Unverified); }
    r := IsoReadChunks(t, nlen, ChunkLimit(c.value.mle), start);
    if r.Ok? && t.Shown(start) { HeadIs(t.file, head.value); }
  }

  // ---- the NDEF file ----

  lemma ShownLater(t: Tag, n: nat, m: nat)
    requires n <= m
    ensures t.Shown(n) ==> t.Shown(m)
  {
    if t.Shown(n) {
      TruthfulLater(t.card.history, n, m, t.file);
    }
  }

  /** ReadData. From a card whose reads show one file, it returns the message of that file. */
  method ReadData(t: Tag) returns (r: Result<bytes, Error>)
    requires t.Agreed() && t.Careful()
    modifies t, t.card
    ensures t.Agreed() && t.Careful() && t.Steady() && Looks(old(t.score), t.score)
    ensures r.Ok? ==> MessageShown(t, old(t.card.sent), r.value)
  {
    var fs := GetFileSettings(t, FILE_NDEF);
    if fs.Err? && IsRemoved(fs.error) { return Err(fs.error); }
    if fs.Err? && SettingsDenied(fs.error) { return Err(NoPayload); }
    var route := if fs.Ok? then RouteFor(t.keys, fs.value, false) else Some(IsoPath);
    if route.None? { return Err(NoPayload); }
    ghost var m := t.card.sent;
    r := ReadByRoute(t, route.value, if fs.Ok? then fs.value.size else 0);
    ShownLater(t, old(t.card.sent), m);
  }

  /** The read over this route. */
  method ReadByRoute(t: Tag, route: Route, size: nat) returns (r: Result<bytes, Error>)
    requires t.Agreed() && t.Careful()
    modifies t, t.card
    ensures t.Agreed() && t.Careful() && t.Steady() && Harmless(old(t.score), t.score)
    ensures r.Ok? ==> MessageShown(t, old(t.card.sent), r.value)
  {
    if route.IsoPath? {
      t.session := None;
      r := IsoRead(t);
      return;
    }
    var p := WithSession(t, route.keyNo, ReadNdef(route.mode, size));
    if p.Err? { return Err(p.error); }
    return if p.value.Blank? then Err(NoPayload) else Ok(p.value.data);
  }

  /** IsWritable: whether the settings leave a write route, or, when they cannot be read,
      whether the Capability Container opens the file for writing. The ghost results are what
      the settings read came to and the exchange after it. */
  method IsWritable(t: Tag) returns (r: Result<bool, Error>, ghost fs: Result<FileSettings, Error>, ghost at: nat)
    requires t.Agreed() && t.Careful()
    modifies t, t.card
    ensures t.Agreed() && t.Careful() && t.Steady() && Looks(old(t.score), t.score) && at > old(t.score).sent
    ensures CameTrue(Foretold(t.keys, old(t.session).Some?, t.card.answers, old(t.card.sent)), fs, at)
    ensures fs.Ok? ==> (at - 1, FILE_NDEF, fs.value) in t.score.told
    ensures r == if fs.Ok? then Ok(RouteFor(t.keys, fs.value, true).Some?)
                 else if IsRemoved(fs.error) then Err(fs.error)
                 else Ok(!SettingsDenied(fs.error) && OpenToWrite(t.card.answers, at))
  {
    var settings := GetFileSettings(t, FILE_NDEF);
    fs, at := settings, t.card.sent;
    if settings.Ok? { return Ok(RouteFor(t.keys, settings.value, true).Some?), fs, at; }
    if IsRemoved(settings.error) { return Err(settings.error), fs, at; }
    if SettingsDenied(settings.error) { return Ok(false), fs, at; }
    t.session := None;
    var open := IsoWritable(t);
    r := Ok(open);
  }

  /** The card's next three answers show a container whose file anyone may write. */
  predicate OpenToWrite(answers: nat -> Answer, n: nat) {
    && answers(n).Good? && answers(n + 1).Good?
    && answers(n + 2).Good? && answers(n + 2).payload.ContainerOf? && answers(n + 2).payload.writable
  }

  /** The Type 4 answer to the same question. */
  method IsoWritable(t: Tag) returns (open: bool)
    requires t.session.None? && t.Careful()
    modifies t`ledger, t`slowest, t`score, t.card
    ensures t.Careful() && Harmless(old(t.score), t.score)
    ensures open <==> OpenToWrite(t.card.answers, old(t.card.sent))
  {
    var a := t.SendPlain(Command.SelectApp);
    if !a.Good? { return false; }
    a := t.SendPlain(Iso(SelectFile));
    if !a.Good? { return false; }
    a := t.SendPlain(Iso(ReadContainer));
    return a.Good? && a.payload.ContainerOf? && a.payload.writable;
  }

  /** How a write reached the card, if it did. */
  datatype Path = NoPath | Fallback | OverIso | InSession(mode: CommMode)

  /** The settings could not be read, and not because the card left or hides them. */
  predicate Unreadable(fs: Result<FileSettings, Error>) {
    fs.Err? && !IsRemoved(fs.error) && !SettingsDenied(fs.error)
  }

  /** The path of a write is the one the outcome of the settings read leaves. */
  predicate Routed(k: KeySet, fs: Result<FileSettings, Error>, data: bytes, path: Path) {
    && (path.Fallback? <==> Unreadable(fs))
    && (path.OverIso? ==> fs.Ok? && Room(fs.value.size, |data|) && RouteFor(k, fs.value, true) == Some(IsoPath))
    && (path.InSession? ==>
          && fs.Ok? && Room(fs.value.size, |data|) && RouteFor(k, fs.value, true).Some?
          && RouteFor(k, fs.value, true).value.Native? && RouteFor(k, fs.value, true).value.mode == path.mode)
  }

  /** What a write leaves, by the path it took. */
  predicate WriteLeft(s: Score, t: Score, path: Path, data: bytes, k: nat, ok: bool)
    requires k >= 1
  {
    && Grows(s, t) && t.settings == s.settings && t.applied == s.applied && t.latest == s.latest
    && match path
       case NoPath => !ok && Looks(s, t)
       case Fallback => t.noted == s.noted && (ok ==> EndsWith(t.accepted, WireAll(Plan(data, k))))
       case OverIso => t.noted == s.noted + 1 && (ok ==> EndsWith(t.accepted, WireAll(Plan(data, k))))
       case InSession(_) =>
         && t.changes - s.changes == t.noted - s.noted
         && (ok ==> t.noted > s.noted && EndsWith(t.accepted, Plan(data, k)))
  }

  /** On the ISO path, by the card's answers from the n-th exchange on: whether anything that
      changes the card was sent, whether the write succeeded, and its chunk. */
  predicate IsoOutcome(s: Score, t: Score, answers: nat -> Answer, n: nat, data: bytes, k: nat, ok: bool) {
    && (t.changes > s.changes <==> Sends(answers, n, data))
    && (ok <==> Completes(answers, n, data))
    && (Opens(answers, n) ==> k == ChunkAt(answers, n))
  }

  /** What Require asks for before a native write. */
  function NativeExchanges(t: Tag, keyNo: byte, mode: CommMode, data: bytes): nat
    reads t
  {
    AuthExchanges(t, keyNo) + 2 + WriteChunkCount(|data|, mode)
  }

  lemma TimesMonotone(a: nat, b: nat, c: nat)
    requires a <= b
    ensures a * c <= b * c
  {
    assert b * c == a * c + (b - a) * c;
  }

  lemma OnTime(took: nat -> nat, i: nat, j: nat, n: nat, per: nat)
    requires i <= j <= i + n && forall k | i <= k < j :: took(k) <= per
    ensures Elapsed(took, 0, j) <= Elapsed(took, 0, i) + n * per
  {
    ElapsedSplit(took, 0, i, j);
    ElapsedBound(took, i, j, per);
    TimesMonotone(j - i, n, per);
  }

  /** Exchanges from the i-th to the j-th that were asked for in advance, as n of them, end by
      the deadline if there are no more and none takes longer than the estimate. */
  lemma InTime(took: nat -> nat, i: nat, j: nat, n: nat, per: nat, deadline: int)
    requires i <= j && n * per <= deadline - Elapsed(took, 0, i)
    ensures j <= i + n && (forall k | i <= k < j :: took(k) <= per) ==> Elapsed(took, 0, j) <= deadline
  {
    if j <= i + n && forall k | i <= k < j :: took(k) <= per {
      OnTime(took, i, j, n, per);
    }
  }

  /** The native write: asked for in advance, then sent. With no session lost, no LRP
      discovered and no UID to resolve, it sends no more than it asked for, exactly that
      much when it succeeds, and so ends by the deadline if no exchange takes longer than
      the estimate. */
  method WriteNative(t: Tag, keyNo: byte, mode: CommMode, data: bytes) returns (r: Result<(), Error>)
    requires t.Agreed() && t.Careful()
    modifies t, t.card
    ensures t.Agreed() && t.Careful() && t.Steady()
    ensures var n := old(NativeExchanges(t, keyNo, mode, data));
            var s := old(t.score);
            if old(Affords(t.budget, t.slowest, t.card.now, NativeExchanges(t, keyNo, mode, data))) then
              && WriteLeft(s, t.score, InSession(mode), data, MaxWriteChunk(mode), r.Ok?)
              && (!old(t.NeedsUid(keyNo)) && t.lrp == old(t.lrp) && t.score.losses == s.losses ==>
                    && t.score.sent <= s.sent + n && (r.Ok? ==> t.score.sent == s.sent + n)
                    && (t.budget.Some? && (forall i | s.sent <= i < t.score.sent :: t.card.took(i) <= old(PerExchange(t.budget.value, t.slowest))) ==>
                          t.card.now <= t.budget.value.deadline))
            else r == Err(Deadline) && t.Untouched()
  {
    var n := NativeExchanges(t, keyNo, mode, data);
    if !Affords(t.budget, t.slowest, t.card.now, n) { return Err(Deadline); }
    ghost var was, i := t.slowest, t.card.sent;
    BookMeans(t.card.history, t.card.took, t.eraStart);
    var p := WithSession(t, keyNo, WriteNdef(mode, data));
    BookMeans(t.card.history, t.card.took, t.eraStart);
    if t.budget.Some? { InTime(t.card.took, i, t.card.sent, n, PerExchange(t.budget.value, was), t.budget.value.deadline); }
    return if p.Ok? then Ok(()) else Err(p.error);
  }

  // ---- the ISO route ----

  /** What Require asks for before an ISO write: the opening, the clear and the length, and
      the message in the full mode's chunks. */
  function IsoExchanges(n: nat): nat { 4 + 2 + WriteChunkCount(n, Full) }

  lemma CountMonotone(n: nat, k: nat, c: nat)
    requires 1 <= c <= k
    ensures ChunkCount(n, k) <= ChunkCount(n, c)
  {
    var q, p := ChunkCount(n, c), ChunkCount(n, k);
    assert n <= q * c && p * k <= n + k - 1;
    TimesMonotone(c, k, q);
    if p > q {
      TimesMonotone(q + 1, p, k);
    }
  }

  /** What an ISO write sends when it succeeds, in the chunk of a card with this MLc, is
      within what is asked for, for every message, exactly when MLc names no chunk smaller
      than the full mode's. */
  lemma IsoEstimateCovers(mlc: nat)
    ensures (forall data: bytes :: 4 + |Plan(data, ChunkLimit(mlc))| <= IsoExchanges(|data|)) <==> mlc == 0 || mlc >= 239
  {
    var k := ChunkLimit(mlc);
    if k >= 239 {
      forall data: bytes ensures 4 + |Plan(data, k)| <= IsoExchanges(|data|) {
        PlanLength(data, k);
        CountMonotone(|data|, k, 239);
      }
    } else {
      var data := Zeros(239);
      PlanLength(data, k);
      CountMonotone(239, 238, k);
      assert ChunkCount(239, 238) == 2 && WriteChunkCount(239, Full) == 1;
    }
  }

  /** The ISO write itself, noted before its first select. */
  method WriteIsoNoted(t: Tag, data: bytes) returns (r: Result<(), Error>, ghost k: nat)
    requires t.Careful()
    modifies t`session, t`ledger, t`slowest, t`score, t`writesSent, t.card
    ensures t.session.None? && t.Careful() && k >= 1
    ensures WriteLeft(old(t.score), t.score, OverIso, data, k, r.Ok?)
    ensures IsoOutcome(old(t.score), t.score, t.card.answers, old(t.card.sent), data, k, r.Ok?)
    ensures t.score.told == old(t.score).told && t.score.sent <= old(t.score).sent + 4 + |Plan(data, k)|
    ensures r.Ok? ==> t.score.sent == old(t.score).sent + 4 + |Plan(data, k)|
  {
    t.session := None;
    t.Note();
    r, k := IsoWrite(t, data);
  }

  /** The same, asked for in advance. It sends what the card's chunk makes of the message, and
      so ends by the deadline if that is within what was asked for and no exchange takes longer
      than the estimate. */
  method WriteIso(t: Tag, data: bytes) returns (r: Result<(), Error>, ghost k: nat)
    requires t.Agreed() && t.Careful()
    modifies t`session, t`ledger, t`slowest, t`score, t`writesSent, t.card
    ensures t.Agreed() && t.Careful() && k >= 1
    ensures !old(Affords(t.budget, t.slowest, t.card.now, IsoExchanges(|data|))) ==> r == Err(Deadline) && t.Untouched()
    ensures old(Affords(t.budget, t.slowest, t.card.now, IsoExchanges(|data|))) ==>
              && WriteLeft(old(t.score), t.score, OverIso, data, k, r.Ok?)
              && IsoOutcome(old(t.score), t.score, t.card.answers, old(t.card.sent), data, k, r.Ok?) && t.score.told == old(t.score).told
              && t.score.sent <= old(t.score).sent + 4 + |Plan(data, k)| && (r.Ok? ==> t.score.sent == old(t.score).sent + 4 + |Plan(data, k)|)
    ensures old(Affords(t.budget, t.slowest, t.card.now, IsoExchanges(|data|))) && t.budget.Some?
            && t.card.sent <= old(t.card.sent) + IsoExchanges(|data|)
            && (forall i | old(t.card.sent) <= i < t.card.sent :: t.card.took(i) <= old(PerExchange(t.budget.value, t.slowest))) ==>
              t.card.now <= t.budget.value.deadline
  {
    k := 1;
    var n := IsoExchanges(|data|);
    if !Affords(t.budget, t.slowest, t.card.now, n) { return Err(Deadline), k; }
    ghost var was, i := t.slowest, t.card.sent;
    BookMeans(t.card.history, t.card.took, t.eraStart);
    r, k := WriteIsoNoted(t, data);
    BookMeans(t.card.history, t.card.took, t.eraStart);
    if t.budget.Some? { InTime(t.card.took, i, t.card.sent, n, PerExchange(t.budget.value, was), t.budget.value.deadline); }
  }

  // ---- WriteData ----

  /** The write once the settings are known. */
  method WriteByRoute(t: Tag, fs: FileSettings, data: bytes) returns (r: Result<(), Error>, ghost path: Path, ghost k: nat)
    requires t.Agreed() && t.Careful()
    modifies t, t.card
    ensures t.Agreed() && t.Careful() && t.Steady() && Routed(t.keys, Ok(fs), data, path)
    ensures k >= 1 && WriteLeft(old(t.score), t.score, path, data, k, r.Ok?)
    ensures path.OverIso? ==> IsoOutcome(old(t.score), t.score, t.card.answers, old(t.card.sent), data, k, r.Ok?)
    ensures Room(fs.size, |data|) && RouteFor(t.keys, fs, true) == Some(IsoPath) ==>
              path.OverIso? || (r == Err(Deadline) && !old(Affords(t.budget, t.slowest, t.card.now, IsoExchanges(|data|))))
  {
    path, k := NoPath, 1;
    if fs.size > 2 && |data| > fs.size - 2 { return Err(TooLong), path, k; }
    var route := RouteFor(t.keys, fs, true);
    if route.None? { return Err(ReadOnly(Invalid)), path, k; }
    if route.value.IsoPath? {
      if Affords(t.budget, t.slowest, t.card.now, IsoExchanges(|data|)) { path := OverIso; }
      r, k := WriteIso(t, data);
      return;
    }
    var keyNo, mode := route.value.keyNo, route.value.mode;
    if Affords(t.budget, t.slowest, t.card.now, NativeExchanges(t, keyNo, mode, data)) {
      path, k := InSession(mode), MaxWriteChunk(mode);
    }
    r := WriteNative(t, keyNo, mode, data);
  }

  /** The write when the settings could not be read: over the ISO path, without a note and
      without asking for time. */
  method WriteAnyway(t: Tag, data: bytes) returns (r: Result<(), Error>, ghost k: nat)
    requires t.Careful()
    modifies t`session, t`ledger, t`slowest, t`score, t.card
    ensures t.session.None? && t.Careful() && k >= 1 && WriteLeft(old(t.score), t.score, Fallback, data, k, r.Ok?)
    ensures IsoOutcome(old(t.score), t.score, t.card.answers, old(t.card.sent), data, k, r.Ok?) && t.score.told == old(t.score).told
  {
    t.session := None;
    r, k := IsoWrite(t, data);
  }

  /** The write after the settings read ended so. Its path is the one that outcome leaves, and
      on the ISO path the card's answers say what was sent. */
  method WriteAfter(t: Tag, fs: Result<FileSettings, Error>, data: bytes) returns (r: Result<(), Error>, ghost path: Path, ghost k: nat)
    requires t.Agreed() && t.Careful()
    modifies t, t.card
    ensures t.Agreed() && t.Careful() && t.Steady() && Routed(t.keys, fs, data, path)
    ensures k >= 1 && WriteLeft(old(t.score), t.score, path, data, k, r.Ok?)
    ensures path.Fallback? || path.OverIso? ==> IsoOutcome(old(t.score), t.score, t.card.answers, old(t.card.sent), data, k, r.Ok?)
    ensures fs.Err? ==> t.score.told == old(t.score).told
    ensures fs.Ok? && Room(fs.value.size, |data|) && RouteFor(t.keys, fs.value, true) == Some(IsoPath) && t.budget.None? ==> path.OverIso?
  {
    path, k := NoPath, 1;
    if fs.Ok? {
      r, path, k := WriteByRoute(t, fs.value, data);
      return;
    }
    if IsRemoved(fs.error) { return Err(fs.error), path, k; }
    if SettingsDenied(fs.error) { return Err(ReadOnly(fs.error)), path, k; }
    path := Fallback;
    r, k := WriteAnyway(t, data);
  }

  /** How a write went: what the settings read came to, the path, the exchange the write
      itself started with, and its chunk. */
  datatype Course = Course(fs: Result<FileSettings, Error>, path: Path, at: nat, k: nat)

  /** The course of a write that took the card from score s, the n-th exchange, to score t.
      The settings are those the card showed meanwhile, or it showed none. */
  ghost predicate Went(k: KeySet, s: Score, t: Score, answers: nat -> Answer, data: bytes, c: Course, ok: bool) {
    && s.sent < c.at <= t.sent && c.k >= 1 && Routed(k, c.fs, data, c.path)
    && (if c.fs.Ok? then (c.at - 1, FILE_NDEF, c.fs.value) in t.told else t.told == s.told)
    && WriteLeft(s, t, c.path, data, c.k, ok)
    && (c.path.Fallback? || c.path.OverIso? ==> IsoOutcome(s, t, answers, c.at, data, c.k, ok))
  }

  /** The settings read, and then the write. */
  lemma WentAfter(keys: KeySet, s: Score, m: Score, t: Score, answers: nat -> Answer, data: bytes, c: Course, ok: bool)
    requires c.at == m.sent > s.sent && c.k >= 1 && Routed(keys, c.fs, data, c.path)
    requires if c.fs.Ok? then Saw(s, m, FILE_NDEF, SettingsOf(c.fs.value)) else Harmless(s, m)
    requires WriteLeft(m, t, c.path, data, c.k, ok) && (c.fs.Err? ==> t.told == m.told)
    requires c.path.Fallback? || c.path.OverIso? ==> IsoOutcome(m, t, answers, c.at, data, c.k, ok)
    ensures Went(keys, s, t, answers, data, c, ok)
  {}

  /** WriteData: the settings read, and the write its outcome leaves. */
  method WriteData(t: Tag, data: bytes) returns (r: Result<(), Error>, ghost c: Course)
    requires t.Agreed() && t.Careful()
    modifies t, t.card
    ensures t.Agreed() && t.Careful() && t.Steady()
    ensures Went(t.keys, old(t.score), t.score, t.card.answers, data, c, r.Ok?)
    ensures CameTrue(Foretold(t.keys, old(t.session).Some?, t.card.answers, old(t.card.sent)), c.fs, c.at)
    ensures c.fs.Ok? && Room(c.fs.value.size, |data|) && RouteFor(t.keys, c.fs.value, true) == Some(IsoPath) && t.budget.None? ==> c.path.OverIso?
  {
    var fs := GetFileSettings(t, FILE_NDEF);
    ghost var m, path, k := t.score, NoPath, 1;
    ghost var at := t.card.sent;
    r, path, k := WriteAfter(t, fs, data);
    c := Course(fs, path, at, k);
    WentAfter(t.keys, old(t.score), m, t.score, t.card.answers, data, c, r.Ok?);
  }
}
