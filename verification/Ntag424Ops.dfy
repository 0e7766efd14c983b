/** The NTAG 424 DNA's own operations, and what a failed SDM configuration says it left
    on the card. */
module Ntag424Ops {
  import opened Bytes
  import opened Type4Plan
  import opened Ntag424Card
  import opened Ntag424Keys
  import opened Ntag424Tag
  import opened Ntag424Session
  import opened Ntag424Files

  /** SetNTAG424Keys: equal keys change nothing, so they do not reset what is remembered
      of refusals; different ones start afresh. */
  method SetKeys(t: Tag, keys: KeySet)
    requires t.Agreed() && t.Careful()
    modifies t`keys, t`session, t`failedAuth, t`delayed, t`resolved, t`ledger, t`eraStart
    ensures t.Agreed() && t.Careful() && t.keys == keys
    ensures old(t.keys) == keys ==> t.Untouched() && t.eraStart == old(t.eraStart)
    ensures old(t.keys) != keys ==> t.session.None? && t.failedAuth == map[] && !t.delayed && t.resolved.None? && t.eraStart == t.card.sent
  {
    if t.keys == keys { return; }
    t.keys := keys;
    t.session := None;
    t.failedAuth, t.delayed, t.resolved := map[], false, None;
    ghost var before := t.ledger;
    BookLength(t.card.history, t.card.took, t.eraStart);
    BookRestart(t.card.history, t.card.took, t.eraStart);
    t.eraStart := t.card.sent;
    t.ledger := before.(careful := true, asked := false, refused := {});
  }

  /** Transceive: a client's own APDU, before which the session is dropped. */
  method Transceive(t: Tag) returns (a: Answer)
    requires t.Agreed() && t.Careful()
    modifies t`session, t`ledger, t`slowest, t`score, t.card
    ensures t.session.None? && t.Careful() && Harmless(old(t.score), t.score)
  {
    t.session := None;
    a := t.SendPlain(Raw);
  }

  /** ChangeFileSettings adds only noted settings changes, at least one when it succeeds,
      and the card confirmed exactly then that the file has these settings. */
  predicate SettingsLeft(s: Score, t: Score, file: byte, settings: FileSettings, ok: bool) {
    && Grows(s, t) && t.accepted == s.accepted
    && t.changes - s.changes == t.noted - s.noted == t.settings - s.settings
    && t.applied == s.applied + Bit(ok) && (ok ==> t.settings > s.settings)
    && t.latest == (if ok then Some((file, settings)) else s.latest)
  }

  /** What Require asks for before a change of settings: one read, an authentication and the
      change. */
  const SETTINGS_EXCHANGES: nat := 1 + 3 + 1

  /** ChangeFileSettings, of settings that encode or not. A success with nothing lost,
      discovered or to resolve is within what was asked for exactly when a session was open or
      the card did not select the application for the settings read. */
  method ChangeFileSettings(t: Tag, file: byte, settings: FileSettings, encodes: bool) returns (r: Result<(), Error>)
    requires t.Agreed() && t.Careful()
    modifies t, t.card
    ensures t.Agreed() && t.Careful() && t.Steady() && SettingsLeft(old(t.score), t.score, file, settings, r.Ok?)
    ensures r.Ok? && t.score.losses == old(t.score).losses && t.lrp == old(t.lrp) && !old(t.MayNeedUid()) ==>
              (t.score.sent <= old(t.score).sent + SETTINGS_EXCHANGES <==> old(t.session).Some? || !t.card.answers(old(t.card.sent)).Good?)
    ensures encodes && old(t.session).None? && old(Affords(t.budget, t.slowest, t.card.now, SETTINGS_EXCHANGES)) && Obliging(t.card.answers)
            && t.card.answers(old(t.card.sent) + 1).payload.SettingsOf?
            && (var key := ChangeKeyFor(t.keys, t.card.answers(old(t.card.sent) + 1).payload.settings); key.Some? && old(t.Ready(key.value))) ==>
              r.Ok? && t.score.sent == old(t.score).sent + 6
  {
    if !encodes { return Err(Invalid); }
    if !Affords(t.budget, t.slowest, t.card.now, SETTINGS_EXCHANGES) { return Err(Deadline); }
    var fs := GetFileSettings(t, file);
    r := ChangeAfter(t, fs, file, settings);
  }

  /** The change after the settings read ended so: under the key those settings name, or key
      0 when they could not be read. */
  method ChangeAfter(t: Tag, fs: Result<FileSettings, Error>, file: byte, settings: FileSettings) returns (r: Result<(), Error>)
    requires t.Agreed() && t.Careful()
    modifies t, t.card
    ensures t.Agreed() && t.Careful() && t.Steady() && SettingsLeft(old(t.score), t.score, file, settings, r.Ok?)
    ensures r.Ok? ==> t.score.sent >= old(t.score).sent + if old(t.session).None? then 4 else 1
    ensures r.Ok? && t.score.losses == old(t.score).losses && t.lrp == old(t.lrp) && !old(t.MayNeedUid()) ==>
              t.score.sent <= old(t.score).sent + 4
    ensures Obliging(t.card.answers) && fs.Ok? && (var key := ChangeKeyFor(t.keys, fs.value); key.Some? && old(t.Ready(key.value))) ==>
              r.Ok? && t.score.sent <= old(t.score).sent + 4
  {
    var keyNo: byte := 0;
    if fs.Ok? {
      var key := ChangeKeyFor(t.keys, fs.value);
      if key.None? { return Err(Auth(NoKeyFor(file))); }
      keyNo := key.value;
    } else if IsRemoved(fs.error) {
      return Err(fs.error);
    }
    var p := WithSession(t, keyNo, PutSettings(file, settings));
    return if p.Ok? then Ok(()) else Err(p.error);
  }

  /** A settings read, and then a change. */
  lemma LeftAfter(s: Score, m: Score, t: Score, file: byte, fs: FileSettings, settings: FileSettings, ok: bool)
    requires Saw(s, m, file, SettingsOf(fs)) && SettingsLeft(m, t, file, settings, ok)
    ensures SettingsLeft(s, t, file, settings, ok) && ToldSince(t, s.sent, file, fs)
  {
    assert (m.sent - 1, file, fs) in t.told;
  }

  /** MakeReadOnly: the card is asked for the rights it showed, rewritten so that nothing may
      write the NDEF file. */
  method MakeReadOnly(t: Tag) returns (r: Result<(), Error>, ghost was: Option<FileSettings>)
    requires t.Agreed() && t.Careful()
    modifies t, t.card
    ensures t.Agreed() && t.Careful() && t.Steady()
    ensures if was.None? then r.Err? && Looks(old(t.score), t.score)
            else SettingsLeft(old(t.score), t.score, FILE_NDEF, Locked(was.value), r.Ok?)
                 && ToldSince(t.score, old(t.score).sent, FILE_NDEF, was.value)
  {
    var fs := GetFileSettings(t, FILE_NDEF);
    if fs.Err? { return Err(if IsRemoved(fs.error) then fs.error else NotSupported), None; }
    if ChangeKeyFor(t.keys, fs.value).None? { return Err(NotSupported), None; }
    ghost var m := t.score;
    r := ChangeFileSettings(t, FILE_NDEF, Locked(fs.value), true);
    LeftAfter(old(t.score), m, t.score, FILE_NDEF, fs.value, Locked(fs.value), r.Ok?);
    was := Some(fs.value);
  }

  /** ChangeKey. A change of the session's own key ends the session on both sides. */
  method ChangeKey(t: Tag, keyNo: byte, authKeyNo: byte) returns (r: Result<(), Error>)
    requires t.Agreed() && t.Careful()
    modifies t, t.card
    ensures t.Agreed() && t.Careful() && t.Steady()
    ensures r.Ok? ==> t.Did(SecureOp.ChangeKey(keyNo, keyNo == authKeyNo))
    ensures r.Ok? && keyNo == authKeyNo ==> t.session.None?
    ensures var s := old(t.score); Grows(s, t.score) && t.score.changes - s.changes == t.score.noted - s.noted
  {
    if keyNo != authKeyNo {
      var key := KeyFor(t, keyNo);
      if key.Err? { return Err(Auth(key.error)); }
    }
    if !Affords(t.budget, t.slowest, t.card.now, AuthExchanges(t, authKeyNo) + 1) { return Err(Deadline); }
    var p := WithSession(t, authKeyNo, PutKey(keyNo, keyNo == authKeyNo));
    if p.Err? { return Err(p.error); }
    if keyNo == authKeyNo { t.session := None; }
    return Ok(());
  }

  /** EnableLRP, which ends the session and is remembered. */
  method EnableLRP(t: Tag) returns (r: Result<(), Error>)
    requires t.Agreed() && t.Careful()
    modifies t, t.card
    ensures t.Agreed() && t.Careful() && t.Steady()
    ensures r.Ok? ==> t.Did(SecureOp.EnableLrp) && t.session.None? && t.lrp
  {
    var p := WithSession(t, 0, SwitchToLrp);
    if p.Err? { return Err(p.error); }
    t.session := None;
    t.lrp := true;
    return Ok(());
  }

  /** GetCardUID. A card that does not present a random UID is asked nothing. */
  method GetCardUid(t: Tag) returns (r: Result<bytes, Error>)
    requires t.Agreed() && t.Careful()
    modifies t, t.card
    ensures t.Agreed() && t.Careful() && t.Steady() && Harmless(old(t.score), t.score)
    ensures !t.randomId || old(t.realUid).Some? ==> t.Untouched() && r == Ok(t.KeyUid())
    ensures r.Ok? ==> r.value == t.KeyUid() && (t.randomId ==> t.realUid == Some(r.value))
  {
    if t.realUid.Some? || !t.randomId { return Ok(t.KeyUid()); }
    if EmptyKeys(t.keys) { return Err(Auth(NoKeys)); }
    var u := ResolveUid(t);
    return if u.Ok? then Ok(t.KeyUid()) else Err(u.error);
  }

  /** ResolveUID, whose failure leaves the presented UID in place. */
  method ResolveUidForReader(t: Tag)
    requires t.Agreed() && t.Careful()
    modifies t, t.card
    ensures t.Agreed() && t.Careful() && t.Steady() && Harmless(old(t.score), t.score)
    ensures old(t.realUid).Some? || old(t.resolved).Some? ==> t.Untouched()
  {
    if !t.randomId || EmptyKeys(t.keys) { return; }
    var _ := ResolveUid(t);
  }

  /** GetKeyVersion: inside the open session, or plainly. */
  method GetKeyVersion(t: Tag, keyNo: byte) returns (r: Result<Payload, Error>)
    requires t.Agreed() && t.Careful()
    modifies t, t.card
    ensures t.Agreed() && t.Careful() && t.Steady() && Harmless(old(t.score), t.score)
    ensures r.Ok? ==> t.Heard(r.value) && (t.Did(GetVersion(keyNo)) || t.card.history.last.command == PlainVersion(keyNo))
  {
    if t.session.Some? {
      ghost var s := t.score;
      r := t.Call(t.session.value, GetVersion(keyNo));
      assert s.accepted + [] == s.accepted;
      if r.Ok? { return; }
      t.session := None;
      if !IsSessionLost(r.error) { return; }
    }
    var s := Ntag424Files.SelectApp(t);
    if s.Err? { return Err(s.error); }
    ghost var m := t.score;
    var a := t.SendRead(PlainVersion(keyNo));
    TallyPlain(m, Exchange(PlainVersion(keyNo), a));
    return if a.Good? then Ok(a.payload) else Err(ErrorOf(a));
  }

  /** ReadSig, under the key of the open session or the lowest held. */
  method ReadSignature(t: Tag) returns (r: Result<bytes, Error>)
    requires t.Agreed() && t.Careful()
    modifies t, t.card
    ensures t.Agreed() && t.Careful() && t.Steady() && Harmless(old(t.score), t.score)
    ensures r.Ok? ==> t.Heard(DataOf(r.value)) && t.Did(ReadSig)
  {
    var key := if t.session.Some? then Some(t.sessionKeyNo) else LowestHeld(t.keys, 0);
    if key.None? { return Err(Auth(NoKeys)); }
    var p := WithSession(t, key.value, FetchSignature);
    return if p.Ok? then Ok(p.value.data) else Err(p.error);
  }

  /** ConfiguredKey: the key held for the number, for this card. */
  method ConfiguredKey(t: Tag, keyNo: byte) returns (r: Result<(), Error>)
    requires t.Agreed() && t.Careful()
    modifies t, t.card
    ensures t.Agreed() && t.Careful() && t.Steady() && Harmless(old(t.score), t.score)
    ensures if r.Ok? then HasKey(t.keys, keyNo, t.KeyUid()) && !t.NeedsUid(keyNo) else r.error.Auth?
  {
    var key := KeyFor(t, keyNo);
    return if key.Ok? then key else Err(Auth(key.error));
  }

  /** ReadOriginality: the signature the card gave and the UID it is to be verified over. */
  method ReadOriginality(t: Tag) returns (r: Result<(bytes, bytes), Error>)
    requires t.Agreed() && t.Careful()
    modifies t, t.card
    ensures t.Agreed() && t.Careful() && t.Steady() && Harmless(old(t.score), t.score)
    ensures r.Ok? ==> t.Heard(DataOf(r.value.0)) && t.Did(ReadSig) && (t.randomId ==> t.realUid == Some(r.value.1))
  {
    var uid := GetCardUid(t);
    if uid.Err? { return Err(uid.error); }
    var sig := ReadSignature(t);
    return if sig.Ok? then Ok((sig.value, uid.value)) else Err(sig.error);
  }

  // ---- ConfigureSDM ----

  datatype SdmState = NothingWritten | NdefIndeterminate | NdefWritten | SettingsIndeterminate | ConfiguredUnverified

  datatype SdmError = BadPlan | SdmFailed(state: SdmState, error: Error)

  const SDM_WRITE_EXCHANGES: nat := 2 + 7 + 6

  /** The whole NDEF write was confirmed by the card. */
  predicate NdefConfirmed(t: Score, path: Path, data: bytes, k: nat)
    requires k >= 1
  {
    EndsWith(t.accepted, if path.InSession? then Plan(data, k) else WireAll(Plan(data, k)))
  }

  /** The card confirmed a change of the NDEF file to these settings. */
  predicate Configured(s: Score, t: Score, settings: FileSettings) {
    t.applied > s.applied && t.latest == Some((FILE_NDEF, settings))
  }

  /** What a report says of the card is true, from score s to score t: nothing written means
      that no changing command was sent, an interrupted NDEF write that one was, a written one
      that the card confirmed it whole, and likewise for the settings. */
  predicate ReportIsTrue(s: Score, t: Score, path: Path, data: bytes, k: nat, settings: FileSettings, r: Result<(), SdmError>)
    requires k >= 1
  {
    if r.Ok? then NdefConfirmed(t, path, data, k) && Configured(s, t, settings)
    else if r.error.BadPlan? then t == s
    else match r.error.state
         case NothingWritten => t.changes == s.changes && t.settings == s.settings
         case NdefIndeterminate => t.changes > s.changes && t.settings == s.settings
         case NdefWritten => NdefConfirmed(t, path, data, k) && t.settings == s.settings
         case SettingsIndeterminate => NdefConfirmed(t, path, data, k) && t.settings > s.settings && t.applied == s.applied
         case ConfiguredUnverified => NdefConfirmed(t, path, data, k) && Configured(s, t, settings)
  }

  /** The two false reports. After the fallback, which notes nothing, "nothing written" though
      the write got as far as an update; and on the ISO route, which notes the write before its
      first select, "interrupted" though it did not. */
  predicate Misreports(c: Course, answers: nat -> Answer, data: bytes, r: Result<(), SdmError>) {
    r.Err? && r.error.SdmFailed?
    && ((r.error.state.NothingWritten? && c.path.Fallback? && Sends(answers, c.at, data))
        || (r.error.state.NdefIndeterminate? && c.path.OverIso? && !Sends(answers, c.at, data)))
  }

  /** verifySDM: the file read back, and the tap it shows checked under the held keys. */
  method VerifySdm(t: Tag, meta: byte, file: byte, decodes: bytes -> bool, verifies: bytes -> bool) returns (r: Result<(), Error>)
    requires t.Agreed() && t.Careful()
    modifies t, t.card
    ensures t.Agreed() && t.Careful() && t.Steady() && Looks(old(t.score), t.score)
  {
    var data := ReadData(t);
    if data.Err? { return Err(data.error); }
    if !decodes(data.value) { return Err(Invalid); }
    if meta <= 4 {
      var key := KeyFor(t, meta);
      if key.Err? { return Err(key.error); }
    }
    if file <= 4 {
      var key := KeyFor(t, file);
      if key.Err? { return Err(key.error); }
    }
    return if verifies(data.value) then Ok(()) else Err(Unverified);
  }

  /** The state named when the NDEF write of ConfigureSDM fails: by the notes made meanwhile. */
  function WriteState(before: nat, after: nat): SdmState { if after > before then NdefIndeterminate else NothingWritten }

  /** By the path a failed write took, the state named is true or one of the two false ones. */
  lemma WriteReported(keys: KeySet, s: Score, t: Score, answers: nat -> Answer, data: bytes, c: Course, settings: FileSettings, r: Result<(), SdmError>)
    requires Went(keys, s, t, answers, data, c, r.Ok?) && r.Err? && r.error.SdmFailed? && r.error.state == WriteState(s.noted, t.noted)
    ensures ReportIsTrue(s, t, c.path, data, c.k, settings, r) <==> !Misreports(c, answers, data, r)
    ensures c.path.Fallback? ==> r.error.state.NothingWritten?
    ensures c.path.OverIso? ==> r.error.state.NdefIndeterminate?
  {}

  /** The NDEF write of ConfigureSDM. */
  method SdmWrite(t: Tag, data: bytes) returns (r: Result<(), SdmError>, ghost c: Course)
    requires t.Agreed() && t.Careful()
    modifies t, t.card
    ensures t.Agreed() && t.Careful() && t.Steady() && Went(t.keys, old(t.score), t.score, t.card.answers, data, c, r.Ok?)
    ensures r.Err? ==> r.error.SdmFailed? && r.error.state == WriteState(old(t.score).noted, t.score.noted)
    ensures Decided(old(t.session).Some?, t.budget, t.keys, t.card.answers, old(t.card.sent), data, c)
  {
    var before := t.writesSent;
    var w;
    w, c := WriteData(t, data);
    if w.Ok? { return Ok(()), c; }
    r := Err(SdmFailed(WriteState(before, t.writesSent), w.error));
  }

  /** The settings change of ConfigureSDM. */
  method SdmSettings(t: Tag, settings: FileSettings, encodes: bool, ghost path: Path, ghost data: bytes, ghost k: nat) returns (r: Result<(), SdmError>)
    requires t.Agreed() && t.Careful() && k >= 1 && NdefConfirmed(t.score, path, data, k)
    modifies t, t.card
    ensures t.Agreed() && t.Careful() && t.Steady() && Grows(old(t.score), t.score)
    ensures r.Err? ==> r.error.SdmFailed? && (r.error.state.NdefWritten? || r.error.state.SettingsIndeterminate?)
    ensures ReportIsTrue(old(t.score), t.score, path, data, k, settings, r)
  {
    var written := t.writesSent;
    var c := ChangeFileSettings(t, FILE_NDEF, settings, encodes);
    if c.Ok? { return Ok(()); }
    return Err(SdmFailed(if t.writesSent > written then SettingsIndeterminate else NdefWritten, c.error));
  }

  predicate IsPlan(ndef: bytes) { |ndef| >= 2 && FromBe16(ndef) == |ndef| - 2 }

  /** What ConfigureSDM comes to once its write has begun, from score s to score t. The state
      reported is true exactly when it is not one of the two false reports, and a write on the
      ISO path that does not complete is reported by its path alone. */
  ghost predicate Outcome(k: KeySet, s: Score, t: Score, answers: nat -> Answer, data: bytes, settings: FileSettings, c: Course, r: Result<(), SdmError>) {
    && IsCourse(k, s, t, answers, data, c) && (r.Err? ==> r.error.SdmFailed?)
    && (r.Err? && (r.error.state.NothingWritten? || r.error.state.NdefIndeterminate?) ==> t.settings == s.settings && (c.fs.Err? ==> t.told == s.told))
    && (ReportIsTrue(s, t, c.path, data, c.k, settings, r) <==> !Misreports(c, answers, data, r))
    && (c.path.Fallback? ==> (Completes(answers, c.at, data) <==> !(r.Err? && r.error.state.NothingWritten?)))
    && (c.path.OverIso? ==> (Completes(answers, c.at, data) <==> !(r.Err? && r.error.state.NdefIndeterminate?)))
  }

  lemma OutcomeFailed(k: KeySet, s: Score, t: Score, answers: nat -> Answer, data: bytes, settings: FileSettings, c: Course, r: Result<(), SdmError>)
    requires Went(k, s, t, answers, data, c, false) && r.Err? && r.error.SdmFailed? && r.error.state == WriteState(s.noted, t.noted)
    ensures Outcome(k, s, t, answers, data, settings, c, r)
  {
    WriteReported(k, s, t, answers, data, c, settings, r);
  }

  lemma OutcomeWritten(k: KeySet, s: Score, m: Score, t: Score, answers: nat -> Answer, data: bytes, settings: FileSettings, c: Course, r: Result<(), SdmError>)
    requires Went(k, s, m, answers, data, c, true) && Grows(m, t) && ReportIsTrue(m, t, c.path, data, c.k, settings, r)
    requires r.Err? ==> r.error.SdmFailed? && !r.error.state.NothingWritten? && !r.error.state.NdefIndeterminate?
    ensures Outcome(k, s, t, answers, data, settings, c, r)
  {}

  /** The card's answers decide the course: what the settings read comes to and where the
      write starts, unless key 0 is needed, and with no budget that an open file is written
      over the ISO path. */
  ghost predicate Decided(open: bool, budget: Option<Budget>, k: KeySet, answers: nat -> Answer, n: nat, data: bytes, c: Course) {
    && CameTrue(Foretold(k, open, answers, n), c.fs, c.at)
    && (budget.None? && c.fs.Ok? && Room(c.fs.value.size, |data|) && RouteFor(k, c.fs.value, true) == Some(IsoPath) ==> c.path.OverIso?)
  }

  /** The two false reports by the card's answers alone, whenever those say what the settings
      read comes to: the settings cannot be read and the write gets as far as an update without
      completing; or, with no budget, the file is open, has room, and the write does not get
      that far. */
  lemma FalseReports(k: KeySet, s: Score, t: Score, answers: nat -> Answer, n: nat, data: bytes, settings: FileSettings, open: bool, budget: Option<Budget>, c: Course, r: Result<(), SdmError>)
    requires Outcome(k, s, t, answers, data, settings, c, r) && Decided(open, budget, k, answers, n, data, c) && Foretold(k, open, answers, n).Some?
    ensures var (fs, at) := Foretold(k, open, answers, n).value;
            var untrue := !ReportIsTrue(s, t, c.path, data, c.k, settings, r);
            && (untrue && r.error.state.NothingWritten? <==> Unreadable(fs) && Sends(answers, at, data) && !Completes(answers, at, data))
            && (budget.None? ==>
                  (untrue && r.error.state.NdefIndeterminate?
                   <==> fs.Ok? && Room(fs.value.size, |data|) && RouteFor(k, fs.value, true) == Some(IsoPath) && !Sends(answers, at, data)))
  {}

  /** ConfigureSDM: the NDEF message, the settings, and a read back. Without the time for it,
      nothing is sent and nothing written reported. */
  method ConfigureSDM(t: Tag, ndef: bytes, settings: FileSettings, encodes: bool, meta: byte, file: byte, decodes: bytes -> bool, verifies: bytes -> bool)
    returns (r: Result<(), SdmError>, ghost c: Option<Course>)
    requires t.Agreed() && t.Careful()
    modifies t, t.card
    ensures t.Agreed() && t.Careful() && t.Steady()
    ensures r.Err? && r.error.BadPlan? <==> !IsPlan(ndef)
    ensures c.None? <==> !IsPlan(ndef) || !old(Affords(t.budget, t.slowest, t.card.now, SDM_WRITE_EXCHANGES))
    ensures c.None? ==> t.Untouched() && r.Err? && (IsPlan(ndef) ==> r.error.state.NothingWritten?)
    ensures c.Some? ==> Outcome(t.keys, old(t.score), t.score, t.card.answers, ndef[2..], settings, c.value, r)
    ensures c.Some? ==> Decided(old(t.session).Some?, t.budget, t.keys, t.card.answers, old(t.card.sent), ndef[2..], c.value)
  {
    if !IsPlan(ndef) { return Err(BadPlan), None; }
    if !Affords(t.budget, t.slowest, t.card.now, SDM_WRITE_EXCHANGES) { return Err(SdmFailed(NothingWritten, Deadline)), None; }
    ghost var w;
    r, w := SdmWrite(t, ndef[2..]);
    c := Some(w);
    if r.Err? {
      OutcomeFailed(t.keys, old(t.score), t.score, t.card.answers, ndef[2..], settings, w, r);
      return;
    }
    ghost var m := t.score;
    r := SdmRest(t, settings, encodes, meta, file, decodes, verifies, w.path, ndef[2..], w.k);
    OutcomeWritten(t.keys, old(t.score), m, t.score, t.card.answers, ndef[2..], settings, w, r);
  }

  /** What the settings read came to and where the write started are as the card answered. */
  ghost predicate IsCourse(k: KeySet, s: Score, t: Score, answers: nat -> Answer, data: bytes, c: Course) {
    && s.sent < c.at <= t.sent && c.k >= 1 && Routed(k, c.fs, data, c.path)
    && (c.fs.Ok? ==> (c.at - 1, FILE_NDEF, c.fs.value) in t.told)
    && ((c.path.Fallback? || c.path.OverIso?) && Opens(answers, c.at) ==> c.k == ChunkAt(answers, c.at))
  }

  /** The settings change and the read back, after the NDEF message was written. */
  method SdmRest(t: Tag, settings: FileSettings, encodes: bool, meta: byte, file: byte, decodes: bytes -> bool, verifies: bytes -> bool,
                 ghost path: Path, ghost data: bytes, ghost k: nat)
    returns (r: Result<(), SdmError>)
    requires t.Agreed() && t.Careful() && k >= 1 && NdefConfirmed(t.score, path, data, k)
    modifies t, t.card
    ensures t.Agreed() && t.Careful() && t.Steady() && Grows(old(t.score), t.score)
    ensures r.Err? ==> r.error.SdmFailed? && !r.error.state.NothingWritten? && !r.error.state.NdefIndeterminate?
    ensures ReportIsTrue(old(t.score), t.score, path, data, k, settings, r)
  {
    r := SdmSettings(t, settings, encodes, path, data, k);
    if r.Err? { return; }
    var v := VerifySdm(t, meta, file, decodes, verifies);
    if v.Err? { return Err(SdmFailed(ConfiguredUnverified, v.error)); }
    return Ok(());
  }
}
