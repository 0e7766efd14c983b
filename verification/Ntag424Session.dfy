/** Sessions of the NTAG 424 DNA driver: the key to open one with, the card's real UID
    when that key derives from it, and one fresh authentication when the card has lost
    the session. */
module Ntag424Session {
  import opened Bytes
  import opened Type4Plan
  import opened Ntag424Card
  import opened Ntag424Keys
  import opened Ntag424Tag

  /** authExchanges: what opening a session under the key costs now. */
  function AuthExchanges(t: Tag, keyNo: byte): nat
    reads t
  {
    if t.session.Some? && t.sessionKeyNo == keyNo then 0 else 3
  }

  /** The second score is the first after n exchanges of an authentication. */
  predicate Authenticated(s: Score, t: Score, n: nat, ok: bool) {
    && s.sent <= t.sent <= s.sent + n && t == s.(sent := t.sent)
    && (ok ==> t.sent == s.sent + n)
  }

  function WrapAuth(e: Error): Error {
    if IsRemoved(e) || e.Auth? then e else Auth(e)
  }

  /** keyFor: a key is held for the number, once the real UID it may derive from is known. */
  method KeyFor(t: Tag, keyNo: byte) returns (r: Result<(), Error>)
    requires t.Agreed() && t.Careful()
    modifies t, t.card
    ensures t.Agreed() && t.Careful() && t.Steady() && Harmless(old(t.score), t.score)
    ensures r.Ok? ==> t.NoRefusal() && HasKey(t.keys, keyNo, t.KeyUid()) && !t.NeedsUid(keyNo)
    ensures !old(t.NeedsUid(keyNo)) ==> t.Untouched() && (r.Ok? <==> HasKey(t.keys, keyNo, t.KeyUid()))
    decreases Bit(t.NeedsUid(keyNo)), 4
  {
    if t.realUid.None? && t.randomId && t.keys.diversify && keyNo !in t.keys.slots {
      var uid := ResolveUid(t);
      if uid.Err? { return Err(uid.error); }
    }
    if HasKey(t.keys, keyNo, t.KeyUid()) { return Ok(()); }
    return Err(if EmptyKeys(t.keys) then NoKeys else NoKeyFor(keyNo));
  }

  /** resolveUID: ask at most once for these keys, unless the card was removed meanwhile. */
  method ResolveUid(t: Tag) returns (r: Result<(), Error>)
    requires t.Agreed() && t.Careful()
    modifies t, t.card
    ensures t.Agreed() && t.Careful() && t.Steady() && Harmless(old(t.score), t.score)
    ensures r.Ok? ==> t.NoRefusal() && (t.realUid.Some? || old(t.resolved) == Some(None))
    ensures old(t.realUid).Some? || old(t.resolved).Some? ==> t.Untouched()
    ensures t.realUid.Some? || t.resolved.Some? || (r.Err? && IsRemoved(r.error))
    decreases 1, 3
  {
    if t.realUid.Some? { return Ok(()); }
    if t.resolved.Some? {
      return if t.resolved.value.None? then Ok(()) else Err(t.resolved.value.value);
    }
    r := FetchRealUid(t);
    if r.Err? && IsRemoved(r.error) { return; }
    t.resolved := Some(if r.Ok? then None else Some(r.error));
  }

  /** fetchRealUID, in a session under a key that does not derive from the UID. */
  method FetchRealUid(t: Tag) returns (r: Result<(), Error>)
    requires t.Agreed() && t.Careful() && t.realUid.None?
    modifies t, t.card
    ensures t.Agreed() && t.Careful() && t.Steady() && Harmless(old(t.score), t.score)
    ensures r.Ok? ==> t.NoRefusal() && t.realUid.Some? && t.Heard(UidOf(t.realUid.value))
    decreases 1, 2
  {
    var key := ResolverKey(t.keys);
    if key.None? { return Err(Auth(NoResolver)); }
    ResolverNotDerived(t.keys);
    var s := WithSession(t, key.value, LearnUid);
    return if s.Ok? then Ok(()) else Err(s.error);
  }

  /** authenticate: the open session under this key, or a new one. A key the card refused,
      or any key once it asked for a delay, is not tried again. */
  method Authenticate(t: Tag, keyNo: byte) returns (r: Result<nat, Error>)
    requires t.Agreed() && t.Careful()
    modifies t, t.card
    ensures t.Agreed() && t.Careful() && t.Steady() && Harmless(old(t.score), t.score)
    ensures r.Ok? ==> t.session == Some(r.value) && t.sessionKeyNo == keyNo && t.NoRefusal()
    ensures r.Ok? ==> t.score.sent >= old(t.score).sent + old(AuthExchanges(t, keyNo))
    ensures !old(t.NeedsUid(keyNo)) ==>
              && t.realUid == old(t.realUid) && t.resolved == old(t.resolved)
              && t.score == old(t.score).(sent := t.score.sent)
              && (t.lrp == old(t.lrp) ==> Authenticated(old(t.score), t.score, old(AuthExchanges(t, keyNo)), r.Ok?))
    ensures old(t.session).None? && !old(t.NeedsUid(keyNo)) && r.Err? ==> t.session.None?
    ensures Obliging(t.card.answers) && old(t.Ready(keyNo)) ==> r.Ok? && t.lrp == old(t.lrp)
    decreases Bit(t.NeedsUid(keyNo)), 5
  {
    if t.session.Some? && t.sessionKeyNo == keyNo { return Ok(t.session.value); }
    var refused := t.Barred(keyNo);
    if refused.Some? { return Err(Auth(refused.value)); }
    var key := KeyFor(t, keyNo);
    if key.Err? { return Err(WrapAuth(key.error)); }
    ghost var n;
    r, n := t.OpenSession(keyNo);
  }

  // ---- what runs inside a session ----

  const READ_CHUNK: nat := 192
  const READ_CHUNK_FULL: nat := 160

  /** These bytes are the file's, from the offset on. */
  predicate ReadFrom(file: bytes, offset: nat, data: bytes) {
    offset + |data| <= |file| && data == file[offset..offset + |data|]
  }

  lemma ReadOn(file: bytes, offset: nat, a: bytes, b: bytes)
    requires ReadFrom(file, offset, a) && ReadFrom(file, offset + |a|, b)
    ensures ReadFrom(file, offset, a + b)
  {}

  /** One chunk, answered in full. */
  method ReadChunk(t: Tag, id: nat, offset: nat, want: nat, ghost start: nat) returns (r: Result<bytes, Error>)
    requires t.Inside(id) && t.Careful() && start <= t.card.sent
    modifies t`ledger, t`slowest, t`score, t.card
    ensures t.Careful() && Harmless(old(t.score), t.score) && t.card.sent > old(t.card.sent)
    ensures r.Ok? ==> |r.value| == want && t.Inside(id)
    ensures r.Ok? && t.Shown(start) ==> ReadFrom(t.file, offset, r.value) && old(t.Shown(start))
    ensures LostSession(r) ==> t.score.losses > old(t.score).losses
  {
    ghost var s := t.score;
    BookLength(t.card.history, t.card.took, t.eraStart);
    var a := t.Call(id, ReadFile(offset, want));
    assert s.accepted + [] == s.accepted;
    if a.Err? { return Err(a.error); }
    if !a.value.DataOf? || |a.value.data| != want { return Err(Unverified); }
    return Ok(a.value.data);
  }

  /** readChunks: one command per chunk, each answered in full. */
  method ReadChunks(t: Tag, id: nat, mode: CommMode, offset: nat, length: nat, ghost start: nat) returns (r: Result<bytes, Error>)
    requires t.Inside(id) && t.Careful() && start <= t.card.sent
    modifies t`ledger, t`slowest, t`score, t.card
    ensures t.Careful() && Harmless(old(t.score), t.score)
    ensures r.Ok? ==> |r.value| == length && t.Inside(id)
    ensures r.Ok? && length > 0 && t.Shown(start) ==> ReadFrom(t.file, offset, r.value) && old(t.Shown(start))
    ensures LostSession(r) ==> t.score.losses > old(t.score).losses
  {
    var chunk := if mode.Full? then READ_CHUNK_FULL else READ_CHUNK;
    var out: bytes := [];
    while |out| < length
      invariant |out| <= length && start <= t.card.sent
      invariant t.Inside(id) && t.Careful() && Harmless(old(t.score), t.score)
      invariant out != [] && t.Shown(start) ==> ReadFrom(t.file, offset, out) && old(t.Shown(start))
      invariant out == [] ==> t.Shown(start) == old(t.Shown(start))
    {
      var a := ReadChunk(t, id, offset + |out|, Min(chunk, length - |out|), start);
      if a.Err? { return Err(a.error); }
      if out != [] && t.Shown(start) { ReadOn(t.file, offset, out, a.value); }
      assert [] + a.value == a.value;
      out := out + a.value;
    }
    return Ok(out);
  }

  /** The payload is what the file stores. */
  predicate Told(file: bytes, p: Payload) {
    (p.Blank? ==> Decode(file) == Empty) && (p.DataOf? ==> Decode(file) == Message(p.data))
  }

  /** The body of a native NDEF read. */
  method ReadNdefBody(t: Tag, id: nat, mode: CommMode, size: nat) returns (r: Result<Payload, Error>)
    requires t.Inside(id) && t.Careful()
    modifies t`ledger, t`slowest, t`score, t.card
    ensures t.Careful() && Harmless(old(t.score), t.score)
    ensures r.Ok? ==> t.Inside(id) && (r.value.Blank? || r.value.DataOf?)
    ensures r.Ok? && r.value.DataOf? ==> |r.value.data| > 0 && (size > 2 ==> |r.value.data| <= size - 2)
    ensures r.Ok? && t.Shown(old(t.card.sent)) ==> Told(t.file, r.value)
    ensures LostSession(r) ==> t.score.losses > old(t.score).losses
  {
    ghost var start := t.card.sent;
    var head := ReadChunks(t, id, mode, 0, 2, start);
    if head.Err? { return Err(head.error); }
    var nlen := FromBe16(head.value);
    if nlen == 0 { return Ok(Blank); }
    if size > 2 && nlen > size - 2 { return Err(Unverified); }
    var out := ReadChunks(t, id, mode, 2, nlen, start);
    return if out.Ok? then Ok(DataOf(out.value)) else Err(out.error);
  }

  /** A body of one command that changes the card. */
  method SendChange(t: Tag, id: nat, op: SecureOp, noted: bool) returns (r: Result<Payload, Error>)
    requires t.Inside(id) && t.Careful() && IsChange(Secure(id, op)) && !op.WriteFile?
    modifies t`ledger, t`slowest, t`score, t`writesSent, t.card
    ensures t.Careful()
    ensures t.score == Changed(old(t.score), if op.ChangeSettings? then Some((op.file, op.settings)) else None, noted, r)
    ensures r.Ok? && !EndsSession(op) ==> t.Inside(id)
    ensures r.Ok? ==> t.Did(op)
    ensures r == Taken(t.card.answers(old(t.card.sent)))
  {
    ghost var s := t.score;
    if noted { t.Note(); }
    r := t.Call(id, op);
    assert s.accepted + [] == s.accepted;
  }

  /** The score after one changing command that is no NDEF write. */
  function Changed(s: Score, settings: Option<(byte, FileSettings)>, noted: bool, r: Result<Payload, Error>): Score {
    s.(sent := s.sent + 1, changes := s.changes + 1, settings := s.settings + Bit(settings.Some?),
       applied := s.applied + Bit(settings.Some? && r.Ok?), latest := if settings.Some? && r.Ok? then settings else s.latest,
       noted := s.noted + Bit(noted), losses := s.losses + Bit(LostSession(r)))
  }

  /** The last exchange showed these settings of the file, and nothing changed. */
  predicate Saw(s: Score, t: Score, file: byte, p: Payload) {
    Looks(s, t) && t.sent > s.sent && p.SettingsOf? && (t.sent - 1, file, p.settings) in t.told
  }

  /** What one run of a body adds to the score. */
  ghost predicate BodyDid(s: Score, t: Score, b: Body, r: Result<Payload, Error>) {
    && (LostSession(r) ==> t.losses > s.losses)
    && (r.Ok? ==> Answers(b, r.value))
    && match b
       case WriteNdef(mode, data) => NativeWrite(s, t, mode, data, r)
       case PutSettings(file, settings) => t == Changed(s, Some((file, settings)), true, r)
       case PutKey(_, _) => t == Changed(s, None, true, r)
       case SwitchToLrp => t == Changed(s, None, false, r)
       case ReadSettings(file) => if r.Ok? then Saw(s, t, file, r.value) else Harmless(s, t)
       case _ => Harmless(s, t)
  }

  /** The command of a body that only asks. */
  function Question(b: Body): SecureOp
    requires b.LearnUid? || b.ReadSettings? || b.FetchSignature?
  {
    match b
    case LearnUid => GetUid
    case ReadSettings(file) => GetSettings(file)
    case FetchSignature => ReadSig
  }

  /** What a body that reads returns. */
  predicate Answers(b: Body, p: Payload) {
    match b
    case LearnUid => p.UidOf? && |p.uid| == 7
    case ReadSettings(_) => p.SettingsOf?
    case FetchSignature => p.DataOf?
    case ReadNdef(_, _) => p.Blank? || p.DataOf?
    case _ => true
  }

  /** The answer such a body takes. A refused GetCardUID reads as one that does not verify. */
  function Read(b: Body, a: Result<Payload, Error>): (r: Result<Payload, Error>)
    requires b.LearnUid? || b.ReadSettings? || b.FetchSignature?
    ensures a.Err? ==> r.Err?
    ensures LostSession(r) ==> LostSession(a)
    ensures r.Ok? ==> r == a && Answers(b, r.value)
  {
    match b
    case LearnUid =>
      if a.Err? then (if a.error.Status? then Err(Unverified) else a)
      else if a.value.UidOf? && |a.value.uid| == 7 then a else Err(Unverified)
    case ReadSettings(_) => if a.Ok? && !a.value.SettingsOf? then Err(Unverified) else a
    case FetchSignature => if a.Ok? && !a.value.DataOf? then Err(Unverified) else a
  }

  /** A body that only asks: one exchange. */
  method Ask(t: Tag, id: nat, body: Body) returns (r: Result<Payload, Error>)
    requires t.Inside(id) && t.Careful() && (body.LearnUid? || body.ReadSettings? || body.FetchSignature?)
    modifies t`ledger, t`slowest, t`score, t.card
    ensures t.Careful() && t.score.sent == old(t.score).sent + 1
    ensures if r.Ok? && body.ReadSettings? then Saw(old(t.score), t.score, body.file, r.value) else Harmless(old(t.score), t.score)
    ensures r.Ok? ==> t.Inside(id) && Answers(body, r.value) && t.Heard(r.value) && t.Did(Question(body))
    ensures LostSession(r) ==> t.score.losses > old(t.score).losses
    ensures r == Read(body, Taken(t.card.answers(old(t.card.sent))))
  {
    ghost var s := t.score;
    var a := t.Call(id, Question(body));
    r := Read(body, a);
    assert s.accepted + [] == s.accepted;
  }

  /** What a body did is what the card confirmed last, and what it returns is what the card
      said: its last answer, or the message of the file that its answers since the n-th
      exchange show. */
  ghost predicate Reported(t: Tag, n: nat, b: Body, p: Payload)
    reads t, t.card
  {
    && (b.LearnUid? || b.ReadSettings? || b.FetchSignature? ==> t.Heard(p) && t.Did(Question(b)))
    && (b.PutKey? ==> t.Did(SecureOp.ChangeKey(b.keyNo, b.own))) && (b.SwitchToLrp? ==> t.Did(EnableLrp))
    && (b.LearnUid? ==> p.UidOf? && t.realUid == Some(p.uid))
    && (b.ReadNdef? && t.Shown(n) ==> Told(t.file, p))
  }

  /** The longer the card is taken to be truthful, the more is known of its answers. */
  lemma ReportedEarlier(t: Tag, n: nat, m: nat, b: Body, r: Result<Payload, Error>)
    requires n <= m && (r.Ok? ==> Reported(t, m, b, r.value))
    ensures r.Ok? ==> Reported(t, n, b, r.value)
  {
    if t.Shown(n) {
      TruthfulLater(t.card.history, n, m, t.file);
    }
  }

  method RunBody(t: Tag, id: nat, body: Body) returns (r: Result<Payload, Error>)
    requires t.Inside(id) && t.Careful()
    requires body.LearnUid? ==> t.realUid.None?
    modifies t`ledger, t`slowest, t`score, t`writesSent, t`realUid, t.card
    ensures t.Careful()
    ensures BodyDid(old(t.score), t.score, body, r)
    ensures r.Ok? && !Ends(body) ==> t.Inside(id)
    ensures t.realUid == old(t.realUid) || body.LearnUid?
    ensures body.LearnUid? ==> (r.Ok? <==> t.realUid.Some?)
    ensures r.Ok? ==> Reported(t, old(t.card.sent), body, r.value)
    ensures Obliging(t.card.answers) && OneChange(body) ==> r.Ok? && t.score.losses == old(t.score).losses
  {
    match body
    case LearnUid =>
      r := Ask(t, id, body);
      if r.Ok? { t.realUid := Some(r.value.uid); }
    case ReadSettings(_) => r := Ask(t, id, body);
    case FetchSignature => r := Ask(t, id, body);
    case ReadNdef(mode, size) => r := ReadNdefBody(t, id, mode, size);
    case WriteNdef(mode, data) => r := t.WriteNdefBody(id, mode, data);
    case PutSettings(file, settings) => r := SendChange(t, id, ChangeSettings(file, settings), true);
    case PutKey(keyNo, own) => r := SendChange(t, id, ChangeKey(keyNo, own), true);
    case SwitchToLrp => r := SendChange(t, id, EnableLrp, false);
  }

  // ---- withSession ----

  /** What a body that may run twice adds to the score. Every changing command was noted
      before it was sent, except the switch to LRP; only a body that changes settings sent
      such a change; and success means that the body ran to its end. */
  ghost predicate Accounted(s: Score, t: Score, b: Body, r: Result<Payload, Error>) {
    && Grows(s, t)
    && (!b.SwitchToLrp? ==> t.changes - s.changes == t.noted - s.noted)
    && t.settings - s.settings == (if b.PutSettings? then t.noted - s.noted else 0)
    && t.applied == s.applied + Bit(b.PutSettings? && r.Ok?)
    && t.latest == (if b.PutSettings? && r.Ok? then Some((b.file, b.settings)) else s.latest)
    && (!b.WriteNdef? ==> t.accepted == s.accepted) && (!b.ReadSettings? ==> t.told == s.told)
    && (!Changes(b) && !(b.ReadSettings? && r.Ok?) ==> Harmless(s, t))
    && (r.Ok? ==>
          && (Changes(b) ==> t.sent > s.sent) && (b.ReadSettings? ==> Saw(s, t, b.file, r.value))
          && Answers(b, r.value)
          && (Changes(b) && !b.SwitchToLrp? ==> t.noted > s.noted)
          && (b.WriteNdef? ==> EndsWith(t.accepted, Plan(b.data, MaxWriteChunk(b.mode)))))
  }

  predicate EndsWith<T(==)>(s: seq<T>, suffix: seq<T>) {
    |suffix| <= |s| && s[|s| - |suffix|..] == suffix
  }

  /** The commands of a body that changes the card. */
  function BodyExchanges(b: Body): nat {
    if b.WriteNdef? then 2 + WriteChunkCount(|b.data|, b.mode) else 1
  }

  /** When no session was lost, a changing body and the n exchanges that open its session
      are all that was sent, and all of them when it succeeds. */
  predicate Spent(s: Score, t: Score, b: Body, n: nat, ok: bool) {
    Changes(b) && t.losses == s.losses ==>
      t.sent <= s.sent + n + BodyExchanges(b) && (ok ==> t.sent == s.sent + n + BodyExchanges(b))
  }

  lemma BodyAccounted(s: Score, t: Score, b: Body, r: Result<Payload, Error>)
    requires BodyDid(s, t, b, r)
    ensures Accounted(s, t, b, r) && Spent(s, t, b, 0, r.Ok?)
  {
    if b.WriteNdef? {
      var plan := Plan(b.data, MaxWriteChunk(b.mode));
      PlanPieces(b.data, b.mode);
      assert plan[..|plan|] == plan;
    }
  }

  /** The same after an authentication, which changes nothing. */
  lemma AfterAuthentication(s: Score, m: Score, t: Score, b: Body, r: Result<Payload, Error>)
    requires Harmless(s, m) && Accounted(m, t, b, r)
    ensures Accounted(s, t, b, r)
  {}

  /** An authentication that failed is all there was. */
  lemma OnlyAuthentication(s: Score, t: Score, b: Body, r: Result<Payload, Error>, n: nat)
    requires Harmless(s, t) && r.Err?
    ensures Accounted(s, t, b, r) && (Authenticated(s, t, n, false) ==> Spent(s, t, b, n, false))
  {}

  lemma AccountedTwice(s: Score, m: Score, t: Score, b: Body, q: Result<Payload, Error>, r: Result<Payload, Error>)
    requires Accounted(s, m, b, q) && Accounted(m, t, b, r) && q.Err?
    ensures Accounted(s, t, b, r)
  {}

  /** One run of the body, and the session dropped when it fails. */
  method RunOnce(t: Tag, id: nat, body: Body) returns (r: Result<Payload, Error>)
    requires t.Inside(id) && t.Careful()
    requires body.LearnUid? ==> t.realUid.None?
    modifies t`ledger, t`slowest, t`score, t`writesSent, t`realUid, t`session, t.card
    ensures t.Careful() && (t.Agreed() || (r.Ok? && Ends(body)))
    ensures Accounted(old(t.score), t.score, body, r) && Spent(old(t.score), t.score, body, 0, r.Ok?)
    ensures LostSession(r) ==> t.score.losses > old(t.score).losses
    ensures r.Err? ==> t.session.None?
    ensures if body.LearnUid? then (r.Ok? <==> t.realUid.Some?) else t.realUid == old(t.realUid)
    ensures r.Ok? ==> Reported(t, old(t.card.sent), body, r.value)
    ensures Obliging(t.card.answers) && OneChange(body) ==> r.Ok? && t.score.losses == old(t.score).losses
  {
    r := RunBody(t, id, body);
    BodyAccounted(old(t.score), t.score, body, r);
    if r.Err? { t.session := None; }
  }

  /** The run after an authentication that began at score s, the n-th exchange, and cost so
      many exchanges. */
  method RunAfter(t: Tag, id: nat, body: Body, ghost s: Score, ghost n: nat, ghost cost: nat) returns (r: Result<Payload, Error>)
    requires t.Inside(id) && t.Careful() && n <= t.card.sent
    requires body.LearnUid? ==> t.realUid.None?
    requires Harmless(s, t.score) && t.score.sent >= s.sent + cost
    modifies t`ledger, t`slowest, t`score, t`writesSent, t`realUid, t`session, t.card
    ensures t.Careful() && (t.Agreed() || (r.Ok? && Ends(body))) && (r.Err? ==> t.session.None?)
    ensures Accounted(s, t.score, body, r)
    ensures old(Authenticated(s, t.score, cost, true)) ==> Spent(s, t.score, body, cost, r.Ok?)
    ensures r.Ok? && (Changes(body) || body.ReadSettings?) ==> t.score.sent > s.sent + cost
    ensures LostSession(r) ==> t.score.losses > s.losses
    ensures if body.LearnUid? then (r.Ok? <==> t.realUid.Some?) else t.realUid == old(t.realUid)
    ensures r.Ok? ==> Reported(t, n, body, r.value)
    ensures Obliging(t.card.answers) && OneChange(body) ==> r.Ok? && t.score.losses == old(t.score).losses
  {
    ghost var before, m := t.score, t.card.sent;
    r := RunOnce(t, id, body);
    ReportedEarlier(t, n, m, body, r);
    AfterAuthentication(s, before, t.score, body, r);
  }

  /** One authentication and one run of the body. `again` says that the card had lost
      the session, which the driver has then dropped. */
  method Attempt(t: Tag, keyNo: byte, body: Body) returns (r: Result<Payload, Error>, again: bool)
    requires t.Agreed() && t.Careful()
    requires body.LearnUid? ==> t.realUid.None? && !t.NeedsUid(keyNo)
    modifies t, t.card
    ensures t.Agreed() || (r.Ok? && Ends(body))
    ensures t.Careful() && t.Steady() && Accounted(old(t.score), t.score, body, r)
    ensures r.Ok? ==> t.NoRefusal() && Reported(t, old(t.card.sent), body, r.value)
    ensures r.Ok? && (Changes(body) || body.ReadSettings?) ==> t.score.sent > old(t.score).sent + old(AuthExchanges(t, keyNo))
    ensures again ==> r.Err? && t.session.None? && t.NoRefusal() && t.score.losses > old(t.score).losses && (body.LearnUid? ==> t.realUid.None?)
    ensures !old(t.NeedsUid(keyNo)) && t.lrp == old(t.lrp) ==>
              Spent(old(t.score), t.score, body, old(AuthExchanges(t, keyNo)), r.Ok?)
    ensures old(t.session).None? && !old(t.NeedsUid(keyNo)) && r.Err? ==> t.session.None?
    ensures Obliging(t.card.answers) && old(t.Ready(keyNo)) && OneChange(body) ==> r.Ok? && t.lrp == old(t.lrp) && t.score.losses == old(t.score).losses
    decreases Bit(t.NeedsUid(keyNo)), 6
  {
    var s := Authenticate(t, keyNo);
    if s.Err? {
      OnlyAuthentication(old(t.score), t.score, body, Err(s.error), old(AuthExchanges(t, keyNo)));
      return Err(s.error), false;
    }
    r := RunAfter(t, s.value, body, old(t.score), old(t.card.sent), old(AuthExchanges(t, keyNo)));
    again := r.Err? && IsSessionLost(r.error);
  }

  /** The second attempt, in terms of where the first one started. */
  method Again(t: Tag, keyNo: byte, body: Body, ghost s: Score, ghost n: nat, ghost lost: Result<Payload, Error>) returns (r: Result<Payload, Error>)
    requires t.Agreed() && t.Careful() && n <= t.card.sent
    requires body.LearnUid? ==> t.realUid.None? && !t.NeedsUid(keyNo)
    requires Accounted(s, t.score, body, lost) && lost.Err? && t.score.losses > s.losses && t.session.None?
    modifies t, t.card
    ensures t.Agreed() || (r.Ok? && Ends(body))
    ensures t.Careful() && t.Steady() && Accounted(s, t.score, body, r) && t.score.losses > s.losses
    ensures r.Ok? ==> t.NoRefusal() && Reported(t, n, body, r.value) && (Changes(body) || body.ReadSettings? ==> t.score.sent > s.sent + 3)
    ensures !old(t.NeedsUid(keyNo)) && r.Err? ==> t.session.None?
    decreases Bit(t.NeedsUid(keyNo)), 7
  {
    ghost var first, m := t.score, t.card.sent;
    var again;
    r, again := Attempt(t, keyNo, body);
    ReportedEarlier(t, n, m, body, r);
    AccountedTwice(s, first, t.score, body, lost, r);
  }

  /** withSession: the body once, and once more when the card had lost the session. Any
      failure of the body drops the session. */
  method WithSession(t: Tag, keyNo: byte, body: Body) returns (r: Result<Payload, Error>)
    requires t.Agreed() && t.Careful()
    requires body.LearnUid? ==> t.realUid.None? && !t.NeedsUid(keyNo)
    modifies t, t.card
    ensures t.Agreed() || (r.Ok? && Ends(body))
    ensures t.Careful() && t.Steady() && Accounted(old(t.score), t.score, body, r)
    ensures r.Ok? ==> t.NoRefusal() && Reported(t, old(t.card.sent), body, r.value)
    ensures r.Ok? && (Changes(body) || body.ReadSettings?) ==> t.score.sent > old(t.score).sent + old(AuthExchanges(t, keyNo))
    ensures !old(t.NeedsUid(keyNo)) && t.lrp == old(t.lrp) ==>
              Spent(old(t.score), t.score, body, old(AuthExchanges(t, keyNo)), r.Ok?)
    ensures old(t.session).None? && !old(t.NeedsUid(keyNo)) && r.Err? ==> t.session.None?
    ensures Obliging(t.card.answers) && old(t.Ready(keyNo)) && OneChange(body) ==> r.Ok? && t.lrp == old(t.lrp) && t.score.losses == old(t.score).losses
    decreases Bit(t.NeedsUid(keyNo)), 8
  {
    ghost var cost, needs := AuthExchanges(t, keyNo), t.NeedsUid(keyNo);
    var attempt := 0;
    var again;
    r, again := Attempt(t, keyNo, body);
    while again && attempt == 0
      invariant attempt <= 1
      invariant t.Agreed() || (r.Ok? && Ends(body))
      invariant t.Careful()
      invariant t.Steady()
      invariant Accounted(old(t.score), t.score, body, r)
      invariant r.Ok? ==> t.NoRefusal() && Reported(t, old(t.card.sent), body, r.value)
      invariant r.Ok? && (Changes(body) || body.ReadSettings?) ==> t.score.sent > old(t.score).sent + cost
      invariant again && attempt == 0 ==> r.Err? && t.session.None? && t.NoRefusal() && (body.LearnUid? ==> t.realUid.None?)
      invariant again && attempt == 0 ==> t.score.losses > old(t.score).losses
      invariant t.NeedsUid(keyNo) ==> needs
      invariant !needs && t.lrp == old(t.lrp) ==> Spent(old(t.score), t.score, body, cost, r.Ok?)
      invariant old(t.session).None? && !needs && r.Err? ==> t.session.None?
      invariant Obliging(t.card.answers) && old(t.Ready(keyNo)) && OneChange(body) ==> r.Ok? && t.lrp == old(t.lrp) && t.score.losses == old(t.score).losses
      decreases 2 - attempt
    {
      attempt := attempt + 1;
      r := Again(t, keyNo, body, old(t.score), old(t.card.sent), r);
      again := false;
    }
  }
}
