/** The NTAG 424 DNA driver: a session cache over a card with a session of its own,
    lockout memory, one bounded re-authentication and a time budget. */
module Ntag424Tag {
  import opened Bytes
  import opened Type4Plan
  import opened Ntag424Card
  import opened Ntag424Keys

  /** What withSession runs inside a session. */
  datatype Body =
    | LearnUid
    | ReadSettings(file: byte)
    | ReadNdef(mode: CommMode, size: nat)
    | WriteNdef(mode: CommMode, data: bytes)
    | PutSettings(file: byte, settings: FileSettings)
    | PutKey(keyNo: byte, own: bool)
    | SwitchToLrp
    | FetchSignature

  predicate Ends(b: Body) { (b.PutKey? && b.own) || b.SwitchToLrp? }

  predicate Changes(b: Body) { b.WriteNdef? || b.PutSettings? || b.PutKey? || b.SwitchToLrp? }

  /** One command that changes the card. */
  predicate OneChange(b: Body) { Changes(b) && !b.WriteNdef? }

  /** Where the exchanges stand: how many were sent, how many of them change the card or
      a file's settings, how many of the latter the card confirmed and the last of those, how
      often a session was lost, how many changing commands the driver has noted, the NDEF
      updates the card confirmed, and the file settings it showed, with the exchange. */
  datatype Score = Score(sent: nat, changes: nat, settings: nat, applied: nat, latest: Option<(byte, FileSettings)>,
                         losses: nat, noted: nat, accepted: seq<Update>, told: set<(nat, byte, FileSettings)>)

  function Tally(s: Score, x: Exchange): Score {
    s.(sent := s.sent + 1,
       changes := s.changes + Bit(IsChange(x.command)),
       settings := s.settings + Bit(IsSettingsChange(x.command)),
       applied := s.applied + Bit(IsSettingsChange(x.command) && x.answer.Good?),
       latest := if IsSettingsChange(x.command) && x.answer.Good? then Some((x.command.op.file, x.command.op.settings)) else s.latest,
       losses := s.losses + Bit(LosesSession(x)),
       accepted := s.accepted + Confirmed(x),
       told := match SettingsShown(x) case None => s.told case Some((file, fs)) => s.told + {(s.sent, file, fs)})
  }

  function Total(h: History): Score {
    match h
    case Start => Score(0, 0, 0, 0, None, 0, 0, [], {})
    case Then(before, last) => Tally(Total(before), last)
  }

  predicate Grows(a: Score, b: Score) {
    a.sent <= b.sent && a.changes <= b.changes && a.settings <= b.settings && a.applied <= b.applied && a.losses <= b.losses && a.noted <= b.noted
    && a.told <= b.told
  }

  /** Nothing that changes the card was sent in between. */
  predicate Harmless(a: Score, b: Score) {
    Grows(a, b) && b == a.(sent := b.sent, losses := b.losses)
  }

  /** Nothing but that the card may have shown settings. */
  predicate Looks(a: Score, b: Score) {
    Grows(a, b) && b == a.(sent := b.sent, losses := b.losses, told := b.told)
  }

  /** The card showed these settings of the file, at the n-th exchange or later. */
  ghost predicate ToldSince(s: Score, n: nat, file: byte, fs: FileSettings) {
    exists i: nat :: n <= i && (i, file, fs) in s.told
  }

  predicate LostSession<T>(r: Result<T, Error>) { r.Err? && IsSessionLost(r.error) }

  // ---- the ledger ----

  /** What the exchanges so far amount to: their number, the time they took and their
      score. Since the keys last changed: whether each authentication was tried with a key
      not refused before and no delay asked for, whether the card asked for a delay, and
      the keys it refused otherwise. */
  datatype Ledger = Ledger(sent: nat, now: nat, score: Score, careful: bool, asked: bool, refused: set<byte>)

  /** One more exchange, when the keys last changed after the n-th. */
  function Enter(l: Ledger, x: Exchange, took: nat -> nat, n: nat): Ledger {
    var m := l.(sent := l.sent + 1, now := l.now + took(l.sent), score := Tally(l.score, x));
    if l.sent < n then m.(careful := true, asked := false, refused := {})
    else if !IsAuth(x.command) then m
    else
      var key := x.command.keyNo;
      m.(careful := l.careful && !l.asked && key !in l.refused,
         asked := l.asked || IsDelayAnswer(x),
         refused := if IsRefusal(x, key) && !IsDelayAnswer(x) then l.refused + {key} else l.refused)
  }

  /** A command that asks, outside any session, only counts. */
  lemma TallyPlain(s: Score, x: Exchange)
    requires !IsChange(x.command) && !x.command.Secure?
    ensures Tally(s, x) == s.(sent := s.sent + 1, told := Tally(s, x).told)
    ensures !x.command.PlainSettings? ==> Tally(s, x).told == s.told
  {
    assert s.accepted + [] == s.accepted;
  }

  lemma EnterAdds(l: Ledger, x: Exchange, took: nat -> nat, n: nat, noted: nat)
    ensures var e := Enter(l, x, took, n);
            && e.sent == l.sent + 1 && e.now == l.now + took(l.sent)
            && e.score.(noted := noted) == Tally(l.score.(noted := noted), x)
            && (!IsAuth(x.command) && l.sent >= n ==> e.careful == l.careful && e.asked == l.asked && e.refused == l.refused)
  {}

  function Book(h: History, took: nat -> nat, n: nat): Ledger {
    match h
    case Start => Ledger(0, 0, Total(Start), true, false, {})
    case Then(before, last) => Enter(Book(before, took, n), last, took, n)
  }

  lemma {:induction false} BookMeans(h: History, took: nat -> nat, n: nat)
    ensures var l := Book(h, took, n);
            l.sent == Length(h) && l.now == Elapsed(took, 0, Length(h)) && l.score == Total(h)
  {
    if h.Then? {
      BookMeans(h.before, took, n);
    }
  }

  lemma {:induction false} BookNotes(h: History, took: nat -> nat, n: nat)
    ensures Book(h, took, n).score.noted == 0 && Book(h, took, n).score.sent == Length(h)
  {
    if h.Then? {
      BookNotes(h.before, took, n);
    }
  }

  /** A careful driver is refused each key at most once between two changes of the keys,
      and sends no authentication once the card has asked for a delay. */
  lemma {:induction false} LockoutBound(h: History, took: nat -> nat, n: nat, k: byte)
    requires Book(h, took, n).careful
    ensures var l, since := Book(h, took, n), Since(h, n);
            && Refusals(since, k) <= 1 && QuietAfterDelay(since)
            && l.asked == AskedDelay(since) && (Refusals(since, k) == 1 ==> l.asked || k in l.refused)
  {
    BookMeans(h, took, n);
    if h.Then? {
      BookMeans(h.before, took, n);
      if Length(h) > n {
        if Length(h.before) > n || Book(h.before, took, n).careful {
          LockoutBound(h.before, took, n, k);
        }
        if Length(h) == n + 1 {
          SinceNone(h.before, n);
        }
      }
    }
  }

  lemma SinceNone(h: History, n: nat)
    requires Length(h) <= n
    ensures Since(h, n) == Start
  {}

  lemma BookLength(h: History, took: nat -> nat, n: nat)
    ensures Book(h, took, n).sent == Length(h)
  {
    BookMeans(h, took, n);
  }

  /** A change of the keys now: the lockout memory starts afresh. */
  lemma BookRestart(h: History, took: nat -> nat, n: nat)
    ensures Book(h, took, Length(h)) == Book(h, took, n).(careful := true, asked := false, refused := {})
  {
    BookMeans(h, took, n);
    BookMeans(h, took, Length(h));
    if h.Then? {
      BookMeans(h.before, took, Length(h));
    }
  }

  class Tag {
    const card: Card
    const presented: bytes
    const randomId: bool
    var keys: KeySet
    var session: Option<nat>
    var sessionKeyNo: byte
    var realUid: Option<bytes>
    var resolved: Option<Option<Error>>   // tried for these keys, and how it failed
    var failedAuth: map<byte, Error>
    var delayed: bool
    var lrp: bool
    const budget: Option<Budget>
    ghost const file: bytes               // what the NDEF file may hold, for claims about reads
    var slowest: nat
    var writesSent: nat
    ghost var eraStart: nat               // the exchanges there were when the keys last changed
    ghost var ledger: Ledger              // what all exchanges amount to
    ghost var score: Score                // their score, with what the driver noted

    constructor (card: Card, presented: bytes, randomId: bool, keys: KeySet, budget: Option<Budget>, ghost file: bytes)
      requires card.Clocked()
      ensures this.card == card && this.presented == presented && this.randomId == randomId && this.keys == keys
      ensures this.budget == budget && session.None? && realUid.None? && !lrp && writesSent == 0
      ensures failedAuth == map[] && !delayed && slowest == 0
      ensures Agreed() && Careful()
    {
      this.card := card;
      this.presented := presented;
      this.randomId := randomId;
      this.keys := keys;
      this.budget := budget;
      this.file := file;
      session, sessionKeyNo, realUid, resolved := None, 0, None, None;
      slowest := 0;
      failedAuth, delayed, lrp, writesSent := map[], false, false, 0;
      eraStart := card.sent;
      ledger := Book(card.history, card.took, card.sent);
      score := Book(card.history, card.took, card.sent).score;
      BookMeans(card.history, card.took, card.sent);
      BookRestart(card.history, card.took, card.sent);
      BookNotes(card.history, card.took, card.sent);
    }

    // ---- the two invariants ----

    /** A session the driver holds is the card's session, under the same key. */
    ghost predicate Agreed()
      reads this, card
    {
      session.Some? ==> card.session == Some(Session(session.value, sessionKeyNo))
    }

    /** The lockout memory covers what the card refused, and the score is the log's. */
    ghost predicate Careful()
      reads this, card
    {
      Honest() && ledger.careful && delayed == ledger.asked && failedAuth.Keys == ledger.refused
    }

    ghost predicate Honest()
      reads this, card
    {
      && ledger == Book(card.history, card.took, eraStart)
      && ledger.sent == card.sent && ledger.now == card.now && eraStart <= card.sent
      && score == ledger.score.(noted := writesSent) && score.sent == card.sent
      && (resolved == Some(None) ==> realUid.Some?)
    }

    /** What no driver operation but SetKeys undoes. */
    twostate predicate Steady()
      reads this
    {
      && keys == old(keys)
      && (old(realUid).Some? ==> realUid == old(realUid))
      && (old(lrp) ==> lrp) && (old(delayed) ==> delayed)
    }

    /** What authentications were refused is as it was. */
    twostate predicate NoRefusal()
      reads this
    {
      delayed == old(delayed) && failedAuth == old(failedAuth)
    }

    /** Nothing was sent and nothing the driver knows changed. */
    twostate predicate Untouched()
      reads this, card
    {
      && session == old(session) && sessionKeyNo == old(sessionKeyNo)
      && realUid == old(realUid) && resolved == old(resolved) && lrp == old(lrp)
      && NoRefusal() && score == old(score) && slowest == old(slowest)
    }

    ghost predicate NeedsUid(keyNo: byte)
      reads this
    {
      realUid.None? && randomId && Derived(keys, keyNo)
    }

    /** Some key may derive from a UID that is not known yet. */
    ghost predicate MayNeedUid()
      reads this
    {
      realUid.None? && randomId && keys.diversify
    }

    function KeyUid(): bytes
      reads this
    {
      if realUid.Some? then realUid.value else presented
    }

    /** The card's last answer. */
    ghost predicate Heard(p: Payload)
      reads this, card
    {
      card.history.Then? && card.history.last.answer == Good(p)
    }

    /** The last exchange was this command of a session, answered well. */
    ghost predicate Did(op: SecureOp)
      reads this, card
    {
      card.history.Then? && card.history.last.command.Secure? && card.history.last.command.op == op && card.history.last.answer.Good?
    }

    /** Every read answered since the n-th exchange shows the file. */
    ghost predicate Shown(n: nat)
      reads this, card
    {
      Truthful(card.history, n, file)
    }

    // ---- one exchange ----

    /** transmitRaw, timed into the budget. */
    method Send(c: Command) returns (a: Answer)
      requires Honest()
      modifies this`ledger, this`slowest, this`score, card
      ensures Honest()
      ensures a == Possible(old(card.session), c, card.answers(old(card.sent)))
      ensures card.session == SessionAfter(old(card.session), c, a, old(card.sent), card.acted(old(card.sent)))
      ensures card.sent == old(card.sent) + 1 && card.history == Then(old(card.history), Exchange(c, a))
      ensures IsAuth(c) ==> ledger == Enter(old(ledger), Exchange(c, a), card.took, eraStart) && old(ledger).sent >= eraStart
      ensures score == Tally(old(score), Exchange(c, a))
      ensures !IsAuth(c) ==>
                ledger.careful == old(ledger).careful && ledger.asked == old(ledger).asked && ledger.refused == old(ledger).refused
    {
      var start := card.now;
      ghost var h := card.history;
      a := card.Transmit(c);
      Record(h, Exchange(c, a));
      if budget.Some? {
        slowest := Max(slowest, card.now - start);
      }
    }

    /** The ledger and the score take the exchange the card has just recorded. */
    ghost method Record(h: History, x: Exchange)
      requires ledger == Book(h, card.took, eraStart) && card.history == Then(h, x) && eraStart <= ledger.sent
      requires card.sent == ledger.sent + 1 && card.now == ledger.now + card.took(ledger.sent)
      requires score == ledger.score.(noted := writesSent) && score.sent == ledger.sent
      requires resolved == Some(None) ==> realUid.Some?
      modifies this`ledger, this`score
      ensures Honest() && ledger == Enter(old(ledger), x, card.took, eraStart) && score == Tally(old(score), x)
      ensures !IsAuth(x.command) ==>
                ledger.careful == old(ledger).careful && ledger.asked == old(ledger).asked && ledger.refused == old(ledger).refused
    {
      EnterAdds(ledger, x, card.took, eraStart, writesSent);
      ledger := Enter(ledger, x, card.took, eraStart);
      score := Tally(score, x);
    }

    /** A command outside any session, and its answer. */
    method SendPlain(c: Command) returns (a: Answer)
      requires session.None? && Careful() && !IsAuth(c) && !IsChange(c) && !c.Secure? && !c.PlainSettings?
      modifies this`ledger, this`slowest, this`score, card
      ensures Careful() && score == old(score).(sent := old(score).sent + 1)
      ensures a == card.answers(old(card.sent))
    {
      ghost var s := score;
      a := Send(c);
      TallyPlain(s, Exchange(c, a));
    }

    /** The same for a command whose answer is wanted as the card's word. */
    method SendRead(c: Command) returns (a: Answer)
      requires session.None? && Careful() && !IsAuth(c) && !IsChange(c) && !c.Secure?
      modifies this`ledger, this`slowest, this`score, card
      ensures Careful() && score == Tally(old(score), Exchange(c, a))
      ensures a == card.answers(old(card.sent)) && card.history == Then(old(card.history), Exchange(c, a))
    {
      a := Send(c);
    }

    /** noteWrite: a command that changes the card is about to be sent. */
    method Note()
      requires Careful()
      modifies this`writesSent, this`score
      ensures Careful()
      ensures writesSent == old(writesSent) + 1 && score == old(score).(noted := old(score).noted + 1)
    {
      writesSent := writesSent + 1;
      score := score.(noted := score.noted + 1);
    }

    // ---- authentication ----

    /** The ledger was l and careful before this exchange, a try of a key that the card had
        not refused, with no delay asked for. */
    ghost predicate Trying(l: Ledger, x: Exchange)
      reads this, card
    {
      && Honest() && ledger == Enter(l, x, card.took, eraStart) && l.sent >= eraStart
      && ledger.careful && delayed == l.asked && failedAuth.Keys == l.refused && IsAuth(x.command)
    }

    /** authRefused: remember why the card refused the key. */
    method AuthRefused(keyNo: byte, cause: Error, ghost l: Ledger, ghost x: Exchange) returns (e: Error)
      requires Trying(l, x) && x.command.keyNo == keyNo && IsRefusal(x, keyNo)
      requires cause == if x.answer.Refused? then Status(x.answer.sw1, x.answer.sw2) else Unverified
      modifies this`failedAuth, this`delayed
      ensures Careful() && e == Auth(cause) && (old(delayed) ==> delayed)
    {
      if cause.Status? && IsDelay(cause.sw1, cause.sw2) {
        delayed := true;
      } else {
        failedAuth := failedAuth[keyNo := cause];
      }
      e := Auth(cause);
    }

    /** One part of an authentication. */
    method SendAuth(c: Command) returns (a: Answer)
      requires IsAuth(c) && Careful() && !delayed && c.keyNo !in failedAuth
      modifies this`ledger, this`slowest, this`score, card
      ensures a == Possible(old(card.session), c, card.answers(old(card.sent)))
      ensures card.session == SessionAfter(old(card.session), c, a, old(card.sent), card.acted(old(card.sent)))
      ensures score == old(score).(sent := old(score).sent + 1)
      ensures Trying(old(ledger), Exchange(c, a))
      ensures !IsRefusal(Exchange(c, a), c.keyNo) ==> Careful()
    {
      a := Send(c);
    }

    /** The second part of an authentication, which opens the session. */
    method FinishAuth(lrpMode: bool, keyNo: byte) returns (r: Result<nat, Error>)
      requires Careful() && !delayed && keyNo !in failedAuth && session.None?
      modifies this`ledger, this`slowest, this`score, this`failedAuth, this`delayed, this`session, this`sessionKeyNo, card
      ensures Agreed() && Careful()
      ensures score == old(score).(sent := old(score).sent + 1)
      ensures r.Ok? ==> session == Some(r.value) && sessionKeyNo == keyNo && NoRefusal()
      ensures r.Err? ==> session.None?
      ensures Obliging(card.answers) ==> r.Ok?
    {
      var id := card.sent;
      ghost var l := ledger;
      var c := AuthSecond(lrpMode, keyNo);
      var a := SendAuth(c);
      if a.Lost? { return Err(LostError(a)); }
      if !a.Good? {
        var e := AuthRefused(keyNo, ErrorOf(a), l, Exchange(c, a));
        return Err(e);
      }
      session, sessionKeyNo := Some(id), keyNo;
      return Ok(id);
    }

    /** The first part. A good answer comes back for the caller to go on with. */
    method StartAuth(lrpMode: bool, keyNo: byte) returns (r: Result<Payload, Error>)
      requires Careful() && !delayed && keyNo !in failedAuth
      modifies this`ledger, this`slowest, this`score, this`failedAuth, this`delayed, card
      ensures Careful()
      ensures score == old(score).(sent := old(score).sent + 1)
      ensures r.Ok? ==> NoRefusal()
      ensures Obliging(card.answers) ==> r.Ok? && !r.value.LrpChallenge?
    {
      ghost var l := ledger;
      var c := AuthFirst(lrpMode, keyNo);
      var a := SendAuth(c);
      if a.Lost? { return Err(LostError(a)); }
      if a.Refused? || a.Short? {
        var e := AuthRefused(keyNo, ErrorOf(a), l, Exchange(c, a));
        return Err(e);
      }
      return if a.Good? then Ok(a.payload) else Err(Auth(Unverified));
    }

    /** authenticateLRP. */
    method AuthenticateLrp(keyNo: byte) returns (r: Result<nat, Error>, ghost n: nat)
      requires Careful() && !delayed && keyNo !in failedAuth && session.None?
      modifies this`ledger, this`slowest, this`score, this`failedAuth, this`delayed, this`session, this`sessionKeyNo, card
      ensures Agreed() && Careful()
      ensures score == old(score).(sent := old(score).sent + n) && n <= 2 && (r.Ok? ==> n == 2)
      ensures r.Ok? ==> session == Some(r.value) && sessionKeyNo == keyNo && NoRefusal()
      ensures r.Err? ==> session.None?
      ensures Obliging(card.answers) ==> r.Ok?
    {
      var first := StartAuth(true, keyNo);
      if first.Err? { return Err(first.error), 1; }
      r := FinishAuth(true, keyNo);
      n := 2;
    }

    /** The two parts, in the cipher suite the card's first answer shows. */
    method Negotiate(keyNo: byte) returns (r: Result<nat, Error>, ghost n: nat)
      requires Careful() && !delayed && keyNo !in failedAuth && session.None?
      modifies this`ledger, this`slowest, this`score, this`failedAuth, this`delayed, this`session, this`sessionKeyNo, this`lrp, card
      ensures Agreed() && Careful() && (old(lrp) ==> lrp)
      ensures score == old(score).(sent := old(score).sent + n)
      ensures (r.Ok? ==> n >= 2) && (lrp == old(lrp) ==> n <= 2)
      ensures r.Ok? ==> session == Some(r.value) && sessionKeyNo == keyNo && NoRefusal()
      ensures r.Err? ==> session.None?
      ensures Obliging(card.answers) ==> r.Ok? && lrp == old(lrp)
    {
      if lrp && keys.allowLrp {
        r, n := AuthenticateLrp(keyNo);
        return;
      }
      var first := StartAuth(false, keyNo);
      if first.Err? { return Err(first.error), 1; }
      if first.value.LrpChallenge? {
        lrp := true;
        if !keys.allowLrp { return Err(Auth(LrpNotAllowed)), 1; }
        r, n := AuthenticateLrp(keyNo);
        n := n + 1;
      } else {
        r := FinishAuth(false, keyNo);
        n := 2;
      }
    }

    /** The authentication proper, once the key is at hand. The application is selected
        first, which clears any session the card held. */
    method OpenSession(keyNo: byte) returns (r: Result<nat, Error>, ghost n: nat)
      requires Careful() && !delayed && keyNo !in failedAuth
      modifies this`ledger, this`slowest, this`score, this`failedAuth, this`delayed, this`session, this`sessionKeyNo, this`lrp, card
      ensures Agreed() && Careful() && (old(lrp) ==> lrp)
      ensures score == old(score).(sent := old(score).sent + n)
      ensures (r.Ok? ==> n >= 3) && (lrp == old(lrp) ==> n <= 3)
      ensures r.Ok? ==> session == Some(r.value) && sessionKeyNo == keyNo && NoRefusal()
      ensures r.Err? ==> session.None?
      ensures Obliging(card.answers) ==> r.Ok? && lrp == old(lrp)
    {
      session := None;
      var a := SendPlain(SelectApp);
      if a.Lost? { return Err(LostError(a)), 1; }
      if !a.Good? { return Err(Auth(Unverified)), 1; }
      r, n := Negotiate(keyNo);
      n := n + 1;
    }

    /** Why a key is not tried again: the card's mode, its delay, or an earlier refusal. */
    function Barred(keyNo: byte): Option<Error>
      reads this
    {
      if lrp && !keys.allowLrp then Some(LrpNotAllowed)
      else if delayed then Some(AuthDelayed)
      else if keyNo in failedAuth then Some(failedAuth[keyNo])
      else None
    }

    /** The key may be tried, and is at hand. */
    ghost predicate Ready(keyNo: byte)
      reads this
    {
      Barred(keyNo).None? && HasKey(keys, keyNo, KeyUid()) && !NeedsUid(keyNo)
    }

    // ---- commands inside a session ----

    /** The driver's session is this one, and the card's too. */
    ghost predicate Inside(id: nat)
      reads this, card
    {
      session == Some(id) && Agreed()
    }

    /** One command of the session and its answer. */
    method Call(id: nat, op: SecureOp) returns (r: Result<Payload, Error>)
      requires Inside(id) && Careful()
      modifies this`ledger, this`slowest, this`score, card
      ensures Careful()
      ensures var s := old(score);
              score == s.(sent := s.sent + 1, changes := s.changes + Bit(IsChange(Secure(id, op))),
                          settings := s.settings + Bit(op.ChangeSettings?), applied := s.applied + Bit(op.ChangeSettings? && r.Ok?),
                          latest := if op.ChangeSettings? && r.Ok? then Some((op.file, op.settings)) else s.latest,
                          losses := s.losses + Bit(LostSession(r)),
                          accepted := s.accepted + if r.Ok? && op.WriteFile? then [op.update] else [],
                          told := if op.GetSettings? && r.Ok? && r.value.SettingsOf? then s.told + {(s.sent, op.file, r.value.settings)} else s.told)
      ensures r.Ok? && !EndsSession(op) ==> Inside(id)
      ensures r.Ok? ==> card.history == Then(old(card.history), Exchange(Secure(id, op), Good(r.value)))
      ensures r == Taken(card.answers(old(card.sent)))
    {
      var a := Send(Secure(id, op));
      r := Taken(a);
    }

    /** The same for the plan's next write, which is noted before it is sent. */
    method CallWrite(id: nat, u: Update, ghost s: Score, ghost plan: seq<Update>, ghost at: nat) returns (r: Result<Payload, Error>)
      requires Inside(id) && Careful()
      requires at < |plan| && plan[at] == u && score == Followed(s, plan, at)
      modifies this`ledger, this`slowest, this`score, this`writesSent, card
      ensures Careful()
      ensures r.Ok? ==> score == Followed(s, plan, at + 1) && Inside(id)
      ensures r.Err? ==> FailedIn(s, plan, score, LostSession(r))
    {
      Note();
      r := Call(id, WriteFile(u));
      FollowNext(s, plan, at);
    }

    /** The next chunk of the data, which is the plan's next update. */
    method WritePiece(id: nat, offset: nat, data: bytes, written: nat, chunk: nat, ghost s: Score, ghost plan: seq<Update>, ghost at: nat, ghost end: nat)
      returns (r: Result<Payload, Error>, n: nat)
      requires Inside(id) && Careful() && chunk >= 1 && written < |data|
      requires Carries(plan, at, end, offset, data, written, chunk) && score == Followed(s, plan, at)
      modifies this`ledger, this`slowest, this`score, this`writesSent, card
      ensures Careful() && 0 < n <= |data| - written && at < end && Carries(plan, at + 1, end, offset, data, written + n, chunk)
      ensures r.Ok? ==> score == Followed(s, plan, at + 1) && Inside(id)
      ensures r.Err? ==> FailedIn(s, plan, score, LostSession(r))
    {
      var part := data[written..Min(written + chunk, |data|)];
      PieceNext(plan, at, end, offset, data, written, chunk);
      r := CallWrite(id, Update(offset + written, part), s, plan, at);
      n := |part|;
    }

    /** writeChunks: one command per chunk, each noted before it is sent. The ghost
        arguments place these pieces in a longer plan begun at score s. */
    method WriteChunks(id: nat, mode: CommMode, offset: nat, data: bytes, ghost s: Score, ghost plan: seq<Update>, ghost from: nat, ghost end: nat)
      returns (r: Result<(), Error>)
      requires Inside(id) && Careful()
      requires Carries(plan, from, end, offset, data, 0, MaxWriteChunk(mode))
      requires score == Followed(s, plan, from)
      modifies this`ledger, this`slowest, this`score, this`writesSent, card
      ensures Careful()
      ensures r.Ok? ==> score == Followed(s, plan, end) && Inside(id)
      ensures r.Err? ==> FailedIn(s, plan, score, LostSession(r))
    {
      var chunk := MaxWriteChunk(mode);
      ghost var to := from;
      var written := 0;
      while written < |data|
        invariant 0 <= written <= |data|
        invariant Carries(plan, to, end, offset, data, written, chunk)
        invariant Inside(id)
        invariant Careful()
        invariant score == Followed(s, plan, to)
      {
        var a, n := WritePiece(id, offset, data, written, chunk, s, plan, to, end);
        if a.Err? { return Err(a.error); }
        written := written + n;
        to := to + 1;
      }
      r := Ok(());
    }

    /** The body of a native NDEF write: clear the length, write the message, write its
        length. What the card confirms follows the plan, in order and without gaps. */
    method WriteNdefBody(id: nat, mode: CommMode, data: bytes) returns (r: Result<Payload, Error>)
      requires Inside(id) && Careful()
      modifies this`ledger, this`slowest, this`score, this`writesSent, card
      ensures Careful()
      ensures NativeWrite(old(score), score, mode, data, r)
      ensures r.Ok? ==> Inside(id)
    {
      ghost var s := score;
      ghost var plan := Plan(data, MaxWriteChunk(mode));
      PlanPieces(data, mode);
      var a := WriteChunks(id, mode, 0, [0, 0], s, plan, 0, 1);
      if a.Err? { return Err(a.error); }
      a := WriteChunks(id, mode, 2, data, s, plan, 1, |plan| - 1);
      if a.Err? { return Err(a.error); }
      a := WriteChunks(id, mode, 0, Be16(|data|), s, plan, |plan| - 1, |plan|);
      if a.Err? { return Err(a.error); }
      return Ok(Blank);
    }
  }

  /** The score after n noted NDEF writes, of which the card confirmed these. */
  function Wrote(s: Score, us: seq<Update>, n: nat): Score {
    s.(sent := s.sent + n, changes := s.changes + n, noted := s.noted + n, accepted := s.accepted + us)
  }

  /** The score after the first n updates of the plan, all confirmed. */
  function Followed(s: Score, plan: seq<Update>, n: nat): Score
    requires n <= |plan|
  {
    Wrote(s, plan[..n], n)
  }

  /** The score after the first n updates, the last of which failed. */
  function Failed(s: Score, plan: seq<Update>, n: nat, lost: bool): Score
    requires 0 < n <= |plan|
  {
    Wrote(s, plan[..n - 1], n).(losses := s.losses + Bit(lost))
  }

  /** The score t is that of a prefix of the plan whose last update failed. */
  predicate FailedIn(s: Score, plan: seq<Update>, t: Score, lost: bool) {
    s.sent < t.sent <= s.sent + |plan| && t == Failed(s, plan, t.sent - s.sent, lost)
  }

  lemma FollowNext(s: Score, plan: seq<Update>, n: nat)
    requires n < |plan|
    ensures Wrote(Followed(s, plan, n), [plan[n]], 1) == Followed(s, plan, n + 1)
    ensures Wrote(Followed(s, plan, n), [], 1) == Failed(s, plan, n + 1, false)
  {
    assert plan[..n + 1] == plan[..n] + [plan[n]];
    assert (s.accepted + plan[..n]) + [plan[n]] == s.accepted + (plan[..n] + [plan[n]]);
    assert (s.accepted + plan[..n]) + [] == s.accepted + plan[..n];
  }

  /** What a native NDEF write leaves: the whole plan confirmed, or a prefix of it and one
      more command that failed. */
  ghost predicate NativeWrite(s: Score, t: Score, mode: CommMode, data: bytes, r: Result<Payload, Error>) {
    var plan := Plan(data, MaxWriteChunk(mode));
    if r.Ok? then t == Followed(s, plan, |plan|)
    else FailedIn(s, plan, t, LostSession(r))
  }

  lemma PlanPieces(data: bytes, mode: CommMode)
    ensures var k := MaxWriteChunk(mode);
            var plan := Plan(data, k);
            && |plan| == WriteChunkCount(|data|, mode) + 2
            && Carries(plan, 0, 1, 0, [0, 0], 0, k)
            && Carries(plan, 1, |plan| - 1, 2, data, 0, k)
            && Carries(plan, |plan| - 1, |plan|, 0, Be16(|data|), 0, k)
  {
    var k := MaxWriteChunk(mode);
    var plan := Plan(data, k);
    PlanLength(data, k);
    PlanMiddle(data, k);
    OneCarries(plan, 0, 0, [0, 0], k);
    OneCarries(plan, |plan| - 1, 0, Be16(|data|), k);
  }
}
