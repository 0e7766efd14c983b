/** An NTAG 424 DNA as its driver meets it: commands go out, and what comes back is the
    card's free choice. The card keeps one secure session of its own, and the exchanges
    and their consequences are recorded for the theorems. */
module Ntag424Card {
  import opened Bytes
  import opened Type4Plan

  datatype CommMode = Plain | Mac | Full

  /** Access rights are key numbers, or one of these two. */
  const ACCESS_FREE: byte := 0x0E
  const ACCESS_NEVER: byte := 0x0F

  datatype FileSettings = FileSettings(read: byte, write: byte, readWrite: byte, change: byte, mode: CommMode, size: nat)

  // ---- commands ----

  /** Native commands sent inside a session. */
  datatype SecureOp =
    | GetSettings(file: byte) | ReadFile(offset: nat, length: nat) | WriteFile(update: Update)
    | ChangeSettings(file: byte, settings: FileSettings) | ChangeKey(keyNo: byte, own: bool)
    | GetUid | GetVersion(keyNo: byte) | ReadSig | EnableLrp

  /** ISO commands of the Type 4 path. */
  datatype IsoOp = SelectFile | ReadContainer | ReadBinary(offset: nat, length: nat) | UpdateBinary(update: Update)

  datatype Command =
    | SelectApp
    | AuthFirst(lrp: bool, keyNo: byte)
    | AuthSecond(lrp: bool, keyNo: byte)
    | Secure(session: nat, op: SecureOp)
    | PlainSettings(file: byte)
    | PlainVersion(keyNo: byte)
    | Iso(iso: IsoOp)
    | Raw

  /** What an answer carries when it is good. */
  datatype Payload =
    | Blank | SettingsOf(settings: FileSettings) | UidOf(uid: bytes) | DataOf(data: bytes)
    | LrpChallenge | ContainerOf(fileSize: nat, mle: nat, mlc: nat, writable: bool)

  /** What the driver makes of an answer: no answer at all, one too short for a status word,
      a status word other than success, an answer that does not verify or parse, or a good
      one. */
  datatype Answer = Lost(removed: bool) | Short | Refused(sw1: byte, sw2: byte) | Broken | Good(payload: Payload)

  /** 91 AE, 91 1E, 91 7E. */
  predicate IsLoss(sw1: byte, sw2: byte) { sw1 == 0x91 && (sw2 == 0xAE || sw2 == 0x1E || sw2 == 0x7E) }

  /** 91 AD. */
  predicate IsDelay(sw1: byte, sw2: byte) { sw1 == 0x91 && sw2 == 0xAD }

  /** The card answers every command well, and none with an LRP challenge. */
  ghost predicate Obliging(answers: nat -> Answer) {
    forall n: nat :: answers(n).Good? && !answers(n).payload.LrpChallenge?
  }

  datatype Exchange = Exchange(command: Command, answer: Answer)

  /** Exchanges in the order they happened. */
  datatype History = Start | Then(before: History, last: Exchange)

  predicate IsAuth(c: Command) { c.AuthFirst? || c.AuthSecond? }

  /** The card's state changes for good. */
  predicate IsChange(c: Command) {
    || (c.Secure? && (c.op.WriteFile? || c.op.ChangeSettings? || c.op.ChangeKey? || c.op.EnableLrp?))
    || (c.Iso? && c.iso.UpdateBinary?)
  }

  predicate IsSettingsChange(c: Command) { c.Secure? && c.op.ChangeSettings? }

  /** The settings of a file that an answer shows. */
  function SettingsShown(x: Exchange): Option<(byte, FileSettings)> {
    if !x.answer.Good? || !x.answer.payload.SettingsOf? then None
    else if x.command.PlainSettings? then Some((x.command.file, x.answer.payload.settings))
    else if x.command.Secure? && x.command.op.GetSettings? then Some((x.command.op.file, x.answer.payload.settings))
    else None
  }

  predicate LosesSession(x: Exchange) {
    x.command.Secure? && x.answer.Refused? && IsLoss(x.answer.sw1, x.answer.sw2)
  }

  /** The driver takes the key as turned down: a status other than success to either part of
      an authentication, no status at all, or a second answer that does not prove the key. */
  predicate IsRefusal(x: Exchange, keyNo: byte) {
    IsAuth(x.command) && x.command.keyNo == keyNo
    && (x.answer.Refused? || x.answer.Short? || (x.command.AuthSecond? && x.answer.Broken?))
  }

  predicate IsDelayAnswer(x: Exchange) {
    IsAuth(x.command) && x.answer.Refused? && IsDelay(x.answer.sw1, x.answer.sw2)
  }

  // ---- the card's session ----

  datatype Session = Session(id: nat, keyNo: byte)

  /** Changing the session's own key, or switching to LRP, ends the session. */
  predicate EndsSession(op: SecureOp) { (op.ChangeKey? && op.own) || op.EnableLrp? }

  /** The session the card holds after the n-th exchange. A select, an authentication
      or any command sent outside the session clears it, an error answer drops it, and
      when the driver got no usable answer the card may or may not have acted. */
  function SessionAfter(s: Option<Session>, c: Command, a: Answer, n: nat, acted: bool): Option<Session> {
    match c
    case AuthSecond(_, keyNo) =>
      if a.Good? || (acted && !a.Refused?) then Some(Session(n, keyNo)) else None
    case Secure(id, op) =>
      if s.None? || s.value.id != id || a.Refused? then None
      else if a.Good? then (if EndsSession(op) then None else s)
      else if acted then s
      else None
    case Raw => if acted then s else None
    case _ => if a.Lost? && !acted then s else None
  }

  /** A card that does not hold the session cannot answer a command of it well. */
  function Possible(s: Option<Session>, c: Command, a: Answer): Answer {
    if c.Secure? && a.Good? && (s.None? || s.value.id != c.session) then Refused(0x91, 0xAE) else a
  }

  // ---- counting what was exchanged ----

  /** How often the card refused the key. */
  function Refusals(h: History, keyNo: byte): nat {
    match h
    case Start => 0
    case Then(before, last) => Refusals(before, keyNo) + Bit(IsRefusal(last, keyNo))
  }

  /** The card answered an authentication with 91 AD. */
  predicate AskedDelay(h: History) {
    h.Then? && (AskedDelay(h.before) || IsDelayAnswer(h.last))
  }

  /** No authentication was sent after such an answer. */
  predicate QuietAfterDelay(h: History) {
    h.Then? ==> QuietAfterDelay(h.before) && (IsAuth(h.last.command) ==> !AskedDelay(h.before))
  }

  /** The NDEF file update an exchange made, when the card confirmed it. */
  function Confirmed(x: Exchange): seq<Update> {
    if !x.answer.Good? then []
    else if x.command.Secure? && x.command.op.WriteFile? then [x.command.op.update]
    else if x.command.Iso? && x.command.iso.UpdateBinary? then [x.command.iso.update]
    else []
  }

  /** The time the exchanges from the i-th up to the j-th took. */
  function Elapsed(took: nat -> nat, i: nat, j: nat): nat
    requires i <= j
    decreases j
  {
    if i == j then 0 else Elapsed(took, i, j - 1) + took(j - 1)
  }

  function Length(h: History): nat {
    match h
    case Start => 0
    case Then(before, _) => Length(before) + 1
  }

  /** The exchanges after the first n. */
  function Since(h: History, n: nat): History {
    match h
    case Start => Start
    case Then(before, last) => if Length(h) <= n then Start else Then(Since(before, n), last)
  }

  /** A read that was answered shows this file. */
  predicate Shows(x: Exchange, f: bytes) {
    match x
    case Exchange(Secure(_, ReadFile(o, _)), Good(DataOf(d))) => o + |d| <= |f| && d == f[o..o + |d|]
    case Exchange(Iso(ReadBinary(o, n)), Good(DataOf(d))) => |d| <= n && o + |d| <= |f| && d == f[o..o + |d|]
    case _ => true
  }

  /** Every read answered after the first n exchanges shows this file. */
  predicate Truthful(h: History, n: nat, f: bytes) {
    h.Then? && Length(h) > n ==> Truthful(h.before, n, f) && Shows(h.last, f)
  }

  lemma {:induction false} TruthfulLater(h: History, n: nat, m: nat, f: bytes)
    requires n <= m && Truthful(h, n, f)
    ensures Truthful(h, m, f)
  {
    if h.Then? && Length(h) > m {
      TruthfulLater(h.before, n, m, f);
    }
  }

  class Card {
    const answers: nat -> Answer
    const acted: nat -> bool
    const took: nat -> nat
    var session: Option<Session>
    var now: nat
    var sent: nat
    ghost var history: History

    constructor (answers: nat -> Answer, acted: nat -> bool, took: nat -> nat)
      ensures this.answers == answers && this.acted == acted && this.took == took
      ensures session == None && now == 0 && sent == 0 && history == Start && Clocked()
    {
      this.answers := answers;
      this.acted := acted;
      this.took := took;
      session := None;
      now := 0;
      sent := 0;
      history := Start;
    }

    /** The time that has passed is what the exchanges took. */
    ghost predicate Clocked()
      reads this
    {
      now == Elapsed(took, 0, sent) && sent == Length(history)
    }

    /** One exchange. */
    method Transmit(c: Command) returns (a: Answer)
      modifies this
      ensures now == old(now) + took(old(sent))
      ensures a == Possible(old(session), c, answers(old(sent)))
      ensures history == Then(old(history), Exchange(c, a)) && sent == old(sent) + 1
      ensures session == SessionAfter(old(session), c, a, old(sent), acted(old(sent)))
    {
      var n := sent;
      a := Possible(session, c, answers(n));
      history := Then(history, Exchange(c, a));
      session := SessionAfter(session, c, a, n, acted(n));
      now := now + took(n);
      sent := n + 1;
    }
  }

  lemma {:induction false} ElapsedSplit(took: nat -> nat, i: nat, j: nat, k: nat)
    requires i <= j <= k
    ensures Elapsed(took, i, k) == Elapsed(took, i, j) + Elapsed(took, j, k)
    decreases k
  {
    if j < k {
      ElapsedSplit(took, i, j, k - 1);
    }
  }

  lemma OneMore(n: nat, per: nat)
    ensures (n + 1) * per == n * per + per
  {}

  lemma {:induction false} ElapsedBound(took: nat -> nat, i: nat, j: nat, per: nat)
    requires i <= j && forall k | i <= k < j :: took(k) <= per
    ensures Elapsed(took, i, j) <= (j - i) * per
    decreases j
  {
    if i < j {
      ElapsedBound(took, i, j - 1, per);
      OneMore(j - 1 - i, per);
    }
  }
}
