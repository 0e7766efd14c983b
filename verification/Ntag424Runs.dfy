/** Whole runs of the NTAG 424 DNA driver, whatever the card answers. */
module Ntag424Runs {
  import opened Bytes
  import opened Ntag424Card
  import opened Ntag424Keys
  import opened Ntag424Tag
  import opened Ntag424Session
  import opened Ntag424Files
  import opened Ntag424Ops

  datatype Operation =
    | Keys(keys: KeySet)
    | Settings(file: byte)
    | Read
    | Write(data: bytes)
    | Rights(file: byte, settings: FileSettings, encodes: bool)
    | Lock
    | NewKey(keyNo: byte, authKeyNo: byte)
    | Lrp
    | Uid
    | Resolve
    | Version(keyNo: byte)
    | Signature
    | Originality
    | Key(keyNo: byte)
    | Writable
    | Sdm(ndef: bytes, settings: FileSettings, encodes: bool, meta: byte, key: byte, decodes: bytes -> bool, verifies: bytes -> bool)
    | Client

  method Perform(t: Tag, op: Operation)
    requires t.Agreed() && t.Careful()
    modifies t, t.card
    ensures t.Agreed() && t.Careful()
    ensures t.keys == if op.Keys? then op.keys else old(t.keys)
  {
    match op
    case Keys(keys) => SetKeys(t, keys);
    case Settings(file) => var _ := GetFileSettings(t, file);
    case Read => var _ := ReadData(t);
    case Write(data) => var _, _ := WriteData(t, data);
    case Rights(file, settings, encodes) => var _ := ChangeFileSettings(t, file, settings, encodes);
    case Lock => var _, _ := MakeReadOnly(t);
    case NewKey(keyNo, authKeyNo) => var _ := Ntag424Ops.ChangeKey(t, keyNo, authKeyNo);
    case Lrp => var _ := EnableLRP(t);
    case Uid => var _ := GetCardUid(t);
    case Resolve => ResolveUidForReader(t);
    case Version(keyNo) => var _ := GetKeyVersion(t, keyNo);
    case Signature => var _ := ReadSignature(t);
    case Originality => var _ := ReadOriginality(t);
    case Key(keyNo) => var _ := ConfiguredKey(t, keyNo);
    case Writable => var _, _, _ := IsWritable(t);
    case Sdm(ndef, settings, encodes, meta, key, decodes, verifies) =>
      var _, _ := ConfigureSDM(t, ndef, settings, encodes, meta, key, decodes, verifies);
    case Client => var _ := Transceive(t);
  }

  /** A session the driver holds is one the card holds, under the same key; and since the
      keys last changed the card has refused each key at most once, and was sent no
      authentication after it asked for a delay. */
  ghost predicate Sound(t: Tag)
    reads t, t.card
  {
    && (t.session.Some? ==> t.card.session == Some(Session(t.session.value, t.sessionKeyNo)))
    && (forall k: byte :: Refusals(Since(t.card.history, t.eraStart), k) <= 1)
    && QuietAfterDelay(Since(t.card.history, t.eraStart))
  }

  lemma InvariantsAreSound(t: Tag)
    requires t.Agreed() && t.Careful()
    ensures Sound(t)
  {
    forall k: byte
      ensures Refusals(Since(t.card.history, t.eraStart), k) <= 1 && QuietAfterDelay(Since(t.card.history, t.eraStart))
    {
      LockoutBound(t.card.history, t.card.took, t.eraStart, k);
    }
    LockoutBound(t.card.history, t.card.took, t.eraStart, 0);
  }

  /** Over every run, from a card in any state and whatever it answers, the driver is sound
      at each operation boundary. */
  method Run(card: Card, presented: bytes, randomId: bool, keys: KeySet, budget: Option<Budget>, ops: seq<Operation>) returns (t: Tag)
    requires card.Clocked()
    modifies card
    ensures t.card == card && Sound(t)
  {
    t := new Tag(card, presented, randomId, keys, budget, []);
    InvariantsAreSound(t);
    for i := 0 to |ops|
      invariant t.Agreed() && t.Careful() && t.card == card && fresh(t) && Sound(t)
    {
      Perform(t, ops[i]);
      InvariantsAreSound(t);
    }
  }

  /** The answers of a card that shows the fallback at fault: its settings do not parse, and
      the first update of the NDEF file gets no answer. */
  function Misleading(n: nat): Answer {
    if n == 1 then Broken
    else if n == 4 then Good(ContainerOf(0, 255, 255, true))
    else if n == 6 then Lost(false)
    else Good(Blank)
  }

  lemma MisleadingAnswers(data: bytes)
    ensures Plainly(NO_KEYS, Misleading, 0) == Some((Err(Unverified), 2)) && Unreadable(Err(Unverified))
    ensures Sends(Misleading, 2, data) && !Completes(Misleading, 2, data)
  {
    assert !Misleading(6).Good?;
  }

  const NO_KEYS := KeySet([], [], map[], false, false)

  /** On such a card, "nothing written" is reported although an update was sent. */
  method FallbackMisreports(ndef: bytes, settings: FileSettings) returns (r: Result<(), SdmError>, t: Tag)
    requires IsPlan(ndef)
    ensures r.Err? && r.error.SdmFailed? && r.error.state.NothingWritten? && t.score.changes > 0
  {
    var card := new Card(Misleading, (_: nat) => true, (_: nat) => 1);
    t := new Tag(card, [], false, NO_KEYS, None, []);
    MisleadingAnswers(ndef[2..]);
    ghost var c;
    r, c := ConfigureSDM(t, ndef, settings, true, 0x0F, 0x0F, (_: bytes) => true, (_: bytes) => true);
  }

  /** A file that anyone may read and write, in plain. */
  const OPEN_FILE := FileSettings(ACCESS_FREE, ACCESS_FREE, ACCESS_FREE, 0, CommMode.Plain, 0)

  /** The answers of a card that shows an open file and then does not answer the select. */
  function Vanishing(n: nat): Answer {
    if n == 1 then Good(SettingsOf(OPEN_FILE)) else if n == 2 then Lost(false) else Good(Blank)
  }

  lemma VanishingAnswers(data: bytes)
    ensures Plainly(NO_KEYS, Vanishing, 0) == Some((Ok(OPEN_FILE), 2)) && RouteFor(NO_KEYS, OPEN_FILE, true) == Some(IsoPath)
    ensures !Sends(Vanishing, 2, data) && !Completes(Vanishing, 2, data)
  {}

  /** On such a card, an interrupted NDEF write is reported although none was sent. */
  method InterruptionMisreports(ndef: bytes, settings: FileSettings) returns (r: Result<(), SdmError>, t: Tag)
    requires IsPlan(ndef)
    ensures r.Err? && r.error.SdmFailed? && r.error.state.NdefIndeterminate? && t.score.changes == 0
  {
    var card := new Card(Vanishing, (_: nat) => true, (_: nat) => 1);
    t := new Tag(card, [], false, NO_KEYS, None, []);
    VanishingAnswers(ndef[2..]);
    ghost var c;
    r, c := ConfigureSDM(t, ndef, settings, true, 0x0F, 0x0F, (_: bytes) => true, (_: bytes) => true);
  }

  const ONE_KEY := KeySet([], [], map[0 := Zeros(16)], false, false)

  /** Time for what a change of settings is taken to need, at one tick an exchange. */
  const SHORT_BUDGET := Budget(SETTINGS_EXCHANGES, 1)

  /** The answers of a card that shows a file and takes every command. */
  function Showing(n: nat): Answer {
    if n == 1 then Good(SettingsOf(OPEN_FILE)) else Good(Blank)
  }

  function OneTick(n: nat): nat { 1 }

  lemma {:induction false} TicksAre(n: nat)
    ensures Elapsed(OneTick, 0, n) == n
  {
    if n > 0 {
      TicksAre(n - 1);
    }
  }

  lemma TicksCounted(t: Tag)
    requires t.Careful() && t.card.took == OneTick
    ensures t.card.now == t.score.sent
  {
    BookMeans(t.card.history, t.card.took, t.eraStart);
    TicksAre(t.card.sent);
  }

  lemma ShowingAnswers(uid: bytes)
    ensures Obliging(Showing) && Showing(1) == Good(SettingsOf(OPEN_FILE))
    ensures ChangeKeyFor(ONE_KEY, OPEN_FILE) == Some(0) && HasKey(ONE_KEY, 0, uid) && !ONE_KEY.diversify && !ONE_KEY.allowLrp
    ensures Affords(Some(SHORT_BUDGET), 0, 0, SETTINGS_EXCHANGES)
  {}

  /** On such a card, which takes the least time per exchange that is counted on, a change of
      settings that was found to fit the budget sends six exchanges where five were asked for
      and ends after the deadline. */
  method EstimateFallsShort(settings: FileSettings) returns (r: Result<(), Error>, t: Tag)
    ensures r.Ok? && t.score.applied == 1 && t.score.latest == Some((FILE_NDEF, settings))
    ensures t.score.sent == 6 > SETTINGS_EXCHANGES && t.budget == Some(SHORT_BUDGET) && t.card.now > SHORT_BUDGET.deadline
  {
    var card := new Card(Showing, (_: nat) => true, OneTick);
    t := new Tag(card, [], false, ONE_KEY, Some(SHORT_BUDGET), []);
    ShowingAnswers(t.KeyUid());
    r := ChangeFileSettings(t, FILE_NDEF, settings, true);
    TicksCounted(t);
  }
}
