/** The keys held for an NTAG 424 DNA, the errors its driver tells apart, and the
    decisions it takes from them alone. */
module Ntag424Keys {
  import opened Bytes
  import opened Type4Plan
  import opened Ntag424Card

  const KEY_SIZE: nat := 16

  /** A master key the per-card keys derive from, and keys held by number. */
  datatype KeySet = KeySet(master: bytes, systemId: bytes, slots: map<byte, bytes>, diversify: bool, allowLrp: bool)

  predicate EmptyKeys(k: KeySet) { k.master == [] && k.slots == map[] }

  /** Diversification takes the constant, the UID and the system ID in one 32-byte block. */
  predicate Derives(k: KeySet, uid: bytes) { uid != [] && 1 + |uid| + |k.systemId| <= 32 }

  /** KeySet.Key finds a key for the number on the card with this UID. */
  predicate HasKey(k: KeySet, keyNo: byte, uid: bytes) {
    if keyNo in k.slots then |k.slots[keyNo]| == KEY_SIZE
    else keyNo <= 4 && |k.master| == KEY_SIZE && (!k.diversify || Derives(k, uid))
  }

  /** holds: a key for the number, without asking the card anything. */
  predicate Holds(k: KeySet, keyNo: byte) {
    if keyNo in k.slots then |k.slots[keyNo]| == KEY_SIZE else keyNo <= 4 && |k.master| == KEY_SIZE
  }

  /** anyHeldKey, from n on: the lowest key number held. */
  function LowestHeld(k: KeySet, n: byte): (r: Option<byte>)
    ensures r.Some? ==> n <= r.value <= 4 && Holds(k, r.value)
    ensures forall m: byte | n <= m <= 4 && Holds(k, m) :: r.Some? && r.value <= m
    decreases 256 - n
  {
    if n > 4 then None else if Holds(k, n) then Some(n) else LowestHeld(k, n + 1)
  }

  /** The lowest slot, from n on, that holds a whole key. */
  function LowestSlot(k: KeySet, n: nat): (r: Option<byte>)
    requires n <= 256
    ensures r.Some? ==> n <= r.value && r.value in k.slots && |k.slots[r.value]| == KEY_SIZE
    ensures forall m: byte | n <= m && m in k.slots && |k.slots[m]| == KEY_SIZE :: r.Some? && r.value <= m
    decreases 256 - n
  {
    if n == 256 then None
    else if n in k.slots && |k.slots[n]| == KEY_SIZE then Some(n)
    else LowestSlot(k, n + 1)
  }

  /** resolverKey: a key that does not derive from the UID. */
  function ResolverKey(k: KeySet): Option<byte> {
    var slot := LowestSlot(k, 0);
    if slot.Some? then slot
    else if !k.diversify && |k.master| == KEY_SIZE then Some(0)
    else None
  }

  /** The key for this number derives from the UID. */
  predicate Derived(k: KeySet, keyNo: byte) { k.diversify && keyNo !in k.slots }

  /** The key resolverKey picks never itself needs the UID. */
  lemma ResolverNotDerived(k: KeySet)
    ensures ResolverKey(k).Some? ==> !Derived(k, ResolverKey(k).value)
  {}

  // ---- errors ----

  datatype Error =
    | Removed                           // the card left
    | Transport                         // no answer
    | Status(sw1: byte, sw2: byte)
    | Unverified                        // an answer that does not verify, parse or fit
    | NoKeys | NoKeyFor(keyNo: byte) | NoResolver | LrpNotAllowed | AuthDelayed
    | Auth(cause: Error)
    | ReadOnly(cause: Error) | NoPayload | TooLong | NotSupported | Deadline | Invalid

  /** The status word an error carries, through its wrappers. */
  function StatusIn(e: Error): Option<(byte, byte)> {
    match e
    case Status(a, b) => Some((a, b))
    case Auth(c) => StatusIn(c)
    case ReadOnly(c) => StatusIn(c)
    case _ => None
  }

  predicate IsRemoved(e: Error) {
    match e
    case Removed => true
    case Auth(c) => IsRemoved(c)
    case ReadOnly(c) => IsRemoved(c)
    case _ => false
  }

  /** errors.Is(err, ErrSessionLost). */
  predicate IsSessionLost(e: Error) {
    var s := StatusIn(e);
    s.Some? && IsLoss(s.value.0, s.value.1)
  }

  /** settingsDenied: the settings are shown only under a key this agent cannot supply. */
  predicate SettingsDenied(e: Error) {
    var s := StatusIn(e);
    s.Some? && (s.value.1 == 0xAE || (s.value.0 == 0x91 && s.value.1 == 0x9D))
  }

  function LostError(a: Answer): Error
    requires a.Lost?
  {
    if a.removed then Removed else Transport
  }

  /** The error of an answer that is not good. */
  function ErrorOf(a: Answer): Error
    requires !a.Good?
  {
    match a
    case Lost(_) => LostError(a)
    case Refused(x, y) => Status(x, y)
    case Short => Unverified
    case Broken => Unverified
  }

  /** What a command comes to by its answer. */
  function Taken(a: Answer): Result<Payload, Error> {
    if a.Good? then Ok(a.payload) else Err(ErrorOf(a))
  }

  // ---- the time budget ----

  datatype Budget = Budget(deadline: int, floor: nat)

  /** What one exchange is taken to need: the slowest seen, and never less than the floor. */
  function PerExchange(b: Budget, slowest: nat): nat { if slowest >= b.floor then slowest else b.floor }

  /** Require: a step of this many exchanges fits in what is left. */
  predicate Affords(b: Option<Budget>, slowest: nat, now: nat, exchanges: nat) {
    b.None? || exchanges * PerExchange(b.value, slowest) <= b.value.deadline - now
  }

  // ---- routes ----

  datatype Route = IsoPath | Native(keyNo: byte, mode: CommMode)

  /** routeFor: how the NDEF file is reached, from its settings and the keys held. */
  function RouteFor(k: KeySet, fs: FileSettings, write: bool): Option<Route> {
    var first := if write then fs.write else fs.read;
    var free := first == ACCESS_FREE || fs.readWrite == ACCESS_FREE;
    if free && fs.mode == Plain then Some(IsoPath)
    else if free then
      var any := LowestHeld(k, 0);
      if any.Some? then Some(Native(any.value, fs.mode)) else None
    else if first <= 4 then (if Holds(k, first) then Some(Native(first, fs.mode)) else None)
    else if fs.readWrite <= 4 then (if Holds(k, fs.readWrite) then Some(Native(fs.readWrite, fs.mode)) else None)
    else None
  }

  /** The right lets key keyNo, or anyone, do it. */
  predicate Grants(right: byte, keyNo: byte) { right == ACCESS_FREE || right == keyNo }

  /** A route is one the rights grant: the ISO path only to a file anyone may reach in
      plain, and a session only under a held key that a right names, or any held key
      when a right is open. */
  lemma RouteIsGranted(k: KeySet, fs: FileSettings, write: bool)
    ensures var r := RouteFor(k, fs, write);
            var right := if write then fs.write else fs.read;
            && (r == Some(IsoPath) <==> fs.mode == Plain && (right == ACCESS_FREE || fs.readWrite == ACCESS_FREE))
            && (r.Some? && r.value.Native? ==>
                  && Holds(k, r.value.keyNo) && r.value.mode == fs.mode
                  && (Grants(right, r.value.keyNo) || Grants(fs.readWrite, r.value.keyNo)))
  {}

  // ---- locking ----

  /** The settings MakeReadOnly asks for: the write rights denied to every key, and the read
      right taken over from the read-write right when it was denied. */
  function Locked(fs: FileSettings): FileSettings {
    fs.(read := if fs.read == ACCESS_NEVER then fs.readWrite else fs.read, write := ACCESS_NEVER, readWrite := ACCESS_NEVER)
  }

  /** A locked file has no write route, whatever keys are held; its change right is kept, so
      whoever could change the settings still can. */
  lemma LockedDeniesWrites(k: KeySet, fs: FileSettings)
    ensures RouteFor(k, Locked(fs), true).None? && ChangeKeyFor(k, Locked(fs)) == ChangeKeyFor(k, fs)
  {}

  /** Key keyNo may read the file. */
  predicate MayRead(fs: FileSettings, keyNo: byte) { Grants(fs.read, keyNo) || Grants(fs.readWrite, keyNo) }

  predicate IsGrant(right: byte) { right <= 4 || right == ACCESS_FREE }

  /** Locking keeps every reader exactly when the read-write right gave no one more than the
      read right does, or the read right was denied. */
  lemma LockedKeepsReaders(fs: FileSettings)
    ensures (forall keyNo: byte | keyNo <= 4 :: MayRead(fs, keyNo) ==> MayRead(Locked(fs), keyNo))
            <==> fs.read == ACCESS_NEVER || fs.read == ACCESS_FREE || fs.readWrite == fs.read || !IsGrant(fs.readWrite)
  {
    if fs.read != ACCESS_NEVER && fs.read != ACCESS_FREE && fs.readWrite != fs.read && IsGrant(fs.readWrite) {
      var lost: byte := if fs.readWrite <= 4 then fs.readWrite else if fs.read == 0 then 1 else 0;
      assert MayRead(fs, lost) && !MayRead(Locked(fs), lost);
    }
  }

  /** A route is missed although the rights grant a held key exactly when the first right
      names a key that is not held and the read-write right names one that is. */
  lemma RouteMisses(k: KeySet, fs: FileSettings, write: bool)
    ensures var right := if write then fs.write else fs.read;
            RouteFor(k, fs, write).None? && (exists n: byte :: n <= 4 && Holds(k, n) && (Grants(right, n) || Grants(fs.readWrite, n)))
            <==> right <= 4 && !Holds(k, right) && fs.readWrite <= 4 && Holds(k, fs.readWrite)
  {
    var right := if write then fs.write else fs.read;
    if right <= 4 && !Holds(k, right) && fs.readWrite <= 4 && Holds(k, fs.readWrite) {
      assert Grants(fs.readWrite, fs.readWrite);
    }
  }

  /** Key 1 alone is held, for a file that key 2 may write and key 1 may read and write. */
  lemma RouteMissed()
    ensures var k := KeySet([], [], map[1 := Zeros(KEY_SIZE)], false, false);
            var fs := FileSettings(ACCESS_NEVER, 2, 1, 0, Full, 256);
            Holds(k, 1) && Grants(fs.readWrite, 1) && RouteFor(k, fs, true).None?
  {
    assert 1 in map[1 := Zeros(KEY_SIZE)];
  }

  /** Key 1 may read and write a file that key 0 may read, and after a lock it may not read. */
  lemma ReaderLost()
    ensures var fs := FileSettings(0, ACCESS_NEVER, 1, 0, Plain, 256);
            MayRead(fs, 1) && !MayRead(Locked(fs), 1)
  {}

  /** changeKeyFor. */
  function ChangeKeyFor(k: KeySet, fs: FileSettings): Option<byte> {
    if fs.change == ACCESS_NEVER then None
    else if fs.change == ACCESS_FREE then LowestHeld(k, 0)
    else if fs.change <= 4 && Holds(k, fs.change) then Some(fs.change)
    else None
  }

  /** MaxWriteChunk: 255 bytes less the header and what the mode adds. */
  function MaxWriteChunk(mode: CommMode): (k: nat)
    ensures k >= 2
  {
    match mode
    case Plain => 248
    case Mac => 240
    case Full => 239
  }

  /** writeChunkCount. */
  function WriteChunkCount(n: nat, mode: CommMode): nat {
    ChunkCount(n, MaxWriteChunk(mode))
  }
}
