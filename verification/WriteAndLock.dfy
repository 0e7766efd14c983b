/** A verified write and an irreversible lock, on a tag that may fail or misread at will. */
module WriteAndLock {
  import opened Bytes

  datatype Fault = Removed | ReadOnly | TooLarge | NotSupported | Transient

  /** isPermanentWriteError: no use trying again. */
  predicate IsPermanent(f: Fault) { !f.Transient? }

  datatype Kind = Plain | Formatting | AndLock

  /** What was asked of the tag, and what it answered. */
  datatype Event =
    | Wrote(kind: Kind, data: bytes, fault: Option<Fault>)
    | ReadBack(result: Result<bytes, Fault>)
    | LockSent(fault: Option<Fault>)

  class Tag {
    const onWrite: nat -> Option<Fault>
    const onRead: nat -> Result<bytes, Fault>
    const onLock: nat -> Option<Fault>
    const advanced: bool      // writes with options
    const atomic: bool        // writes and locks in one operation
    const locker: bool
    const snapshot: bool      // its reads do not see writes
    const capacity: nat       // 0 when it reports none
    var clock: nat
    ghost var trace: seq<Event>

    constructor (onWrite: nat -> Option<Fault>, onRead: nat -> Result<bytes, Fault>, onLock: nat -> Option<Fault>,
                 advanced: bool, atomic: bool, locker: bool, snapshot: bool, capacity: nat)
      ensures this.onWrite == onWrite && this.onRead == onRead && this.onLock == onLock
      ensures this.advanced == advanced && this.atomic == atomic && this.locker == locker
      ensures this.snapshot == snapshot && this.capacity == capacity && trace == []
    {
      this.onWrite, this.onRead, this.onLock := onWrite, onRead, onLock;
      this.advanced, this.atomic, this.locker := advanced, atomic, locker;
      this.snapshot, this.capacity := snapshot, capacity;
      clock, trace := 0, [];
    }

    method WriteData(kind: Kind, data: bytes) returns (fault: Option<Fault>)
      modifies this
      ensures fault == onWrite(old(clock)) && trace == old(trace) + [Wrote(kind, data, fault)]
    {
      fault := onWrite(clock);
      trace := trace + [Wrote(kind, data, fault)];
      clock := clock + 1;
    }

    method ReadData() returns (r: Result<bytes, Fault>)
      modifies this
      ensures r == onRead(old(clock)) && trace == old(trace) + [ReadBack(r)]
    {
      r := onRead(clock);
      trace := trace + [ReadBack(r)];
      clock := clock + 1;
    }

    method MakeReadOnly() returns (fault: Option<Fault>)
      modifies this
      ensures fault == onLock(old(clock)) && trace == old(trace) + [LockSent(fault)]
    {
      fault := onLock(clock);
      trace := trace + [LockSent(fault)];
      clock := clock + 1;
    }
  }

  datatype Options = Options(force: bool, skipVerify: bool, maxAttempts: int, skipCapacity: bool, lock: bool)

  const DEFAULT_ATTEMPTS: nat := 3

  function Limit(o: Options): (n: nat)
    ensures n >= 1
  {
    if o.maxAttempts <= 0 then DEFAULT_ATTEMPTS else o.maxAttempts
  }

  function KindFor(t: Tag, o: Options): Kind {
    if o.force && t.advanced then Formatting else if o.lock && t.atomic then AndLock else Plain
  }

  predicate Verifies(t: Tag, o: Options) { !o.skipVerify && !t.snapshot }

  // ---- attempts ----

  /** One turn of the loop, by how it ended. */
  datatype Attempt =
    | WriteFailed(fault: Fault)
    | ReadFailed(fault: Fault)
    | Mismatch(got: bytes)
    | Confirmed
    | Unverified

  predicate IsRetried(a: Attempt) { ((a.WriteFailed? || a.ReadFailed?) && !IsPermanent(a.fault)) || a.Mismatch? }

  predicate IsDone(a: Attempt) { a.Confirmed? || a.Unverified? }

  /** The events of an attempt. */
  function Events(a: Attempt, kind: Kind, data: bytes): seq<Event> {
    match a
    case WriteFailed(f) => [Wrote(kind, data, Some(f))]
    case ReadFailed(f) => [Wrote(kind, data, None), ReadBack(Err(f))]
    case Mismatch(got) => [Wrote(kind, data, None), ReadBack(Ok(got))]
    case Confirmed => [Wrote(kind, data, None), ReadBack(Ok(data))]
    case Unverified => [Wrote(kind, data, None)]
  }

  function Trace(attempts: seq<Attempt>, kind: Kind, data: bytes): seq<Event> {
    if attempts == [] then []
    else
      var n := |attempts| - 1;
      Trace(attempts[..n], kind, data) + Events(attempts[n], kind, data)
  }

  /** An attempt that fits the policy: without verification nothing is read back. */
  predicate Fits(a: Attempt, data: bytes, verify: bool) {
    match a
    case WriteFailed(_) => true
    case Unverified => !verify
    case Mismatch(got) => verify && got != data
    case _ => verify
  }

  datatype WriteError = NotEncodable | Faulted(fault: Fault) | Exhausted | LockFailed(fault: Fault)

  datatype WriteResult = WriteResult(bytesWritten: nat, verified: bool, attempts: nat, locked: bool)

  /** The loop: every attempt but the last was retried, and the last decides the outcome. */
  ghost predicate Looped(attempts: seq<Attempt>, limit: nat, kind: Kind, data: bytes, verify: bool, r: Result<WriteResult, WriteError>) {
    && 1 <= |attempts| <= limit
    && (forall i | 0 <= i < |attempts| :: Fits(attempts[i], data, verify))
    && (forall i | 0 <= i < |attempts| - 1 :: IsRetried(attempts[i]))
    && var last := attempts[|attempts| - 1];
       if IsDone(last) then r == Ok(WriteResult(|data|, last.Confirmed?, |attempts|, kind.AndLock?))
       else if IsRetried(last) then |attempts| == limit && r == Err(Exhausted)
       else r == Err(Faulted(last.fault))
  }

  /** One attempt: the write, and the read back when there is one. */
  method TryOnce(t: Tag, kind: Kind, data: bytes, verify: bool) returns (a: Attempt)
    modifies t
    ensures t.trace == old(t.trace) + Events(a, kind, data) && Fits(a, data, verify)
    ensures (forall i :: t.onWrite(i).None?) && !verify ==> a.Unverified?
  {
    var fault := t.WriteData(kind, data);
    if fault.Some? { return WriteFailed(fault.value); }
    if !verify { return Unverified; }
    var got := t.ReadData();
    if got.Err? { return ReadFailed(got.error); }
    return if got.value == data then Confirmed else Mismatch(got.value);
  }

  /** writeMessageToCard, for a message that replaces what the card holds. */
  method WriteMessageToCard(t: Tag, encoded: Option<bytes>, o: Options) returns (r: Result<WriteResult, WriteError>, ghost attempts: seq<Attempt>)
    modifies t
    ensures encoded.None? ==> r == Err(NotEncodable) && attempts == []
    ensures encoded.Some? && !o.skipCapacity && 0 < t.capacity < |encoded.value| ==> r == Err(Faulted(TooLarge)) && attempts == []
    ensures attempts == [] ==> r.Err? && t.trace == old(t.trace) && (encoded.None? || (!o.skipCapacity && 0 < t.capacity < |encoded.value|))
    ensures attempts != [] ==>
              && encoded.Some?
              && Looped(attempts, Limit(o), KindFor(t, o), encoded.value, Verifies(t, o), r)
              && t.trace == old(t.trace) + Trace(attempts, KindFor(t, o), encoded.value)
    ensures (forall i :: t.onWrite(i).None?) && !Verifies(t, o) && encoded.Some? && t.capacity == 0 ==> attempts == [Unverified]
  {
    attempts := [];
    if encoded.None? { return Err(NotEncodable), attempts; }
    var data := encoded.value;
    if !o.skipCapacity && t.capacity > 0 && |data| > t.capacity { return Err(Faulted(TooLarge)), attempts; }
    var limit, verify, kind := Limit(o), Verifies(t, o), KindFor(t, o);
    var attempt := 1;
    assert t.trace + [] == t.trace;
    while true
      invariant 1 <= attempt <= limit && |attempts| == attempt - 1
      invariant t.trace == old(t.trace) + Trace(attempts, kind, data)
      invariant forall i | 0 <= i < |attempts| :: Fits(attempts[i], data, verify) && IsRetried(attempts[i])
      invariant (forall i :: t.onWrite(i).None?) && !verify ==> attempts == []
      decreases limit - attempt
    {
      var a := TryOnce(t, kind, data, verify);
      ghost var before := attempts;
      attempts := attempts + [a];
      assert attempts[..|attempts| - 1] == before;
      if IsDone(a) { return Ok(WriteResult(|data|, a.Confirmed?, attempt, kind.AndLock?)), attempts; }
      if !IsRetried(a) { return Err(Faulted(a.fault)), attempts; }
      if attempt == limit { return Err(Exhausted), attempts; }
      attempt := attempt + 1;
    }
    assert false;
  }

  // ---- what the trace says ----

  function WriteCount(trace: seq<Event>): nat {
    if trace == [] then 0
    else WriteCount(trace[..|trace| - 1]) + if trace[|trace| - 1].Wrote? then 1 else 0
  }

  /** The tag answered with a permanent fault. */
  predicate Final(e: Event) {
    match e
    case Wrote(_, _, f) => f.Some? && IsPermanent(f.value)
    case ReadBack(r) => r.Err? && IsPermanent(r.error)
    case LockSent(_) => false
  }

  predicate NothingAfterFinal(trace: seq<Event>) { forall i | 0 <= i < |trace| - 1 :: !Final(trace[i]) }

  lemma {:induction false} CountAppend(a: seq<Event>, b: seq<Event>)
    ensures WriteCount(a + b) == WriteCount(a) + WriteCount(b)
    decreases |b|
  {
    if b == [] {
      assert a + b == a;
    } else {
      CountAppend(a, b[..|b| - 1]);
      assert (a + b)[..|a + b| - 1] == a + b[..|b| - 1];
    }
  }

  lemma CountOne(e: Event)
    ensures WriteCount([e]) == if e.Wrote? then 1 else 0
  {
    assert [e][..0] == [];
  }

  lemma EventsCount(a: Attempt, kind: Kind, data: bytes)
    ensures WriteCount(Events(a, kind, data)) == 1
  {
    var es := Events(a, kind, data);
    CountOne(es[0]);
    if |es| == 2 {
      CountOne(es[1]);
      CountAppend([es[0]], [es[1]]);
      assert es == [es[0]] + [es[1]];
    } else {
      assert es == [es[0]];
    }
  }

  /** The attempts are the writes. */
  lemma {:induction false} TraceCounts(attempts: seq<Attempt>, kind: Kind, data: bytes)
    ensures WriteCount(Trace(attempts, kind, data)) == |attempts|
    decreases |attempts|
  {
    if attempts != [] {
      var n := |attempts| - 1;
      TraceCounts(attempts[..n], kind, data);
      CountAppend(Trace(attempts[..n], kind, data), Events(attempts[n], kind, data));
      EventsCount(attempts[n], kind, data);
    }
  }

  /** They all write the same data, and nothing else locks. */
  lemma {:induction false} TraceWrites(attempts: seq<Attempt>, kind: Kind, data: bytes)
    ensures forall e | e in Trace(attempts, kind, data) :: !e.LockSent? && (e.Wrote? ==> e.data == data && e.kind == kind)
    decreases |attempts|
  {
    if attempts != [] {
      TraceWrites(attempts[..|attempts| - 1], kind, data);
    }
  }

  /** Attempts that were retried met no permanent fault. */
  lemma {:induction false} TraceRetried(attempts: seq<Attempt>, kind: Kind, data: bytes)
    requires forall i | 0 <= i < |attempts| :: IsRetried(attempts[i])
    ensures forall e | e in Trace(attempts, kind, data) :: !Final(e)
    decreases |attempts|
  {
    if attempts != [] {
      TraceRetried(attempts[..|attempts| - 1], kind, data);
    }
  }

  /** What a result says about the tag: as many writes as it counts, within the limit;
      nothing after a permanent fault; and verified exactly when the last thing asked was a
      read that gave back the message. */
  lemma ResultMeans(attempts: seq<Attempt>, limit: nat, kind: Kind, data: bytes, verify: bool, r: Result<WriteResult, WriteError>)
    requires Looped(attempts, limit, kind, data, verify, r)
    ensures var trace := Trace(attempts, kind, data);
            && trace != [] && NothingAfterFinal(trace) && WriteCount(trace) <= limit
            && (r.Ok? ==>
                  && r.value.attempts == WriteCount(trace)
                  && (r.value.verified <==> trace[|trace| - 1] == ReadBack(Ok(data)))
                  && (verify ==> r.value.verified)
                  && !Final(trace[|trace| - 1]))
            && (r == Err(Exhausted) ==> WriteCount(trace) == limit)
            && (r.Err? && r.error.Faulted? ==> Final(trace[|trace| - 1]))
  {
    var n := |attempts| - 1;
    var before, last := Trace(attempts[..n], kind, data), Events(attempts[n], kind, data);
    var trace := Trace(attempts, kind, data);
    TraceCounts(attempts, kind, data);
    TraceRetried(attempts[..n], kind, data);
    assert trace == before + last && trace[|trace| - 1] == last[|last| - 1];
    forall i | 0 <= i < |trace| - 1
      ensures !Final(trace[i])
    {
      if i < |before| {
        assert trace[i] in before;
      }
    }
  }

  // ---- the lock ----

  /** lockCard. */
  method LockCard(t: Tag) returns (r: Result<(), WriteError>)
    modifies t
    ensures t.trace == if t.locker then old(t.trace) + [LockSent(t.onLock(old(t.clock)))] else old(t.trace)
    ensures r.Ok? <==> t.locker && t.onLock(old(t.clock)).None?
  {
    if !t.locker { return Err(LockFailed(NotSupported)); }
    var f := t.MakeReadOnly();
    return if f.None? then Ok(()) else Err(LockFailed(f.value));
  }

  /** The trace from here on is the write loop's, and a lock after it only when the loop
      succeeded, was asked to lock and did not lock itself. */
  ghost predicate LockedLast(attempts: seq<Attempt>, kind: Kind, data: bytes, o: Options, trace: seq<Event>, r: Result<WriteResult, WriteError>) {
    var writes := Trace(attempts, kind, data);
    || trace == writes
    || (attempts != [] && IsDone(attempts[|attempts| - 1]) && o.lock && !kind.AndLock?
        && exists f: Option<Fault> :: trace == writes + [LockSent(f)] && (f.None? <==> r.Ok?))
  }

  /** WriteMessage: the write loop, then the lock. */
  method WriteMessage(t: Tag, encoded: Option<bytes>, o: Options) returns (r: Result<WriteResult, WriteError>, ghost attempts: seq<Attempt>)
    modifies t
    ensures attempts == [] ==> r.Err? && t.trace == old(t.trace) && (encoded.None? || (!o.skipCapacity && 0 < t.capacity < |encoded.value|))
    ensures attempts != [] ==>
              && encoded.Some? && old(t.trace) <= t.trace
              && LockedLast(attempts, KindFor(t, o), encoded.value, o, t.trace[|old(t.trace)|..], r)
              && exists w: Result<WriteResult, WriteError> ::
                   && Looped(attempts, Limit(o), KindFor(t, o), encoded.value, Verifies(t, o), w)
                   && (w.Err? ==> r == w) && (r.Ok? ==> r == Ok(w.value.(locked := r.value.locked)))
    ensures r.Ok? ==> (r.value.locked <==> o.lock && (KindFor(t, o).AndLock? || t.trace[|t.trace| - 1] == LockSent(None)))
    ensures r.Ok? && o.lock ==> r.value.locked
    ensures attempts != [] && IsDone(attempts[|attempts| - 1]) && t.locker && (forall i :: t.onLock(i).None?) ==> r.Ok?
    ensures (forall i :: t.onWrite(i).None?) && !Verifies(t, o) && encoded.Some? && t.capacity == 0 ==> attempts == [Unverified]
  {
    ghost var before := t.trace;
    r, attempts := WriteMessageToCard(t, encoded, o);
    ghost var w := r;
    if r.Err? { return; }
    if o.lock && !r.value.locked {
      ghost var writes := Trace(attempts, KindFor(t, o), encoded.value);
      assert t.trace == before + writes;
      var l := LockCard(t);
      assert t.trace[|before|..] == writes || exists f: Option<Fault> :: t.trace[|before|..] == writes + [LockSent(f)];
      if l.Err? { return Err(l.error), attempts; }
      r := Ok(r.value.(locked := true));
    }
  }

  // ---- when a lock means a verified write ----

  /** A command that locks the tag. */
  predicate Locks(e: Event) { e.LockSent? || (e.Wrote? && e.kind.AndLock?) }

  /** Every locking command directly follows a read that gave back the message. */
  predicate LocksVerified(trace: seq<Event>, data: bytes) {
    forall i | 0 <= i < |trace| :: Locks(trace[i]) ==> i > 0 && trace[i - 1] == ReadBack(Ok(data))
  }

  /** At most one lock, sent last, when the tag does not lock as it writes. And when anything
      locks at all, it locks after a matching read exactly when the tag does not lock as it
      writes and verification is on. */
  lemma LockMeans(attempts: seq<Attempt>, limit: nat, kind: Kind, data: bytes, verify: bool, o: Options,
                  w: Result<WriteResult, WriteError>, trace: seq<Event>, r: Result<WriteResult, WriteError>)
    requires Looped(attempts, limit, kind, data, verify, w) && LockedLast(attempts, kind, data, o, trace, r)
    ensures forall i | 0 <= i < |trace| :: trace[i].LockSent? ==> i == |trace| - 1 && w.Ok? && o.lock && !kind.AndLock?
    ensures (exists i :: 0 <= i < |trace| && Locks(trace[i])) ==> (LocksVerified(trace, data) <==> !kind.AndLock? && verify)
  {
    LockLast(attempts, limit, kind, data, verify, o, w, trace, r);
    if kind.AndLock? {
      FirstLocks(attempts, data);
      assert Locks(trace[0]);
    } else if verify {
      LockConfirmed(attempts, limit, kind, data, o, w, trace, r);
    } else if exists i :: 0 <= i < |trace| && Locks(trace[i]) {
      UnverifiedLast(attempts, limit, kind, data, w);
      var i :| 0 <= i < |trace| && Locks(trace[i]);
      assert trace[i - 1] == Trace(attempts, kind, data)[i - 1];
    }
  }

  lemma LockLast(attempts: seq<Attempt>, limit: nat, kind: Kind, data: bytes, verify: bool, o: Options,
                 w: Result<WriteResult, WriteError>, trace: seq<Event>, r: Result<WriteResult, WriteError>)
    requires Looped(attempts, limit, kind, data, verify, w) && LockedLast(attempts, kind, data, o, trace, r)
    ensures forall i | 0 <= i < |trace| :: trace[i].LockSent? ==> i == |trace| - 1 && w.Ok? && o.lock && !kind.AndLock?
    ensures !kind.AndLock? ==> forall i | 0 <= i < |trace| :: Locks(trace[i]) ==> i == |trace| - 1 && trace == Trace(attempts, kind, data) + [trace[i]]
  {
    var writes := Trace(attempts, kind, data);
    TraceWrites(attempts, kind, data);
    assert forall i | 0 <= i < |writes| :: writes[i] in writes;
  }

  lemma LockConfirmed(attempts: seq<Attempt>, limit: nat, kind: Kind, data: bytes, o: Options,
                      w: Result<WriteResult, WriteError>, trace: seq<Event>, r: Result<WriteResult, WriteError>)
    requires Looped(attempts, limit, kind, data, true, w) && LockedLast(attempts, kind, data, o, trace, r) && !kind.AndLock?
    ensures LocksVerified(trace, data)
  {
    LockLast(attempts, limit, kind, data, true, o, w, trace, r);
    ResultMeans(attempts, limit, kind, data, true, w);
  }

  /** Without verification a loop that succeeded ends with the write itself. */
  lemma UnverifiedLast(attempts: seq<Attempt>, limit: nat, kind: Kind, data: bytes, w: Result<WriteResult, WriteError>)
    requires Looped(attempts, limit, kind, data, false, w)
    ensures var trace := Trace(attempts, kind, data); trace != [] && trace[|trace| - 1].Wrote?
  {
    var n := |attempts| - 1;
    assert Fits(attempts[n], data, false);
  }

  /** With verification skipped, or on a tag whose reads are snapshots, a lock follows a write
      that nothing confirmed, whatever else is asked for. */
  method UnverifiedLock(data: bytes, o: Options, snapshot: bool) returns (t: Tag, r: Result<WriteResult, WriteError>)
    requires o.lock && (o.skipVerify || snapshot)
    ensures !LocksVerified(t.trace, data)
  {
    t := new Tag((_: nat) => None, (_: nat) => Err(Transient), (_: nat) => None, false, false, true, snapshot, 0);
    ghost var attempts;
    r, attempts := WriteMessage(t, Some(data), o);
    UnverifiedTrace(data);
    assert r.Ok? && t.trace[0..] == t.trace;
    assert t.trace[|t.trace| - 1] == LockSent(None);
    assert |t.trace| == 2 && t.trace[0].Wrote? && t.trace[1].LockSent?;
  }

  /** A write that locks as it writes locks before anything is read back. */
  method LockedBeforeRead(data: bytes, o: Options) returns (t: Tag, r: Result<WriteResult, WriteError>)
    requires o.lock && !o.force
    ensures !LocksVerified(t.trace, data)
  {
    t := new Tag((_: nat) => None, (_: nat) => Err(Removed), (_: nat) => None, false, true, true, false, 0);
    ghost var attempts;
    r, attempts := WriteMessage(t, Some(data), o);
    FirstLocks(attempts, data);
    assert t.trace[0..] == t.trace && Locks(t.trace[0]);
  }

  lemma UnverifiedTrace(data: bytes)
    ensures Trace([Unverified], Plain, data) == [Wrote(Plain, data, None)]
  {
    assert [Unverified][..0] == [];
  }

  lemma {:induction false} FirstLocks(attempts: seq<Attempt>, data: bytes)
    requires attempts != []
    ensures Trace(attempts, AndLock, data) != [] && Trace(attempts, AndLock, data)[0].Wrote? && Trace(attempts, AndLock, data)[0].kind.AndLock?
    decreases |attempts|
  {
    var n := |attempts| - 1;
    if n > 0 {
      FirstLocks(attempts[..n], data);
    } else {
      assert attempts[..0] == [];
    }
  }
}
