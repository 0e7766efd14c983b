/** The reader's operation slot, raw-session lease and stop protocol as an
    interleaved step system: one step per lock section or channel action. */
module ReaderProtocol {
  import opened Bytes
  import opened SlotDiscipline

  /** What a caller of endLease goes back to. */
  datatype Caller = EndRequest | Watcher | Exchange | Stopper

  // ---- where a goroutine is ----

  /** withTagOperation, then the goroutine that runs the operation. */
  datatype OpPc = OpStart | OpAcquired | OpRegistered | OpRefused | OpAwaiting | GoRunning | GoReturned | GoReleased

  /** doPoll. */
  datatype PollPc = PollStart | PollChecked | PollInside | PollReturned

  /** BeginRawSession and openLease. */
  datatype BeginPc =
    | BeginStart | BeginAcquired | BeginRegistered | BeginFailed | BeginRefused | BeginPublished(l: LeaseId)

  /** watchLease. */
  datatype WatchPc = WatchLoop(l: LeaseId) | WatchDue(l: LeaseId) | WatchExec(l: LeaseId) | WatchExiting

  /** TransceiveInSession and TransceiveSequenceInSession. */
  datatype InPc =
    | InStart | InFound(l: LeaseId) | InExec(l: LeaseId) | InPast(l: LeaseId) | InOnCard(l: LeaseId) | InLeaving(l: LeaseId)

  /** EndRawSession's lookup, and endLease for any of its four callers. */
  datatype EndPc =
    | EndStart | EndMark(l: LeaseId, from: Caller) | EndClear(l: LeaseId, from: Caller) | EndRelease(l: LeaseId, from: Caller)

  /** Stop and drainOperations. */
  datatype StopPc = StopStart | StopJoining | StopDraining | StopWaiting | StopDrained

  datatype Pc =
    | Op(op: OpPc) | Poll(poll: PollPc) | Begin(begin: BeginPc) | Watch(watch: WatchPc)
    | In(exchange: InPc) | End(end: EndPc) | Stop(stop: StopPc) | Finished

  datatype State = State(
    slot: nat,                 // tokens in opSlot, a channel of capacity 1
    opsClosed: bool,
    opsWg: int,
    stopClosed: bool,
    lease: Option<LeaseId>,    // r.lease
    leases: map<LeaseId, Lease>,
    threads: map<Tid, Pc>)

  const Init := State(0, false, 0, false, None, map[], map[])

  // ---- what a goroutine can do next ----

  datatype OpAct = OpAcquire | OpGiveUp | OpRegister | OpLaunch(child: Tid) | OpReturn | OpReceive | OpWgDone
  datatype PollAct = PollSkip | PollLook | PollTry | PollReturn | PollReceive
  datatype BeginAct =
    | BeginAcquire | BeginGiveUp | BeginRegister | BeginNoTag | BeginWgDone | BeginReceive
    | BeginPublish(id: LeaseId) | BeginWatch(child: Tid)
  datatype WatchAct = WatchTimer | WatchSeesDone | WatchSeesStop | WatchLock | WatchCheck(expired: bool) | WatchWgDone
  datatype Reply = Answered(more: bool) | CardRemoved | Failed
  datatype InAct = InLookup(id: LeaseId) | InLock | InCheck | InCancel | InSend | InReply(reply: Reply) | InUnlock
  datatype EndAct = EndLookup(id: LeaseId) | EndMarkIt | EndClearIt | EndReceive
  datatype StopAct = StopClose | StopLookup | StopCloseGate | StopDrainDone | StopDrainTimeout

  datatype Act =
    | Spawn(pc: Pc)
    | OpDo(op: OpAct) | PollDo(poll: PollAct) | BeginDo(begin: BeginAct) | WatchDo(watch: WatchAct)
    | InDo(exchange: InAct) | EndDo(end: EndAct) | StopDo(stop: StopAct)

  datatype Event = Event(t: Tid, act: Act)

  // ---- steps ----

  /** What one step changes: where the goroutine goes, possibly one it starts,
      possibly one lease, and the shared fields. */
  datatype Move = Move(
    pc: Pc, child: Option<Tid>, childPc: Pc, l: Option<LeaseId>, v: Lease,
    lease: Option<LeaseId>, slot: nat, opsClosed: bool, opsWg: int, stopClosed: bool)

  const NoLease := Lease(false, None, false, None, 0, 0)

  /** Going to pc and changing nothing else. */
  function Go(s: State, pc: Pc): Move {
    Move(pc, None, Finished, None, NoLease, s.lease, s.slot, s.opsClosed, s.opsWg, s.stopClosed)
  }

  function GoWith(s: State, pc: Pc, l: LeaseId, v: Lease): Move {
    Go(s, pc).(l := Some(l), v := v)
  }

  /** Receiving from opSlot, which blocks while it is empty. */
  function GoReceive(s: State, pc: Pc): Option<Move> {
    if s.slot == 0 then None else Some(Go(s, pc).(slot := s.slot - 1))
  }

  /** opsMu's section: refuse once closed, otherwise add to opsWg. */
  function GoRegister(s: State, registered: Pc, refused: Pc): Option<Move> {
    if s.opsClosed then Some(Go(s, refused)) else Some(Go(s, registered).(opsWg := s.opsWg + 1))
  }

  function GoWgDone(s: State, pc: Pc): Option<Move> {
    Some(Go(s, pc).(opsWg := s.opsWg - 1))
  }

  /** Sending into opSlot, which blocks while it is full. */
  function GoAcquire(s: State, pc: Pc): Option<Move> {
    if s.slot == 0 then Some(Go(s, pc).(slot := 1)) else None
  }

  function Perform(s: State, t: Tid, m: Move): State {
    var threads := s.threads[t := m.pc];
    State(m.slot, m.opsClosed, m.opsWg, m.stopClosed, m.lease,
          if m.l.Some? then s.leases[m.l.value := m.v] else s.leases,
          if m.child.Some? then threads[m.child.value := m.childPc] else threads)
  }

  /** withTagOperation and the goroutine it starts. None when the step is not
      enabled: a blocked channel action, or a goroutine that is elsewhere. */
  function OpStep(s: State, pc: OpPc, a: OpAct): Option<Move> {
    match (pc, a)
    case (OpStart, OpAcquire) => GoAcquire(s, Op(OpAcquired))
    case (OpStart, OpGiveUp) => Some(Go(s, Finished))
    case (OpAcquired, OpRegister) => GoRegister(s, Op(OpRegistered), Op(OpRefused))
    case (OpRefused, OpReceive) => GoReceive(s, Finished)
    case (OpRegistered, OpLaunch(child)) =>
      if child in s.threads then None
      else Some(Go(s, Op(OpAwaiting)).(child := Some(child), childPc := Op(GoRunning)))
    case (OpAwaiting, OpGiveUp) => Some(Go(s, Finished))
    case (GoRunning, OpReturn) => Some(Go(s, Op(GoReturned)))
    case (GoReturned, OpReceive) => GoReceive(s, Op(GoReleased))
    case (GoReleased, OpWgDone) => GoWgDone(s, Finished)
    case _ => None
  }

  /** doPoll: a lease or a taken slot skips the poll. */
  function PollStep(s: State, pc: PollPc, a: PollAct): Option<Move> {
    match (pc, a)
    case (PollStart, PollSkip) => Some(Go(s, Finished))
    case (PollStart, PollLook) => Some(Go(s, if s.lease.Some? then Finished else Poll(PollChecked)))
    case (PollChecked, PollTry) => if s.slot == 0 then GoAcquire(s, Poll(PollInside)) else Some(Go(s, Finished))
    case (PollInside, PollReturn) => Some(Go(s, Poll(PollReturned)))
    case (PollReturned, PollReceive) => GoReceive(s, Finished)
    case _ => None
  }

  /** BeginRawSession and openLease. Publishing hands the token to the lease. */
  function BeginStep(s: State, t: Tid, pc: BeginPc, a: BeginAct): Option<Move> {
    match (pc, a)
    case (BeginStart, BeginAcquire) => GoAcquire(s, Begin(BeginAcquired))
    case (BeginStart, BeginGiveUp) => Some(Go(s, Finished))
    case (BeginAcquired, BeginRegister) => GoRegister(s, Begin(BeginRegistered), Begin(BeginRefused))
    case (BeginRegistered, BeginNoTag) => Some(Go(s, Begin(BeginFailed)))
    case (BeginFailed, BeginWgDone) => GoWgDone(s, Begin(BeginRefused))
    case (BeginRefused, BeginReceive) => GoReceive(s, Finished)
    case (BeginRegistered, BeginPublish(id)) =>
      if id in s.leases then None
      else Some(GoWith(s, Begin(BeginPublished(id)), id, NoLease.(keeper := t)).(lease := Some(id)))
    case (BeginPublished(l), BeginWatch(child)) =>
      if l !in s.leases || child in s.threads then None
      else
        Some(GoWith(s, Finished, l, s.leases[l].(keeper := child)).(child := Some(child), childPc := Watch(WatchLoop(l))))
    case _ => None
  }

  /** watchLease. Whether the time to live has passed is a free choice. */
  function WatchStep(s: State, t: Tid, pc: WatchPc, a: WatchAct): Option<Move> {
    match (pc, a)
    case (WatchLoop(l), WatchTimer) => Some(Go(s, Watch(WatchDue(l))))
    case (WatchLoop(l), WatchSeesDone) =>
      if l in s.leases && s.leases[l].ended then Some(Go(s, Watch(WatchExiting))) else None
    case (WatchLoop(l), WatchSeesStop) => if s.stopClosed then Some(Go(s, End(EndMark(l, Watcher)))) else None
    case (WatchDue(l), WatchLock) =>
      if l in s.leases && s.leases[l].exec.None?
      then Some(GoWith(s, Watch(WatchExec(l)), l, s.leases[l].(exec := Some(t)))) else None
    case (WatchExec(l), WatchCheck(expired)) =>
      if l !in s.leases then None
      else
        Some(GoWith(s, if expired then End(EndMark(l, Watcher)) else Watch(WatchLoop(l)), l, s.leases[l].(exec := None)))
    case (WatchExiting, WatchWgDone) => GoWgDone(s, Finished)
    case _ => None
  }

  /** TransceiveInSession, and each exchange of TransceiveSequenceInSession: a reply
      with more to send goes back to the ended check with exec still held. */
  function InStep(s: State, t: Tid, pc: InPc, a: InAct): Option<Move> {
    match (pc, a)
    case (InStart, InLookup(id)) => Some(Go(s, if s.lease == Some(id) then In(InFound(id)) else Finished))
    case (InFound(l), InLock) =>
      if l in s.leases && s.leases[l].exec.None?
      then Some(GoWith(s, In(InExec(l)), l, s.leases[l].(exec := Some(t)))) else None
    case (InExec(l), InCheck) =>
      if l !in s.leases then None else Some(Go(s, In(if s.leases[l].ended then InLeaving(l) else InPast(l))))
    case (InPast(l), InCancel) => Some(Go(s, In(InLeaving(l))))
    case (InPast(l), InSend) =>
      if l !in s.leases then None
      else
        var v := s.leases[l];
        Some(GoWith(s, In(InOnCard(l)), l, v.(late := v.late + Bit(v.ended))))
    case (InOnCard(l), InReply(Answered(more))) => Some(Go(s, In(if more then InExec(l) else InLeaving(l))))
    case (InOnCard(l), InReply(CardRemoved)) => Some(Go(s, End(EndMark(l, Exchange))))
    case (InOnCard(l), InReply(Failed)) => Some(Go(s, In(InLeaving(l))))
    case (InLeaving(l), InUnlock) =>
      if l !in s.leases then None else Some(GoWith(s, Finished, l, s.leases[l].(exec := None)))
    case _ => None
  }

  /** Where a goroutine goes when its endLease call returns. */
  function AfterEnd(l: LeaseId, from: Caller): Pc {
    match from
    case EndRequest => Finished
    case Watcher => Watch(WatchExiting)
    case Exchange => In(InLeaving(l))
    case Stopper => Stop(StopDraining)
  }

  /** endLease: only the party that finds the lease not ended clears r.lease and
      gives the token back. */
  function EndStep(s: State, t: Tid, pc: EndPc, a: EndAct): Option<Move> {
    match (pc, a)
    case (EndStart, EndLookup(id)) =>
      Some(Go(s, if s.lease == Some(id) then End(EndMark(id, EndRequest)) else Finished))
    case (EndMark(l, from), EndMarkIt) =>
      if l !in s.leases then None
      else if s.leases[l].ended then Some(Go(s, AfterEnd(l, from)))
      else Some(GoWith(s, End(EndClear(l, from)), l, s.leases[l].(ended := true, ender := Some(t))))
    case (EndClear(l, from), EndClearIt) =>
      Some(Go(s, End(EndRelease(l, from))).(lease := if s.lease == Some(l) then None else s.lease))
    case (EndRelease(l, from), EndReceive) =>
      if s.slot == 0 || l !in s.leases then None
      else Some(GoWith(s, AfterEnd(l, from), l, s.leases[l].(released := true)).(slot := s.slot - 1))
    case _ => None
  }

  /** Stop and drainOperations. Joining the worker may take any time. */
  function StopStep(s: State, pc: StopPc, a: StopAct): Option<Move> {
    match (pc, a)
    case (StopStart, StopClose) =>
      if s.stopClosed then Some(Go(s, Finished)) else Some(Go(s, Stop(StopJoining)).(stopClosed := true))
    case (StopJoining, StopLookup) =>
      Some(Go(s, if s.lease.Some? then End(EndMark(s.lease.value, Stopper)) else Stop(StopDraining)))
    case (StopDraining, StopCloseGate) => Some(Go(s, Stop(StopWaiting)).(opsClosed := true))
    case (StopWaiting, StopDrainDone) => if s.opsWg == 0 then Some(Go(s, Stop(StopDrained))) else None
    case (StopWaiting, StopDrainTimeout) => Some(Go(s, Finished))
    case _ => None
  }

  predicate Start(pc: Pc) {
    pc == Op(OpStart) || pc == Poll(PollStart) || pc == Begin(BeginStart) ||
    pc == In(InStart) || pc == End(EndStart) || pc == Stop(StopStart)
  }

  function Decide(s: State, e: Event): Option<Move> {
    if e.t in s.threads then
      match (s.threads[e.t], e.act)
      case (Op(pc), OpDo(a)) => OpStep(s, pc, a)
      case (Poll(pc), PollDo(a)) => PollStep(s, pc, a)
      case (Begin(pc), BeginDo(a)) => BeginStep(s, e.t, pc, a)
      case (Watch(pc), WatchDo(a)) => WatchStep(s, e.t, pc, a)
      case (In(pc), InDo(a)) => InStep(s, e.t, pc, a)
      case (End(pc), EndDo(a)) => EndStep(s, e.t, pc, a)
      case (Stop(pc), StopDo(a)) => StopStep(s, pc, a)
      case _ => None
    else if e.act.Spawn? && Start(e.act.pc) then Some(Go(s, e.act.pc))
    else None
  }

  function Apply(s: State, e: Event): Option<State> {
    var m := Decide(s, e);
    if m.Some? then Some(Perform(s, e.t, m.value)) else None
  }
}
