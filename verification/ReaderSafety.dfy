/** The reader protocol follows the slot discipline at every step, and what that
    gives over every run. */
module ReaderSafety {
  import opened Bytes
  import opened Counting
  import opened SlotDiscipline
  import opened ReaderProtocol

  // ---- what a goroutine holds, by where it is ----

  function HeldByOp(pc: OpPc): Holdings {
    match pc
    case OpAcquired | OpRefused => Nothing.(token := true)
    case OpRegistered | GoRunning | GoReturned => Nothing.(token := true, wg := true)
    case GoReleased => Nothing.(wg := true)
    case OpStart | OpAwaiting => Nothing
  }

  function HeldByPoll(pc: PollPc): Holdings {
    if pc.PollInside? || pc.PollReturned? then Nothing.(token := true) else Nothing
  }

  function HeldByBegin(pc: BeginPc): Holdings {
    match pc
    case BeginStart => Nothing
    case BeginAcquired | BeginRefused => Nothing.(token := true)
    case BeginRegistered | BeginFailed => Nothing.(token := true, wg := true)
    case BeginPublished(l) => Nothing.(wg := true, lease := Some(l), keeps := true)
  }

  function HeldByWatch(pc: WatchPc): Holdings {
    match pc
    case WatchExiting => Nothing.(wg := true)
    case _ => Nothing.(wg := true, lease := Some(pc.l), keeps := true, exec := pc.WatchExec?)
  }

  function HeldByIn(pc: InPc): Holdings {
    match pc
    case InStart => Nothing
    case _ => Nothing.(lease := Some(pc.l), exec := !pc.InFound?, past := pc.InPast?)
  }

  function HeldByEnd(pc: EndPc): Holdings {
    match pc
    case EndStart => Nothing
    case _ =>
      Nothing.(lease := Some(pc.l), wg := pc.from == Watcher, keeps := pc.from == Watcher, exec := pc.from == Exchange,
               owes := !pc.EndMark?, cleared := pc.EndRelease?)
  }

  function HeldByStop(pc: StopPc): Holdings {
    Nothing.(waiting := pc.StopWaiting? || pc.StopDrained?, drained := pc.StopDrained?)
  }

  function Held(pc: Pc): Holdings {
    match pc
    case Op(p) => HeldByOp(p)
    case Poll(p) => HeldByPoll(p)
    case Begin(p) => HeldByBegin(p)
    case Watch(p) => HeldByWatch(p)
    case In(p) => HeldByIn(p)
    case End(p) => HeldByEnd(p)
    case Stop(p) => HeldByStop(p)
    case Finished => Nothing
  }

  function View(s: State): Discipline {
    Discipline(s.slot, s.opsClosed, s.opsWg, s.lease, s.leases, map t | t in s.threads :: Held(s.threads[t]))
  }

  ghost predicate Inv(s: State) { Kept(View(s)) }

  ghost predicate Next(s: State, e: Event, s': State) { Apply(s, e) == Some(s') }

  /** The change a move makes to what is held. */
  function ChangeOf(t: Tid, m: Move): Change {
    Change(t, Held(m.pc), m.child, Held(m.childPc), m.l, m.v, m.lease, m.slot, m.opsClosed, m.opsWg)
  }

  lemma MoveIsChange(s: State, t: Tid, m: Move)
    ensures View(Perform(s, t, m)) == Make(View(s), ChangeOf(t, m))
  {}

  // ---- what the invariant says about one goroutine ----

  predicate LeaseSane(v: Lease) { v.late <= Bit(v.ended) && (v.released ==> v.ended) }

  /** What goroutine t may rely on about itself, its lease and the shared fields. */
  ghost predicate Local(s: State, t: Tid) {
    var h := if t in s.threads then Held(s.threads[t]) else Nothing;
    && Coherent(h)
    && (h.lease.Some? ==> h.lease.value in s.leases && LeaseSane(s.leases[h.lease.value]))
    && (h.exec ==> s.leases[h.lease.value].exec == Some(t))
    && (h.past ==> s.leases[h.lease.value].late == 0)
    && (h.owes ==> var v := s.leases[h.lease.value]; v.ended && !v.released && v.ender == Some(t))
    && (h.cleared ==> s.lease != h.lease)
    && (h.keeps ==> h.wg && s.leases[h.lease.value].keeper == t)
    && (h.waiting ==> s.opsClosed) && (h.drained ==> s.opsWg == 0)
    && (s.lease.Some? ==> s.lease.value in s.leases)
    && Bit(h.wg) <= s.opsWg
    && Bit(h.token || h.owes) <= s.slot <= 1
    && (h.token ==> s.lease.None?)
  }

  /** A goroutine that owns the token shares it with no lease: all have ended. */
  lemma TokenExcludesLeases(a: Discipline, t: Tid, l: LeaseId)
    requires Tokens(a) && t in a.held && a.held[t].token && l in a.leases
    ensures a.leases[l].released
  {
    CountWitness(a.held, Token, t, t);
    if !a.leases[l].released {
      CountWitness(a.leases, Unreleased, l, l);
    }
  }

  lemma LocalFacts(s: State, t: Tid)
    requires Inv(s)
    ensures Local(s, t)
  {
    var a := View(s);
    if t in s.threads {
      var h := a.held[t];
      assert h == Held(s.threads[t]);
      if h.wg {
        CountWitness(a.held, Waits, t, t);
      }
      if h.token {
        CountWitness(a.held, Token, t, t);
        if a.field.Some? {
          TokenExcludesLeases(a, t, a.field.value);
        }
      }
      if h.owes {
        CountWitness(a.leases, Unreleased, h.lease.value, h.lease.value);
      }
    }
  }

  // ---- every step follows the discipline ----

  lemma SpawnFair(s: State, t: Tid, pc: Pc)
    requires t !in s.threads && Start(pc) && Local(s, t)
    ensures Fair(View(s), ChangeOf(t, Go(s, pc)))
  {}

  lemma OpFair(s: State, t: Tid, pc: OpPc, a: OpAct, m: Move)
    requires t in s.threads && s.threads[t] == Op(pc) && Local(s, t)
    requires OpStep(s, pc, a) == Some(m)
    ensures Fair(View(s), ChangeOf(t, m))
  {
    assert HeldBy(View(s), t) == HeldByOp(pc);
  }

  lemma PollFair(s: State, t: Tid, pc: PollPc, a: PollAct, m: Move)
    requires t in s.threads && s.threads[t] == Poll(pc) && Local(s, t)
    requires PollStep(s, pc, a) == Some(m)
    ensures Fair(View(s), ChangeOf(t, m))
  {
    assert HeldBy(View(s), t) == HeldByPoll(pc);
  }

  lemma BeginFair(s: State, t: Tid, pc: BeginPc, a: BeginAct, m: Move)
    requires t in s.threads && s.threads[t] == Begin(pc) && Local(s, t)
    requires BeginStep(s, t, pc, a) == Some(m)
    requires pc.BeginRegistered? ==> forall l | l in s.leases :: s.leases[l].ended
    ensures Fair(View(s), ChangeOf(t, m))
  {
    assert HeldBy(View(s), t) == HeldByBegin(pc);
  }

  lemma WatchFair(s: State, t: Tid, pc: WatchPc, a: WatchAct, m: Move)
    requires t in s.threads && s.threads[t] == Watch(pc) && Local(s, t)
    requires WatchStep(s, t, pc, a) == Some(m)
    ensures Fair(View(s), ChangeOf(t, m))
  {
    assert HeldBy(View(s), t) == HeldByWatch(pc);
  }

  lemma InLockFair(s: State, t: Tid, pc: InPc, a: InAct, m: Move)
    requires t in s.threads && s.threads[t] == In(pc) && Local(s, t)
    requires pc.InStart? || pc.InFound? || pc.InLeaving?
    requires InStep(s, t, pc, a) == Some(m)
    ensures Fair(View(s), ChangeOf(t, m))
  {
    assert HeldBy(View(s), t) == HeldByIn(pc);
  }

  lemma InSendFair(s: State, t: Tid, pc: InPc, a: InAct, m: Move)
    requires t in s.threads && s.threads[t] == In(pc) && Local(s, t)
    requires pc.InExec? || pc.InPast?
    requires InStep(s, t, pc, a) == Some(m)
    ensures Fair(View(s), ChangeOf(t, m))
  {
    assert HeldBy(View(s), t) == HeldByIn(pc);
  }

  lemma InReplyFair(s: State, t: Tid, pc: InPc, a: InAct, m: Move)
    requires t in s.threads && s.threads[t] == In(pc) && Local(s, t)
    requires pc.InOnCard? && a.InReply?
    requires InStep(s, t, pc, a) == Some(m)
    ensures Fair(View(s), ChangeOf(t, m))
  {
    assert HeldBy(View(s), t) == HeldByIn(pc);
    match a.reply
    case Answered(more) => assert m.pc == In(if more then InExec(pc.l) else InLeaving(pc.l));
    case CardRemoved => assert m.pc == End(EndMark(pc.l, Exchange));
    case Failed => assert m.pc == In(InLeaving(pc.l));
  }

  lemma EndMarkFair(s: State, t: Tid, pc: EndPc, a: EndAct, m: Move)
    requires t in s.threads && s.threads[t] == End(pc) && Local(s, t)
    requires pc.EndStart? || (pc.EndMark? && !s.leases[pc.l].ended)
    requires EndStep(s, t, pc, a) == Some(m)
    ensures Fair(View(s), ChangeOf(t, m))
  {
    assert HeldBy(View(s), t) == HeldByEnd(pc);
  }

  lemma EndAgainFair(s: State, t: Tid, pc: EndPc, a: EndAct, m: Move)
    requires t in s.threads && s.threads[t] == End(pc) && Local(s, t)
    requires pc.EndMark? && s.leases[pc.l].ended
    requires EndStep(s, t, pc, a) == Some(m)
    ensures Fair(View(s), ChangeOf(t, m))
  {
    assert HeldBy(View(s), t) == HeldByEnd(pc);
  }

  lemma EndReleaseFair(s: State, t: Tid, pc: EndPc, a: EndAct, m: Move)
    requires t in s.threads && s.threads[t] == End(pc) && Local(s, t)
    requires pc.EndClear? || pc.EndRelease?
    requires EndStep(s, t, pc, a) == Some(m)
    ensures Fair(View(s), ChangeOf(t, m))
  {
    assert HeldBy(View(s), t) == HeldByEnd(pc);
  }

  lemma StopFair(s: State, t: Tid, pc: StopPc, a: StopAct, m: Move)
    requires t in s.threads && s.threads[t] == Stop(pc) && Local(s, t)
    requires StopStep(s, pc, a) == Some(m)
    ensures Fair(View(s), ChangeOf(t, m))
  {
    assert HeldBy(View(s), t) == HeldByStop(pc);
  }

  lemma MoveFair(s: State, e: Event, m: Move)
    requires Inv(s) && Decide(s, e) == Some(m)
    ensures Fair(View(s), ChangeOf(e.t, m))
  {
    var t := e.t;
    LocalFacts(s, t);
    if t !in s.threads {
      SpawnFair(s, t, e.act.pc);
    } else {
      match e.act
      case Spawn(_) =>
      case OpDo(a) => OpFair(s, t, s.threads[t].op, a, m);
      case PollDo(a) => PollFair(s, t, s.threads[t].poll, a, m);
      case WatchDo(a) => WatchFair(s, t, s.threads[t].watch, a, m);
      case StopDo(a) => StopFair(s, t, s.threads[t].stop, a, m);
      case BeginDo(a) =>
        var pc := s.threads[t].begin;
        if pc.BeginRegistered? {
          forall l | l in s.leases
            ensures s.leases[l].ended
          {
            TokenExcludesLeases(View(s), t, l);
          }
        }
        BeginFair(s, t, pc, a, m);
      case InDo(a) =>
        var pc := s.threads[t].exchange;
        if pc.InOnCard? {
          InReplyFair(s, t, pc, a, m);
        } else if pc.InExec? || pc.InPast? {
          InSendFair(s, t, pc, a, m);
        } else {
          InLockFair(s, t, pc, a, m);
        }
      case EndDo(a) =>
        var pc := s.threads[t].end;
        if pc.EndClear? || pc.EndRelease? {
          EndReleaseFair(s, t, pc, a, m);
        } else if pc.EndMark? && s.leases[pc.l].ended {
          EndAgainFair(s, t, pc, a, m);
        } else {
          EndMarkFair(s, t, pc, a, m);
        }
    }
  }

  lemma StepKeeps(s: State, e: Event, s': State)
    requires Inv(s) && Next(s, e, s')
    ensures Inv(s')
  {
    var m := Decide(s, e).value;
    MoveFair(s, e, m);
    MoveIsChange(s, e.t, m);
    FairKeepsAll(View(s), ChangeOf(e.t, m));
  }

  // ---- runs ----

  /** The state after the events, or None when one of them was not enabled. */
  function After(s: State, es: seq<Event>): Option<State>
    decreases |es|
  {
    if es == [] then Some(s)
    else
      var s1 := Apply(s, es[0]);
      if s1.None? then None else After(s1.value, es[1..])
  }

  lemma {:induction false} RunKeeps(s: State, es: seq<Event>)
    requires Inv(s) && After(s, es).Some?
    ensures Inv(After(s, es).value)
    decreases |es|
  {
    if es != [] {
      StepKeeps(s, es[0], Apply(s, es[0]).value);
      RunKeeps(Apply(s, es[0]).value, es[1..]);
    }
  }

  lemma InitInv()
    ensures Inv(Init)
  {}
}
