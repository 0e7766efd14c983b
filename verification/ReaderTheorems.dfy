/** What holds in every interleaving of the reader protocol, in the terms of the
    reader: who holds the slot, what opsWg counts, and who may be on the card. */
module ReaderTheorems {
  import opened Bytes
  import opened Counting
  import opened SlotDiscipline
  import opened ReaderProtocol
  import opened ReaderSafety

  /** A caller, of an operation or of BeginRawSession, that acquired the slot and is
      about to start or to hand it back. */
  predicate Caller(pc: Pc) {
    || (pc.Op? && (pc.op.OpAcquired? || pc.op.OpRegistered? || pc.op.OpRefused?))
    || (pc.Begin? && !pc.begin.BeginStart? && !pc.begin.BeginPublished?)
  }

  /** An operation goroutine that has not given the slot back, whether or not its
      caller still waits for it. */
  predicate Operating(pc: Pc) { pc.Op? && (pc.op.GoRunning? || pc.op.GoReturned?) }

  predicate Polling(pc: Pc) { pc.Poll? && (pc.poll.PollInside? || pc.poll.PollReturned?) }

  predicate CallerOrOperating(pc: Pc) { Caller(pc) || Operating(pc) }

  /** A goroutine that may be talking to the card: an operation, a poll, a lease being opened,
      which looks for its tag, or an exchange. */
  predicate OnCard(pc: Pc) {
    pc == Op(GoRunning) || pc == Poll(PollInside) || pc == Begin(BeginRegistered) || (pc.In? && pc.exchange.InOnCard?)
  }

  predicate HoldsTokenItself(pc: Pc) { Held(pc).token }
  predicate IsCounted(pc: Pc) { Held(pc).wg }

  /** About to receive from opSlot. */
  predicate GivingBack(pc: Pc) {
    || (pc.Op? && (pc.op.OpRefused? || pc.op.GoReturned?))
    || (pc.Poll? && pc.poll.PollReturned?)
    || (pc.Begin? && pc.begin.BeginRefused?)
    || (pc.End? && pc.end.EndRelease?)
  }

  ghost predicate Reachable(s: State, es: seq<Event>) { After(Init, es) == Some(s) }

  lemma ReachableInv(s: State, es: seq<Event>)
    requires Reachable(s, es)
    ensures Inv(s)
  {
    InitInv();
    RunKeeps(Init, es);
  }

  lemma TokenKinds(pc: Pc)
    ensures Held(pc).token == (Caller(pc) || Operating(pc) || Polling(pc))
    ensures !(Caller(pc) && Operating(pc)) && !(Caller(pc) && Polling(pc)) && !(Operating(pc) && Polling(pc))
  {}

  /** The slot holds one token per caller, operation, poll and unreleased lease, and
      at most one in all; r.lease names only a lease that holds the token. */
  lemma SlotCountsHolders(s: State, es: seq<Event>)
    requires Reachable(s, es)
    ensures s.slot == Count(s.threads, Caller) + Count(s.threads, Operating) + Count(s.threads, Polling)
                      + Count(s.leases, Unreleased)
    ensures s.slot <= 1
    ensures s.lease.Some? ==> s.lease.value in s.leases && !s.leases[s.lease.value].released
    ensures forall l | l in s.leases && !s.leases[l].ended :: s.lease == Some(l)
  {
    ReachableInv(s, es);
    forall t | t in s.threads {
      TokenKinds(s.threads[t]);
    }
    CountMap(View(s).held, s.threads, Token, HoldsTokenItself);
    CountSplit(s.threads, HoldsTokenItself, CallerOrOperating, Polling);
    CountSplit(s.threads, CallerOrOperating, Caller, Operating);
  }

  /** A goroutine at `<-opSlot` never blocks and takes the token it owns itself, or
      its lease's: nobody else holds one. */
  lemma ReceiveTakesOwnToken(s: State, es: seq<Event>, t: Tid)
    requires Reachable(s, es) && t in s.threads && GivingBack(s.threads[t])
    ensures s.slot == 1
    ensures forall u | u in s.threads && Held(s.threads[u]).token :: u == t
    ensures forall l | l in s.leases && !s.leases[l].released :: s.threads[t].End? && s.threads[t].end.l == l
  {
    ReachableInv(s, es);
    var a := View(s);
    var h := a.held[t];
    if h.token {
      CountWitness(a.held, Token, t, t);
      forall u | u in s.threads && Held(s.threads[u]).token
        ensures u == t
      {
        CountWitness(a.held, Token, t, u);
      }
      forall l | l in s.leases
        ensures s.leases[l].released
      {
        TokenExcludesLeases(a, t, l);
      }
    } else {
      var l := h.lease.value;
      CountWitness(a.leases, Unreleased, l, l);
      forall u | u in s.threads && Held(s.threads[u]).token
        ensures false
      {
        CountWitness(a.held, Token, u, u);
      }
      forall k | k in s.leases && !s.leases[k].released
        ensures k == l
      {
        CountWitness(a.leases, Unreleased, l, k);
      }
    }
  }

  // ---- a lease gives back exactly one token ----

  predicate Releases(s: State, e: Event, l: LeaseId) {
    && e.act == EndDo(EndReceive) && e.t in s.threads
    && s.threads[e.t].End? && s.threads[e.t].end.EndRelease? && s.threads[e.t].end.l == l
  }

  predicate SendsLate(s: State, e: Event, l: LeaseId) {
    && e.act == InDo(InSend) && e.t in s.threads
    && s.threads[e.t] == In(InPast(l)) && l in s.leases && s.leases[l].ended
  }

  /** What one step does to the history of a lease. */
  ghost predicate Tracks(s: State, e: Event, m: Move) {
    && (forall l: LeaseId | Releases(s, e, l) || SendsLate(s, e, l) :: m.l == Some(l))
    && (m.l.Some? && m.l.value in s.leases ==>
          var w := s.leases[m.l.value];
          && m.v.released == (w.released || Releases(s, e, m.l.value))
          && m.v.late == w.late + Bit(SendsLate(s, e, m.l.value)))
    && (m.l.Some? && m.l.value !in s.leases ==> !m.v.released && m.v.late == 0)
    && (m.l.Some? && Releases(s, e, m.l.value) ==> m.l.value in s.leases && !s.leases[m.l.value].released)
  }

  lemma BeginTracks(s: State, e: Event, m: Move)
    requires e.act.BeginDo? && Decide(s, e) == Some(m)
    ensures Tracks(s, e, m)
  {}

  lemma WatchTracks(s: State, e: Event, m: Move)
    requires e.act.WatchDo? && Decide(s, e) == Some(m)
    ensures Tracks(s, e, m)
  {}

  lemma InTracks(s: State, e: Event, m: Move)
    requires e.act.InDo? && Decide(s, e) == Some(m)
    ensures Tracks(s, e, m)
  {}

  lemma EndTracks(s: State, e: Event, m: Move)
    requires e.act.EndDo? && Decide(s, e) == Some(m) && Local(s, e.t)
    ensures Tracks(s, e, m)
  {}

  lemma OtherTracks(s: State, e: Event, m: Move)
    requires !e.act.BeginDo? && !e.act.WatchDo? && !e.act.InDo? && !e.act.EndDo? && Decide(s, e) == Some(m)
    ensures Tracks(s, e, m)
  {}

  lemma StepTracks(s: State, e: Event, m: Move)
    requires Inv(s) && Decide(s, e) == Some(m)
    ensures Tracks(s, e, m)
  {
    match e.act
    case BeginDo(_) => BeginTracks(s, e, m);
    case WatchDo(_) => WatchTracks(s, e, m);
    case InDo(_) => InTracks(s, e, m);
    case EndDo(_) =>
      LocalFacts(s, e.t);
      EndTracks(s, e, m);
    case _ => OtherTracks(s, e, m);
  }

  /** How many of the events give the lease's token back. */
  function ReleaseCount(s: State, es: seq<Event>, l: LeaseId): nat
    requires After(s, es).Some?
    decreases |es|
  {
    if es == [] then 0
    else Bit(Releases(s, es[0], l)) + ReleaseCount(Apply(s, es[0]).value, es[1..], l)
  }

  predicate IsReleased(s: State, l: LeaseId) { l in s.leases && s.leases[l].released }

  lemma ReleaseStep(s: State, e: Event, s': State, l: LeaseId)
    requires Inv(s) && Next(s, e, s')
    ensures Bit(IsReleased(s', l)) == Bit(IsReleased(s, l)) + Bit(Releases(s, e, l))
  {
    StepTracks(s, e, Decide(s, e).value);
  }

  lemma {:induction false} ReleaseCountFrom(s: State, es: seq<Event>, l: LeaseId)
    requires Inv(s) && After(s, es).Some?
    ensures ReleaseCount(s, es, l) + Bit(IsReleased(s, l)) == Bit(IsReleased(After(s, es).value, l))
    decreases |es|
  {
    if es != [] {
      var s1 := Apply(s, es[0]).value;
      StepKeeps(s, es[0], s1);
      ReleaseStep(s, es[0], s1, l);
      ReleaseCountFrom(s1, es[1..], l);
    }
  }

  /** However many parties race to end a lease, its token goes back at most once over
      the whole run; once the lease has ended it has gone back, or exactly the
      goroutine that ended it is still on its way to give it back. */
  lemma LeaseReleasedOnce(s: State, es: seq<Event>, l: LeaseId)
    requires Reachable(s, es)
    ensures ReleaseCount(Init, es, l) == Bit(IsReleased(s, l))
    ensures l in s.leases && s.leases[l].ended && !s.leases[l].released ==>
              exists t :: t in s.threads && Held(s.threads[t]).owes && Held(s.threads[t]).lease == Some(l)
                          && forall u | u in s.threads && Held(s.threads[u]).owes && Held(s.threads[u]).lease == Some(l) :: u == t
  {
    InitInv();
    ReleaseCountFrom(Init, es, l);
    ReachableInv(s, es);
    if l in s.leases && s.leases[l].ended && !s.leases[l].released {
      var t := s.leases[l].ender.value;
      assert View(s).held[t].owes;
      forall u | u in s.threads && Held(s.threads[u]).owes && Held(s.threads[u]).lease == Some(l)
        ensures u == t
      {
        assert View(s).held[u].owes;
      }
    }
  }

  // ---- opsWg ----

  predicate OpRegisteredOrRunning(pc: Pc) {
    pc.Op? && (pc.op.OpRegistered? || pc.op.GoRunning? || pc.op.GoReturned? || pc.op.GoReleased?)
  }

  predicate Opening(pc: Pc) {
    pc.Begin? && (pc.begin.BeginRegistered? || pc.begin.BeginFailed? || pc.begin.BeginPublished?)
  }

  predicate Watching(pc: Pc) {
    pc.Watch? || (pc.End? && !pc.end.EndStart? && pc.end.from == Watcher)
  }

  predicate OperatingOrOpening(pc: Pc) { OpRegisteredOrRunning(pc) || Opening(pc) }

  lemma WgKinds(pc: Pc)
    ensures Held(pc).wg == (OpRegisteredOrRunning(pc) || Opening(pc) || Watching(pc))
    ensures !(OpRegisteredOrRunning(pc) && Opening(pc)) && !(OpRegisteredOrRunning(pc) && Watching(pc))
    ensures !(Opening(pc) && Watching(pc))
  {}

  /** opsWg is the number of registered operations, openLease calls past
      registration and live watchers, and so never negative. */
  lemma WaitGroupCounts(s: State, es: seq<Event>)
    requires Reachable(s, es)
    ensures s.opsWg == Count(s.threads, OpRegisteredOrRunning) + Count(s.threads, Opening) + Count(s.threads, Watching)
  {
    ReachableInv(s, es);
    forall t | t in s.threads {
      WgKinds(s.threads[t]);
    }
    CountMap(View(s).held, s.threads, Waits, IsCounted);
    CountSplit(s.threads, IsCounted, OperatingOrOpening, Watching);
    CountSplit(s.threads, OperatingOrOpening, OpRegisteredOrRunning, Opening);
  }

  lemma GateStep(s: State, e: Event, s': State)
    requires Inv(s) && Next(s, e, s') && s.opsClosed
    ensures s'.opsClosed && s'.opsWg <= s.opsWg
  {
    MoveFair(s, e, Decide(s, e).value);
  }

  /** Once the gate is closed it stays closed and opsWg only falls, over any further
      run: no Add can race the drain's Wait. */
  lemma {:induction false} GateStaysClosed(s: State, es: seq<Event>)
    requires Inv(s) && s.opsClosed && After(s, es).Some?
    ensures After(s, es).value.opsClosed && After(s, es).value.opsWg <= s.opsWg
    decreases |es|
  {
    if es != [] {
      var s1 := Apply(s, es[0]).value;
      StepKeeps(s, es[0], s1);
      GateStep(s, es[0], s1);
      GateStaysClosed(s1, es[1..]);
    }
  }

  predicate Drained(s: State, t: Tid) { t in s.threads && s.threads[t] == Stop(StopDrained) }

  lemma DrainedIsFinal(s: State, e: Event)
    requires Drained(s, e.t)
    ensures Decide(s, e).None?
  {}

  lemma OthersUntouched(s: State, t: Tid, m: Move, u: Tid)
    requires u in s.threads && u != t && (m.child.Some? ==> m.child.value !in s.threads)
    ensures u in Perform(s, t, m).threads && Perform(s, t, m).threads[u] == s.threads[u]
  {}

  lemma {:induction false} DrainedStays(s: State, es: seq<Event>, t: Tid)
    requires Inv(s) && Drained(s, t) && After(s, es).Some?
    ensures Drained(After(s, es).value, t)
    decreases |es|
  {
    if es != [] {
      var e := es[0];
      var m := Decide(s, e).value;
      if e.t == t {
        DrainedIsFinal(s, e);
        assert false;
      }
      MoveFair(s, e, m);
      OthersUntouched(s, e.t, m, t);
      StepKeeps(s, e, Apply(s, e).value);
      DrainedStays(Apply(s, e).value, es[1..], t);
    }
  }

  /** A Stop whose drain completed leaves the reader quiet for good: in every later
      state no operation goroutine is left, and every lease has ended. */
  lemma DrainedStopIsQuiet(s: State, es: seq<Event>, t: Tid, later: seq<Event>)
    requires Reachable(s, es) && Drained(s, t) && After(s, later).Some?
    ensures var s' := After(s, later).value;
            && (forall u | u in s'.threads :: !OpRegisteredOrRunning(s'.threads[u]))
            && (forall l | l in s'.leases :: s'.leases[l].ended)
  {
    ReachableInv(s, es);
    RunKeeps(s, later);
    DrainedStays(s, later, t);
    var s' := After(s, later).value;
    var a := View(s');
    assert a.held[t].drained;
    forall l | l in s'.leases
      ensures s'.leases[l].ended
    {
      if !s'.leases[l].ended {
        CountZero(a.held, Waits, s'.leases[l].keeper);
        assert false;
      }
    }
    forall u | u in s'.threads
      ensures !OpRegisteredOrRunning(s'.threads[u])
    {
      CountZero(a.held, Waits, u);
    }
  }

  // ---- the card ----

  /** Two exchanges of one lease are never on the card together. */
  lemma ExchangesDoNotOverlap(s: State, es: seq<Event>, t: Tid, u: Tid, l: LeaseId)
    requires Reachable(s, es)
    requires t in s.threads && s.threads[t] == In(InOnCard(l))
    requires u in s.threads && s.threads[u] == In(InOnCard(l))
    ensures t == u
  {
    ReachableInv(s, es);
    assert View(s).held[t].exec && View(s).held[u].exec;
  }

  /** How many exchanges on the lease the events start after it ended. */
  function LateCount(s: State, es: seq<Event>, l: LeaseId): nat
    requires After(s, es).Some?
    decreases |es|
  {
    if es == [] then 0
    else Bit(SendsLate(s, es[0], l)) + LateCount(Apply(s, es[0]).value, es[1..], l)
  }

  function LateOf(s: State, l: LeaseId): nat { if l in s.leases then s.leases[l].late else 0 }

  lemma LateStep(s: State, e: Event, s': State, l: LeaseId)
    requires Inv(s) && Next(s, e, s')
    ensures LateOf(s', l) == LateOf(s, l) + Bit(SendsLate(s, e, l))
  {
    StepTracks(s, e, Decide(s, e).value);
  }

  lemma {:induction false} LateCountFrom(s: State, es: seq<Event>, l: LeaseId)
    requires Inv(s) && After(s, es).Some?
    ensures LateCount(s, es, l) + LateOf(s, l) == LateOf(After(s, es).value, l)
    decreases |es|
  {
    if es != [] {
      var s1 := Apply(s, es[0]).value;
      StepKeeps(s, es[0], s1);
      LateStep(s, es[0], s1, l);
      LateCountFrom(s1, es[1..], l);
    }
  }

  /** Over any run, single exchanges and sequence steps alike, at most one exchange on
      a lease starts after the lease ended. */
  lemma AtMostOneLateExchange(s: State, es: seq<Event>, l: LeaseId)
    requires Reachable(s, es)
    ensures LateCount(Init, es, l) <= 1
  {
    InitInv();
    LateCountFrom(Init, es, l);
    ReachableInv(s, es);
  }

  /** Two parties on the card at once: one of them is an exchange on a lease that has
      already ended. */
  lemma CardIsExclusive(s: State, es: seq<Event>, t: Tid, u: Tid)
    requires Reachable(s, es)
    requires t in s.threads && u in s.threads && t != u
    requires OnCard(s.threads[t]) && OnCard(s.threads[u])
    ensures exists k | k in {t, u} :: s.threads[k].In? && s.threads[k].exchange.l in s.leases
                                       && s.leases[s.threads[k].exchange.l].ended
  {
    ReachableInv(s, es);
    var a := View(s);
    var g, h := a.held[t], a.held[u];
    if g.token && h.token {
      CountWitness(a.held, Token, t, u);
    } else if g.token {
      TokenExcludesLeases(a, t, h.lease.value);
      assert s.threads[u].In? && s.leases[s.threads[u].exchange.l].ended;
    } else if h.token {
      TokenExcludesLeases(a, u, g.lease.value);
      assert s.threads[t].In? && s.leases[s.threads[t].exchange.l].ended;
    } else {
      var l, k := g.lease.value, h.lease.value;
      assert g.exec && h.exec && l != k;
      if !s.leases[l].ended && !s.leases[k].ended {
        CountWitness(a.leases, Unreleased, l, k);
      }
    }
  }

  lemma {:induction false} AfterExtend(s: State, es: seq<Event>, e: Event)
    requires After(s, es).Some? && Apply(After(s, es).value, e).Some?
    ensures After(s, es + [e]) == Apply(After(s, es).value, e)
    decreases |es|
  {
    if es == [] {
      assert [e][1..] == [];
    } else {
      assert (es + [e])[1..] == es[1..] + [e];
      AfterExtend(Apply(s, es[0]).value, es[1..], e);
    }
  }

  lemma Take(s: State, es: seq<Event>, t: Tid, act: Act) returns (s': State, es': seq<Event>)
    requires Reachable(s, es) && Apply(s, Event(t, act)).Some?
    ensures Reachable(s', es') && Apply(s, Event(t, act)) == Some(s')
  {
    s', es' := Apply(s, Event(t, act)).value, es + [Event(t, act)];
    AfterExtend(Init, es, Event(t, act));
  }

  lemma LeaseRegisters() returns (s: State, es: seq<Event>)
    ensures Reachable(s, es)
    ensures s == Init.(slot := 1, opsWg := 1, threads := map[0 := Begin(BeginRegistered)])
  {
    s, es := Take(Init, [], 0, Spawn(Begin(BeginStart)));
    s, es := Take(s, es, 0, BeginDo(BeginAcquire));
    s, es := Take(s, es, 0, BeginDo(BeginRegister));
  }

  lemma LeaseOpens() returns (s: State, es: seq<Event>)
    ensures Reachable(s, es)
    ensures s == State(1, false, 1, false, Some(7), map[7 := NoLease.(keeper := 1)],
                       map[0 := Finished, 1 := Watch(WatchLoop(7))])
  {
    s, es := LeaseRegisters();
    s, es := Take(s, es, 0, BeginDo(BeginPublish(7)));
    s, es := Take(s, es, 0, BeginDo(BeginWatch(1)));
  }

  lemma ExchangeFindsLease() returns (s: State, es: seq<Event>)
    ensures Reachable(s, es)
    ensures s == State(1, false, 1, false, Some(7), map[7 := NoLease.(keeper := 1)],
                       map[0 := Finished, 1 := Watch(WatchLoop(7)), 2 := In(InFound(7))])
  {
    s, es := LeaseOpens();
    s, es := Take(s, es, 2, Spawn(In(InStart)));
    s, es := Take(s, es, 2, InDo(InLookup(7)));
  }

  lemma ExchangePassesCheck() returns (s: State, es: seq<Event>)
    ensures Reachable(s, es)
    ensures s == State(1, false, 1, false, Some(7), map[7 := NoLease.(keeper := 1, exec := Some(2))],
                       map[0 := Finished, 1 := Watch(WatchLoop(7)), 2 := In(InPast(7))])
  {
    s, es := ExchangeFindsLease();
    s, es := Take(s, es, 2, InDo(InLock));
    s, es := Take(s, es, 2, InDo(InCheck));
  }

  lemma EndRequested() returns (s: State, es: seq<Event>)
    ensures Reachable(s, es)
    ensures s == State(1, false, 1, false, Some(7), map[7 := NoLease.(keeper := 1, exec := Some(2))],
                       map[0 := Finished, 1 := Watch(WatchLoop(7)), 2 := In(InPast(7)), 3 := End(EndMark(7, EndRequest))])
  {
    s, es := ExchangePassesCheck();
    s, es := Take(s, es, 3, Spawn(End(EndStart)));
    s, es := Take(s, es, 3, EndDo(EndLookup(7)));
  }

  lemma LeaseMarked() returns (s: State, es: seq<Event>)
    ensures Reachable(s, es)
    ensures s == State(1, false, 1, false, Some(7),
                       map[7 := NoLease.(keeper := 1, exec := Some(2), ended := true, ender := Some(3))],
                       map[0 := Finished, 1 := Watch(WatchLoop(7)), 2 := In(InPast(7)), 3 := End(EndClear(7, EndRequest))])
  {
    s, es := EndRequested();
    s, es := Take(s, es, 3, EndDo(EndMarkIt));
  }

  lemma LeaseEnds() returns (s: State, es: seq<Event>)
    ensures Reachable(s, es)
    ensures s == State(0, false, 1, false, None,
                       map[7 := NoLease.(keeper := 1, exec := Some(2), ended := true, ender := Some(3), released := true)],
                       map[0 := Finished, 1 := Watch(WatchLoop(7)), 2 := In(InPast(7)), 3 := Finished])
  {
    s, es := LeaseMarked();
    s, es := Take(s, es, 3, EndDo(EndClearIt));
    s, es := Take(s, es, 3, EndDo(EndReceive));
  }

  lemma NextOperationRegisters() returns (s: State, es: seq<Event>)
    ensures Reachable(s, es)
    ensures s.threads == map[0 := Finished, 1 := Watch(WatchLoop(7)), 2 := In(InPast(7)), 3 := Finished, 4 := Op(OpRegistered)]
    ensures 7 in s.leases && s.leases[7].ended && s.leases[7].late == 0
  {
    s, es := LeaseEnds();
    s, es := Take(s, es, 4, Spawn(Op(OpStart)));
    s, es := Take(s, es, 4, OpDo(OpAcquire));
    s, es := Take(s, es, 4, OpDo(OpRegister));
  }

  lemma NextOperationRuns() returns (s: State, es: seq<Event>)
    ensures Reachable(s, es)
    ensures 2 in s.threads && s.threads[2] == In(InPast(7)) && 5 in s.threads && s.threads[5] == Op(GoRunning)
    ensures 7 in s.leases && s.leases[7].ended && s.leases[7].late == 0
  {
    s, es := NextOperationRegisters();
    s, es := Take(s, es, 4, OpDo(OpLaunch(5)));
  }

  lemma BothOnCard() returns (s: State, es: seq<Event>)
    ensures Reachable(s, es)
    ensures 2 in s.threads && s.threads[2] == In(InOnCard(7)) && 5 in s.threads && s.threads[5] == Op(GoRunning)
    ensures LateOf(s, 7) == 1
  {
    s, es := NextOperationRuns();
    s, es := Take(s, es, 2, InDo(InSend));
  }

  /** The exception in CardIsExclusive is real, and so is the one late exchange: a run
      in which an exchange past its ended check overlaps the operation that holds the
      slot next. */
  lemma LateExchangeCanOverlap() returns (s: State, es: seq<Event>)
    ensures Reachable(s, es)
    ensures 2 in s.threads && s.threads[2] == In(InOnCard(7))
    ensures 5 in s.threads && s.threads[5] == Op(GoRunning)
    ensures LateCount(Init, es, 7) == 1
  {
    s, es := BothOnCard();
    InitInv();
    LateCountFrom(Init, es, 7);
  }
}
