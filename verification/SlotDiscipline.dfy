/** What the reader protocol is about, with the program counters abstracted away:
    goroutines that hold the slot's token, a place in opsWg or a lease's exec
    mutex, leases that hold the token between calls, and the rules a step must
    follow so that no token is lost, duplicated or taken from another holder. */
module SlotDiscipline {
  import opened Bytes
  import opened Counting

  type Tid = nat
  type LeaseId = nat

  /** A raw-session lease. `ended` and `exec` are the source's; the rest is history
      the theorems speak of: whether its token went back, who ended it, which
      goroutine keeps it registered, and how many exchanges reached the card
      after it ended. */
  datatype Lease = Lease(ended: bool, exec: Option<Tid>, released: bool, ender: Option<Tid>, keeper: Tid, late: nat)

  /** What one goroutine holds. The flags after `lease` are about that lease. */
  datatype Holdings = Holdings(
    token: bool,            // owns the slot's token itself
    wg: bool,               // counted in opsWg
    lease: Option<LeaseId>, // the lease it works on
    exec: bool,             // holds the lease's exec mutex
    past: bool,             // has seen the lease not ended and will send
    owes: bool,             // has marked the lease ended and must give its token back
    cleared: bool,          // and has already taken it out of r.lease
    keeps: bool,            // opened the lease or watches it
    waiting: bool,          // Stop, with the gate closed
    drained: bool)          // Stop, after Wait returned

  const Nothing := Holdings(false, false, None, false, false, false, false, false, false, false)

  datatype Discipline = Discipline(
    slot: nat, closed: bool, wg: int, field: Option<LeaseId>,
    leases: map<LeaseId, Lease>, held: map<Tid, Holdings>)

  predicate Token(h: Holdings) { h.token }
  predicate Waits(h: Holdings) { h.wg }
  predicate Unreleased(v: Lease) { !v.released }

  // ---- the invariant ----

  ghost predicate Tokens(a: Discipline) {
    a.slot == Count(a.held, Token) + Count(a.leases, Unreleased) && a.slot <= 1
  }

  ghost predicate Waiters(a: Discipline) { a.wg == Count(a.held, Waits) }

  predicate Coherent(h: Holdings) {
    && (h.exec || h.past || h.owes || h.cleared || h.keeps ==> h.lease.Some?)
    && (h.past ==> h.exec) && (h.cleared ==> h.owes) && (h.drained ==> h.waiting)
  }

  ghost predicate Refs(a: Discipline) {
    forall t | t in a.held :: Coherent(a.held[t]) && (a.held[t].lease.Some? ==> a.held[t].lease.value in a.leases)
  }

  ghost predicate ExecHolders(a: Discipline)
    requires Refs(a)
  {
    forall t | t in a.held && a.held[t].exec :: a.leases[a.held[t].lease.value].exec == Some(t)
  }

  ghost predicate ExecTaken(a: Discipline) {
    forall l | l in a.leases && a.leases[l].exec.Some? ::
      var t := a.leases[l].exec.value; t in a.held && a.held[t].exec && a.held[t].lease == Some(l)
  }

  ghost predicate Execs(a: Discipline)
    requires Refs(a)
  {
    ExecHolders(a) && ExecTaken(a)
  }

  ghost predicate Debtors(a: Discipline)
    requires Refs(a)
  {
    forall t | t in a.held && a.held[t].owes ::
      var v := a.leases[a.held[t].lease.value]; v.ended && !v.released && v.ender == Some(t)
  }

  ghost predicate Debts(a: Discipline) {
    forall l | l in a.leases ::
      var v := a.leases[l];
      && (v.released ==> v.ended)
      && (v.ended && !v.released ==>
            v.ender.Some? && v.ender.value in a.held
            && a.held[v.ender.value].owes && a.held[v.ender.value].lease == Some(l))
  }

  ghost predicate Endings(a: Discipline)
    requires Refs(a)
  {
    Debtors(a) && Debts(a)
  }

  ghost predicate Fields(a: Discipline)
    requires Refs(a)
  {
    && (a.field.Some? ==> a.field.value in a.leases && !a.leases[a.field.value].released)
    && (forall t | t in a.held && a.held[t].cleared :: a.field != a.held[t].lease)
    && (forall l | l in a.leases && !a.leases[l].ended :: a.field == Some(l))
  }

  ghost predicate Lates(a: Discipline)
    requires Refs(a)
  {
    && (forall l | l in a.leases :: a.leases[l].late <= Bit(a.leases[l].ended))
    && (forall t | t in a.held && a.held[t].past :: a.leases[a.held[t].lease.value].late == 0)
  }

  ghost predicate KeptOpen(a: Discipline) {
    forall l | l in a.leases && !a.leases[l].ended ::
      var t := a.leases[l].keeper; t in a.held && a.held[t].keeps && a.held[t].lease == Some(l)
  }

  ghost predicate KeptBy(a: Discipline)
    requires Refs(a)
  {
    forall t | t in a.held && a.held[t].keeps :: a.held[t].wg && a.leases[a.held[t].lease.value].keeper == t
  }

  ghost predicate Keepers(a: Discipline)
    requires Refs(a)
  {
    KeptOpen(a) && KeptBy(a)
  }

  ghost predicate Drains(a: Discipline) {
    && (forall t | t in a.held && a.held[t].waiting :: a.closed)
    && (forall t | t in a.held && a.held[t].drained :: a.wg == 0)
  }

  ghost predicate Kept(a: Discipline) {
    Tokens(a) && Waiters(a) && Refs(a) && Execs(a) && Endings(a) && Fields(a) && Lates(a) && Keepers(a) && Drains(a)
  }

  // ---- steps ----

  /** What one step changes: the goroutine that takes it, possibly one it starts,
      possibly one lease, and the shared fields. */
  datatype Change = Change(
    t: Tid, now: Holdings,
    child: Option<Tid>, started: Holdings,
    l: Option<LeaseId>, v: Lease,
    field: Option<LeaseId>, slot: nat, closed: bool, wg: int)

  function HeldBy(a: Discipline, t: Tid): Holdings { if t in a.held then a.held[t] else Nothing }

  function Make(a: Discipline, c: Change): Discipline {
    var held := a.held[c.t := c.now];
    Discipline(c.slot, c.closed, c.wg, c.field,
               if c.l.Some? then a.leases[c.l.value := c.v] else a.leases,
               if c.child.Some? then held[c.child.value := c.started] else held)
  }

  predicate FairCounts(a: Discipline, c: Change) {
    var h := HeldBy(a, c.t);
    && FreshChild(a, c)
    && c.slot + Bit(h.token) + Bit(c.l.Some? && c.l.value in a.leases && !a.leases[c.l.value].released)
       == a.slot + Bit(c.now.token) + Bit(c.started.token) + Bit(c.l.Some? && !c.v.released)
    && c.slot <= 1
    && c.wg + Bit(h.wg) == a.wg + Bit(c.now.wg) + Bit(c.started.wg)
    && (a.closed ==> c.closed && c.wg <= a.wg)
    && (c.now.waiting ==> c.closed)
    && (c.now.drained ==> c.wg == 0)
    && !c.started.waiting && !c.started.drained
  }

  ghost predicate FairRefs(a: Discipline, c: Change) {
    && Coherent(c.now) && Coherent(c.started)
    && (c.now.lease.Some? ==> c.now.lease.value in Make(a, c).leases)
    && (c.started.lease.Some? ==> c.started.lease.value in Make(a, c).leases)
    && !c.started.exec && !c.started.owes
  }

  ghost predicate FairExec(a: Discipline, c: Change)
    requires FairRefs(a, c)
  {
    var h := HeldBy(a, c.t);
    && (c.now.exec ==> Make(a, c).leases[c.now.lease.value].exec == Some(c.t))
    && (h.exec ==> (c.now.exec && c.now.lease == h.lease) || (c.l == h.lease && c.v.exec.None?))
    && (c.l.Some? && c.l.value in a.leases ==>
          var w := a.leases[c.l.value];
          w.exec == c.v.exec || (w.exec == Some(c.t) && c.v.exec.None?)
          || (w.exec.None? && c.v.exec == Some(c.t) && c.now.exec && c.now.lease == c.l))
    && (c.l.Some? && c.l.value !in a.leases ==> c.v.exec.None?)
  }

  ghost predicate FairEnd(a: Discipline, c: Change)
    requires FairRefs(a, c)
  {
    var h := HeldBy(a, c.t);
    && (c.now.owes ==> var v := Make(a, c).leases[c.now.lease.value]; v.ended && !v.released && v.ender == Some(c.t))
    && (h.owes ==> (c.now.owes && c.now.lease == h.lease) || (c.l == h.lease && c.v.released))
    && (c.l.Some? && c.l.value in a.leases ==>
          var w := a.leases[c.l.value];
          || (w.ended == c.v.ended && w.released == c.v.released && w.ender == c.v.ender)
          || (!w.ended && c.v.ended && !c.v.released && c.v.ender == Some(c.t) && c.now.owes && c.now.lease == c.l)
          || (c.v.ended && !w.released && c.v.released && w.ender == Some(c.t) && h.owes && h.cleared && h.lease == c.l && !c.now.owes))
    && (c.l.Some? && c.l.value !in a.leases ==> !c.v.ended && !c.v.released)
  }

  ghost predicate FairField(a: Discipline, c: Change)
    requires FairRefs(a, c)
  {
    var leases := Make(a, c).leases;
    && (c.now.cleared ==> c.field != c.now.lease)
    && (c.l.Some? && c.l.value !in a.leases ==>
          c.field == c.l && forall m | m in a.leases :: a.leases[m].ended)
    && (c.field != a.field && c.field.Some? ==> c.field == c.l && c.l.value !in a.leases)
    && (c.field != a.field && c.field.None? && a.field.Some? ==> a.field.value in leases && leases[a.field.value].ended)
  }

  ghost predicate FairLate(a: Discipline, c: Change)
    requires FairRefs(a, c)
  {
    && (c.now.past ==> Make(a, c).leases[c.now.lease.value].late == 0)
    && (c.l.Some? ==> c.v.late <= Bit(c.v.ended))
    && (c.l.Some? && c.l.value in a.leases ==>
          c.v.late == a.leases[c.l.value].late || (HeldBy(a, c.t).exec && HeldBy(a, c.t).lease == c.l))
  }

  ghost predicate FairKeep(a: Discipline, c: Change)
    requires FairRefs(a, c)
  {
    var h := HeldBy(a, c.t);
    var leases := Make(a, c).leases;
    && (c.now.keeps ==> c.now.wg && leases[c.now.lease.value].keeper == c.t)
    && (c.started.keeps ==> c.child.Some? && c.started.wg && leases[c.started.lease.value].keeper == c.child.value)
    && (h.keeps ==> (c.now.keeps && c.now.lease == h.lease)
                    || (h.lease.Some? && h.lease.value in leases && leases[h.lease.value].ended)
                    || (c.l == h.lease && c.started.keeps && c.started.lease == h.lease))
    && (c.l.Some? && c.l.value in a.leases ==>
          var w := a.leases[c.l.value];
          w.keeper == c.v.keeper || (h.keeps && h.lease == c.l && !c.now.keeps))
    && (c.l.Some? && c.l.value !in a.leases ==> c.v.keeper == c.t && c.now.keeps && c.now.lease == c.l)
  }

  ghost predicate Fair(a: Discipline, c: Change) {
    FairCounts(a, c) && FairRefs(a, c) && FairExec(a, c) && FairEnd(a, c) && FairField(a, c) && FairLate(a, c) && FairKeep(a, c)
  }

  // ---- a fair step keeps the invariant ----

  predicate FreshChild(a: Discipline, c: Change) {
    && (c.child.None? ==> c.started == Nothing)
    && (c.child.Some? ==> c.child.value !in a.held && c.child.value != c.t)
  }

  lemma KeepsTokens(a: Discipline, c: Change)
    requires Tokens(a) && FairCounts(a, c)
    ensures Tokens(Make(a, c))
  {
    CountUpdate(a.held, Token, c.t, c.now);
    if c.child.Some? {
      CountUpdate(a.held[c.t := c.now], Token, c.child.value, c.started);
    }
    if c.l.Some? {
      CountUpdate(a.leases, Unreleased, c.l.value, c.v);
    }
  }

  lemma KeepsWaiters(a: Discipline, c: Change)
    requires Refs(a) && Waiters(a) && Drains(a) && FairCounts(a, c)
    ensures Waiters(Make(a, c)) && Drains(Make(a, c))
  {
    CountUpdate(a.held, Waits, c.t, c.now);
    if c.child.Some? {
      CountUpdate(a.held[c.t := c.now], Waits, c.child.value, c.started);
    }
  }

  lemma KeepsRefs(a: Discipline, c: Change)
    requires Refs(a) && FairRefs(a, c)
    ensures Refs(Make(a, c))
  {}

  lemma KeepsExecHolders(a: Discipline, c: Change)
    requires Refs(a) && ExecHolders(a) && FreshChild(a, c) && FairRefs(a, c) && FairExec(a, c)
    ensures Refs(Make(a, c)) && ExecHolders(Make(a, c))
  {
    KeepsRefs(a, c);
  }

  lemma KeepsExecTaken(a: Discipline, c: Change)
    requires Refs(a) && Execs(a) && FreshChild(a, c) && FairRefs(a, c) && FairExec(a, c)
    ensures ExecTaken(Make(a, c))
  {}

  lemma KeepsDebtors(a: Discipline, c: Change)
    requires Refs(a) && Debtors(a) && FreshChild(a, c) && FairRefs(a, c) && FairEnd(a, c)
    ensures Refs(Make(a, c)) && Debtors(Make(a, c))
  {
    KeepsRefs(a, c);
  }

  lemma KeepsDebts(a: Discipline, c: Change)
    requires Refs(a) && Debts(a) && FreshChild(a, c) && FairRefs(a, c) && FairEnd(a, c)
    ensures Debts(Make(a, c))
  {}

  lemma KeepsFields(a: Discipline, c: Change)
    requires Refs(a) && Endings(a) && Fields(a) && FreshChild(a, c) && FairRefs(a, c) && FairEnd(a, c) && FairField(a, c)
    ensures Refs(Make(a, c)) && Fields(Make(a, c))
  {
    KeepsRefs(a, c);
  }

  lemma KeepsLates(a: Discipline, c: Change)
    requires Refs(a) && Execs(a) && Lates(a) && FreshChild(a, c) && FairRefs(a, c) && FairLate(a, c)
    ensures Refs(Make(a, c)) && Lates(Make(a, c))
  {
    KeepsRefs(a, c);
  }

  lemma KeepsKeptOpen(a: Discipline, c: Change)
    requires Refs(a) && Keepers(a) && FreshChild(a, c) && FairRefs(a, c) && FairEnd(a, c) && FairKeep(a, c)
    ensures KeptOpen(Make(a, c))
  {}

  lemma KeepsKeptBy(a: Discipline, c: Change)
    requires Refs(a) && KeptBy(a) && FreshChild(a, c) && FairRefs(a, c) && FairKeep(a, c)
    ensures Refs(Make(a, c)) && KeptBy(Make(a, c))
  {
    KeepsRefs(a, c);
  }

  /** A step that follows the rules keeps the whole invariant. */
  lemma FairKeepsAll(a: Discipline, c: Change)
    requires Kept(a) && Fair(a, c)
    ensures Kept(Make(a, c))
  {
    KeepsTokens(a, c);
    KeepsWaiters(a, c);
    KeepsExecHolders(a, c);
    KeepsExecTaken(a, c);
    KeepsDebtors(a, c);
    KeepsDebts(a, c);
    KeepsFields(a, c);
    KeepsLates(a, c);
    KeepsKeptOpen(a, c);
    KeepsKeptBy(a, c);
  }
}
