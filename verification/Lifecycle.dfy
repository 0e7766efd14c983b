/** The agent's lifecycle: readers and components brought up in order, taken down in
    reverse, and never left half way. */
module Lifecycle {
  import opened Bytes

  datatype State = Stopped | Starting | Running | Stopping

  /** What the agent did to its readers and components, which are known by name. */
  datatype Event = Opened(ok: bool) | Closed | Up(component: nat, ok: bool) | Down(component: nat)

  // ---- what a trace says of a component ----

  /** Whether the component is up; None once a start or stop of it came out of turn. */
  function Status(trace: seq<Event>, c: nat): Option<bool> {
    if trace == [] then Some(false)
    else
      var before, e := Status(trace[..|trace| - 1], c), trace[|trace| - 1];
      if before.None? then None
      else if e == Up(c, true) then (if before.value then None else Some(true))
      else if e == Down(c) then (if before.value then Some(false) else None)
      else before
  }

  /** The first n components are up and no others, and every start and stop so far came in
      turn. */
  ghost predicate UpExactly(trace: seq<Event>, cs: seq<nat>, n: nat)
    requires n <= |cs|
  {
    forall c :: Status(trace, c) == Some(c in cs[..n])
  }

  predicate Distinct(cs: seq<nat>) { forall i, j | 0 <= i < j < |cs| :: cs[i] != cs[j] }

  lemma StatusNext(trace: seq<Event>, e: Event, c: nat)
    ensures Status(trace + [e], c)
            == var s := Status(trace, c);
               if s.None? then None
               else if e == Up(c, true) then (if s.value then None else Some(true))
               else if e == Down(c) then (if s.value then Some(false) else None)
               else s
  {
    assert (trace + [e])[..|trace|] == trace;
  }

  lemma OneUp(trace: seq<Event>, cs: seq<nat>, n: nat)
    requires n < |cs| && Distinct(cs) && UpExactly(trace, cs, n)
    ensures UpExactly(trace + [Up(cs[n], true)], cs, n + 1)
    ensures UpExactly(trace + [Up(cs[n], false)], cs, n)
  {
    forall c
      ensures Status(trace + [Up(cs[n], true)], c) == Some(c in cs[..n + 1])
      ensures Status(trace + [Up(cs[n], false)], c) == Some(c in cs[..n])
    {
      StatusNext(trace, Up(cs[n], true), c);
      StatusNext(trace, Up(cs[n], false), c);
      assert cs[..n + 1] == cs[..n] + [cs[n]];
    }
  }

  lemma OneDown(trace: seq<Event>, cs: seq<nat>, n: nat)
    requires n < |cs| && Distinct(cs) && UpExactly(trace, cs, n + 1)
    ensures UpExactly(trace + [Down(cs[n])], cs, n)
  {
    forall c
      ensures Status(trace + [Down(cs[n])], c) == Some(c in cs[..n])
    {
      StatusNext(trace, Down(cs[n]), c);
      assert cs[..n + 1] == cs[..n] + [cs[n]];
    }
  }

  lemma OtherEvent(trace: seq<Event>, e: Event, cs: seq<nat>, n: nat)
    requires n <= |cs| && UpExactly(trace, cs, n) && (e.Opened? || e.Closed?)
    ensures UpExactly(trace + [e], cs, n)
  {
    forall c
      ensures Status(trace + [e], c) == Some(c in cs[..n])
    {
      StatusNext(trace, e, c);
    }
  }

  // ---- the order ----

  /** The first n components brought up, in order. */
  function Ups(cs: seq<nat>, n: nat): seq<Event>
    requires n <= |cs|
  {
    if n == 0 then [] else Ups(cs, n - 1) + [Up(cs[n - 1], true)]
  }

  /** The same taken down, the last one first. */
  function Downs(cs: seq<nat>, n: nat): seq<Event>
    requires n <= |cs|
  {
    if n == 0 then [] else [Down(cs[n - 1])] + Downs(cs, n - 1)
  }

  /** What a start does to the components: all up, or the first i up, the next failing, and
      those i down again in reverse. */
  predicate Brought(cs: seq<nat>, done: seq<Event>, i: nat, ok: bool) {
    if ok then i == |cs| && done == Ups(cs, i)
    else i < |cs| && done == Ups(cs, i) + [Up(cs[i], false)] + Downs(cs, i)
  }

  class Agent {
    const answers: nat -> bool       // whether the n-th thing that may fail succeeds
    const plugins: seq<nat>          // the components that plugins register
    var asked: nat
    var state: State
    var components: seq<nat>
    var supervisor: bool
    var scans: bool
    var runCtx: bool
    var activated: bool
    var activateFailed: bool
    ghost var trace: seq<Event>

    /** Outside the lock the agent is stopped with nothing up, or running with everything up. */
    ghost predicate Settled()
      reads this
    {
      && Distinct(components)
      && match state
         case Stopped => !supervisor && !scans && !runCtx && UpExactly(trace, components, 0)
         case Running => supervisor && scans && runCtx && UpExactly(trace, components, |components|)
         case _ => false
    }

    constructor (answers: nat -> bool, plugins: seq<nat>)
      ensures Settled() && state.Stopped? && components == [] && trace == []
    {
      this.answers, this.plugins := answers, plugins;
      asked, state, components := 0, Stopped, [];
      supervisor, scans, runCtx, activated, activateFailed := false, false, false, false, false;
      trace := [];
    }

    method Ask() returns (ok: bool)
      modifies this`asked
      ensures ok == answers(old(asked)) && asked == old(asked) + 1
    {
      ok := answers(asked);
      asked := asked + 1;
    }

    /** useLocked: only while stopped, and each name once. */
    method Use(c: Option<nat>) returns (ok: bool)
      requires Settled()
      modifies this`components
      ensures Settled()
      ensures ok <==> c.Some? && state.Stopped? && c.value !in old(components)
      ensures components == if ok then old(components) + [c.value] else old(components)
    {
      if c.None? || !state.Stopped? { return false; }
      for i := 0 to |components|
        invariant c.value !in components[..i]
      {
        if components[i] == c.value { return false; }
      }
      assert components[..|components|] == components;
      components := components + [c.value];
      assert components[..0] == old(components)[..0];
      return true;
    }

    /** activateLocked: decided once; a failure stands. */
    method Activate() returns (ok: bool)
      requires Settled() && state.Stopped?
      modifies this`components, this`activated, this`activateFailed
      ensures Settled() && old(components) <= components
      ensures old(activated) ==> ok == !old(activateFailed) && components == old(components)
      ensures activated && ok == !activateFailed
    {
      if activated { return !activateFailed; }
      activated, activateFailed := true, false;
      for i := 0 to |plugins|
        invariant Settled() && old(components) <= components && activated && !activateFailed
      {
        var used := Use(Some(plugins[i]));
        if !used {
          activateFailed := true;
          return false;
        }
      }
      return true;
    }

    /** startLocked: the readers are built, connected and started. */
    method OpenReaders() returns (ok: bool)
      requires Distinct(components) && UpExactly(trace, components, 0) && !supervisor && !scans
      modifies this`asked, this`supervisor, this`scans, this`trace
      ensures UpExactly(trace, components, 0) && supervisor == scans && (ok ==> supervisor)
      ensures trace == old(trace) + if supervisor then [Opened(ok)] else []
    {
      var built := Ask();
      if !built { return false; }
      supervisor, scans := true, true;
      ok := Ask();
      OtherEvent(trace, Opened(ok), components, 0);
      trace := trace + [Opened(ok)];
    }

    /** stopLocked: safe on an agent whose readers never opened. */
    method CloseReaders()
      requires UpExactly(trace, components, 0) && supervisor == scans
      modifies this`supervisor, this`scans, this`trace
      ensures !supervisor && !scans && UpExactly(trace, components, 0)
      ensures trace == old(trace) + if old(supervisor) then [Closed] else []
    {
      if !supervisor && !scans { return; }
      scans := false;
      supervisor := false;
      OtherEvent(trace, Closed, components, 0);
      trace := trace + [Closed];
    }

    /** stopComponentRange: from the n-th down to the first, whatever they answer. */
    method StopComponents(n: nat)
      requires n <= |components| && Distinct(components) && UpExactly(trace, components, n)
      modifies this`asked, this`trace
      ensures UpExactly(trace, components, 0) && trace == old(trace) + Downs(components, n)
    {
      var i: nat := n;
      while i > 0
        invariant i <= n && UpExactly(trace, components, i)
        invariant trace + Downs(components, i) == old(trace) + Downs(components, n)
      {
        i := i - 1;
        var _ := Ask();
        OneDown(trace, components, i);
        assert trace + ([Down(components[i])] + Downs(components, i)) == (trace + [Down(components[i])]) + Downs(components, i);
        trace := trace + [Down(components[i])];
      }
      assert trace + [] == trace;
    }

    /** startComponents: in order, and on the first failure those that came up go down. */
    method StartComponents() returns (ok: bool, ghost i: nat, ghost done: seq<Event>)
      requires Distinct(components) && UpExactly(trace, components, 0)
      modifies this`asked, this`trace
      ensures trace == old(trace) + done && Brought(components, done, i, ok)
      ensures UpExactly(trace, components, if ok then |components| else 0)
    {
      var n := 0;
      assert trace + [] == trace;
      while n < |components|
        invariant n <= |components| && UpExactly(trace, components, n) && trace == old(trace) + Ups(components, n)
      {
        var up := Ask();
        OneUp(trace, components, n);
        if !up {
          trace := trace + [Up(components[n], false)];
          StopComponents(n);
          done := Ups(components, n) + [Up(components[n], false)] + Downs(components, n);
          assert trace == old(trace) + done;
          return false, n, done;
        }
        trace := trace + [Up(components[n], true)];
        n := n + 1;
      }
      return true, n, Ups(components, n);
    }

    /** Start. A start that fails anywhere takes back down whatever came up before it. */
    method Start(sameDevice: bool) returns (ok: bool, ghost i: nat, ghost done: seq<Event>)
      requires Settled()
      modifies this`asked, this`state, this`components, this`supervisor, this`scans, this`runCtx, this`activated, this`activateFailed, this`trace
      ensures Settled() && old(components) <= components
      ensures old(state).Running? ==> ok == sameDevice && state.Running? && trace == old(trace)
      ensures old(state).Stopped? ==> (ok <==> state.Running?)
      ensures old(state).Stopped? && ok ==> trace == old(trace) + [Opened(true)] + done && Brought(components, done, i, true)
      ensures old(state).Stopped? && !ok ==>
                || trace == old(trace)
                || trace == old(trace) + [Opened(false), Closed]
                || (trace == old(trace) + [Opened(true)] + done + [Closed] && Brought(components, done, i, false))
    {
      i, done := 0, [];
      if !state.Stopped? { return sameDevice, i, done; }
      var active := Activate();
      if !active { return false, i, done; }
      state := Starting;
      ok := OpenReaders();
      if ok {
        runCtx := true;
        ok, i, done := StartComponents();
        if !ok { runCtx := false; }
      }
      if !ok {
        CloseReaders();
        state := Stopped;
        return;
      }
      state := Running;
    }

    /** Stop: the components in reverse, then the readers. */
    method Stop()
      requires Settled()
      modifies this`asked, this`state, this`supervisor, this`scans, this`runCtx, this`trace
      ensures Settled() && state.Stopped?
      ensures trace == if old(state).Stopped? then old(trace) else old(trace) + Downs(components, |components|) + [Closed]
    {
      if state.Stopped? { return; }
      state := Stopping;
      StopComponents(|components|);
      runCtx := false;
      CloseReaders();
      state := Stopped;
    }
  }

  datatype Request = DoUse(c: Option<nat>) | DoStart(sameDevice: bool) | DoStop

  /** Over every serialized run of Use, Start and Stop, whatever fails, the agent is settled
      between them, and each component's starts and stops alternate. */
  method Run(answers: nat -> bool, plugins: seq<nat>, requests: seq<Request>) returns (a: Agent)
    ensures a.Settled() && forall c :: Status(a.trace, c).Some?
  {
    a := new Agent(answers, plugins);
    for i := 0 to |requests|
      invariant fresh(a) && a.Settled()
    {
      match requests[i]
      case DoUse(c) => var _ := a.Use(c);
      case DoStart(same) => var _, _, _ := a.Start(same);
      case DoStop => a.Stop();
    }
  }
}
