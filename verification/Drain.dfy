// Without indications the system comes to rest: every run of draining steps ends,
// and it ends with all calls returned.
module Drain {
  import opened E2ap
  import opened BiMap
  import opened RicTables
  import opened IdMap
  import opened XappTables
  import opened AgentTables
  import opened Protocol
  import opened Invariant
  import opened Stability
  import opened Runs
  import opened EndToEnd
  import opened Progress
  import opened Work

  /** The iApp thread holds the request that would draw the id 0, before its lock. */
  ghost predicate AtLast(s: Sys) {
    s.forwarded == MAX_FORWARDED && s.ipc.IGot? && !s.ipc.req.E42Delete?
  }

  /** No id 0 has been drawn, and none is about to be. */
  ghost predicate Sound(s: Sys) {
    Inv(s) && Known(s) && NoneRefused(s) && BeforeLast(s)
  }

  /** Draining steps, stopping short of the lock for the id 0 and of requests that
      the iApp refuses. */
  ghost predicate Allowed(s: Sys, st: Step) {
    Draining(st) && !(st.IappLock? && AtLast(s)) && !RefusedAtIapp(s, st)
  }

  /** A request waits that the iApp is going to refuse. */
  predicate Doomed(s: Sys, k: Sock, r: E42Req) {
    k in s.x2i && r in s.x2i[k] && !r.E42Delete? && !Admitted(s, r.node)
  }

  ghost predicate NoneDoomed(s: Sys) {
    forall k, r :: !Doomed(s, k, r)
  }

  ghost predicate CanDrain(s: Sys) {
    exists st :: Allowed(s, st) && Next(s, st).Ok?
  }

  lemma Drains(s: Sys, st: Step)
    requires Sound(s) && Allowed(s, st) && Next(s, st) != Blocked
    ensures CanDrain(s)
  {
    AssertionsHold(s, st);
    assert Next(s, st).Ok?;
  }

  // ---------------------------------------------------------------- one step

  ghost predicate BeforeLast(s: Sys) {
    s.forwarded == MAX_FORWARDED ==> !(s.ipc.ILocked? && !s.ipc.req.E42Delete?)
  }

  lemma StepBeforeLast(s: Sys, st: Step, t: Sys)
    requires BeforeLast(s) && s.forwarded <= MAX_FORWARDED && Allowed(s, st) && Next(s, st) == Ok(t) && Draws(s, t)
    ensures BeforeLast(t) && t.forwarded <= MAX_FORWARDED
  {
    if s.ipc.IGot? && t.ipc.ILocked? {
      OnlyLockLocks(s, st, t);
    }
  }

  lemma StepInv(s: Sys, st: Step, t: Sys)
    requires Inv(s) && Known(s) && Next(s, st) == Ok(t) && Within(t)
    ensures Inv(t) && Known(t)
  {
    Preserve(s, st, t);
    StepKnown(s, st, t);
  }

  lemma StepSound(s: Sys, st: Step, t: Sys)
    requires Sound(s) && Allowed(s, st) && Next(s, st) == Ok(t)
    ensures Sound(t) && Works(s, t)
  {
    DrainingWorks(s, st, t);
    SocksBound(s);
    StepBeforeLast(s, st, t);
    StepInv(s, st, t);
  }

  lemma SocksBound(s: Sys)
    requires Wf(s)
    ensures s.nextXapp <= FIRST_XAPP + TWO_16 && s.forwarded <= MAX_FORWARDED
  {
  }

  lemma SendKeepsChannels(s: Sys, t: Sys)
    requires DoIappSend(s) == Ok(t)
    ensures t.x2i == s.x2i
  {
    match s.ipc {
      case IPended(_, _, _) =>
      case IDelPended(_, _) =>
    }
  }

  lemma PendKeepsChannels(s: Sys, fd: Fd, t: Sys)
    requires DoIappPend(s, fd) == Ok(t)
    ensures t.x2i == s.x2i
  {
    if s.ipc.ILocked? {
      PendNewState(s, fd, t);
    } else {
      PendDeleteState(s, fd, t);
    }
  }

  lemma IappChannelsKept(s: Sys, st: Step, t: Sys)
    requires IappStep(st) && !st.IappRecv? && Next(s, st) == Ok(t)
    ensures t.x2i == s.x2i
  {
    match st {
      case IappLock =>
      case IappPend(fd) => PendKeepsChannels(s, fd, t);
      case IappSend => SendKeepsChannels(s, t);
      case IappAdd =>
      case IappUnlock =>
      case IappFind =>
    }
  }

  /** The channels to the iApp stay, but for what it takes. */
  lemma ChannelsKept(s: Sys, st: Step, t: Sys)
    requires Draining(st) && !st.IappRecv? && Next(s, st) == Ok(t)
    ensures t.x2i == s.x2i
  {
    if IappStep(st) {
      IappChannelsKept(s, st, t);
    } else {
      OtherChannelsKept(s, st, t);
    }
  }

  lemma OtherChannelsKept(s: Sys, st: Step, t: Sys)
    requires Draining(st) && !IappStep(st) && Next(s, st) == Ok(t)
    ensures t.x2i == s.x2i
  {
    match st {
      case XappRecv(k) => HeardState(s, k, Closes(s.i2x[k][0].kind), t);
      case XappReturn(k) => ReturnState(s, k, s.xs[k].call.kind, t);
      case AgentRecv(n, fd) => AgentState1(s, n, fd, s.r2a[n][0].kind, t);
      case _ =>
    }
  }

  lemma TakenNotDoomed(s: Sys, k: Sock, t: Sys, j: Sock, r: E42Req)
    requires !RefusedAtIapp(s, IappRecv(k)) && DoIappRecv(s, k) == Ok(t)
    ensures Doomed(t, j, r) <==> Doomed(s, j, r)
  {
    IappRecvState(s, k, t);
    assert s.x2i[k] == [s.x2i[k][0]] + s.x2i[k][1..];
  }

  lemma DoomedKept(s: Sys, st: Step, t: Sys, j: Sock, r: E42Req)
    requires Allowed(s, st) && Next(s, st) == Ok(t) && t.agents.Keys == s.agents.Keys
    ensures Doomed(t, j, r) <==> Doomed(s, j, r)
  {
    if st.IappRecv? {
      TakenNotDoomed(s, st.sock, t, j, r);
    } else {
      ChannelsKept(s, st, t);
      assert |t.agents.Keys| == |t.agents| && |s.agents.Keys| == |s.agents|;
    }
  }

  // ---------------------------------------------------------------- to the end

  ghost predicate AllDraining(steps: seq<Step>) {
    forall i | 0 <= i < |steps| :: Draining(steps[i])
  }

  lemma Extend(steps: seq<Step>, s: Sys, st: Step)
    requires Exec(steps) == Ok(s)
    ensures Exec(steps + [st]) == Next(s, st)
  {
    assert (steps + [st])[..|steps|] == steps;
  }

  /** What draining keeps. */
  ghost predicate Follows(s: Sys, t: Sys) {
    && Requested(t) == Requested(s) && CallsKept(s, t) && (TcFree(s) ==> TcFree(t))
    && (forall k, r :: Doomed(t, k, r) <==> Doomed(s, k, r))
  }

  lemma FollowsTransitive(s: Sys, t: Sys, u: Sys)
    requires Follows(s, t) && Follows(t, u)
    ensures Follows(s, u)
  {
    CallsKeptTransitive(s, t, u);
  }

  lemma DrainOne(steps: seq<Step>, s: Sys, st: Step) returns (t: Sys)
    requires Exec(steps) == Ok(s) && Sound(s) && Allowed(s, st) && Next(s, st).Ok?
    ensures Exec(steps + [st]) == Ok(t) && Sound(t) && Follows(s, t) && Measure(t) < Measure(s)
  {
    t := Next(s, st).s;
    StepSound(s, st, t);
    forall k, r ensures Doomed(t, k, r) <==> Doomed(s, k, r) {
      DoomedKept(s, st, t, k, r);
    }
    Extend(steps, s, st);
  }

  lemma Prepend(steps: seq<Step>, st: Step, rest: seq<Step>)
    requires Draining(st) && AllDraining(rest)
    ensures AllDraining([st] + rest) && Exec(steps + ([st] + rest)) == Exec(steps + [st] + rest)
  {
    assert steps + ([st] + rest) == steps + [st] + rest;
  }

  lemma NextDraining(s: Sys) returns (st: Step)
    requires CanDrain(s)
    ensures Allowed(s, st) && Next(s, st).Ok?
  {
    st :| Allowed(s, st) && Next(s, st).Ok?;
  }

  /** From any sound state draining steps lead to one where none is left. */
  lemma DrainOut(steps: seq<Step>, s: Sys) returns (more: seq<Step>, t: Sys)
    requires Exec(steps) == Ok(s) && Sound(s)
    ensures AllDraining(more) && Exec(steps + more) == Ok(t)
    ensures Sound(t) && !CanDrain(t) && Follows(s, t)
    decreases Measure(s)
  {
    if CanDrain(s) {
      var st := NextDraining(s);
      var u := DrainOne(steps, s, st);
      var rest: seq<Step>;
      rest, t := DrainOut(steps + [st], u);
      more := [st] + rest;
      Prepend(steps, st, rest);
      FollowsTransitive(s, u, t);
    } else {
      more, t := [], s;
      assert steps + [] == steps;
      SelfKept(s);
    }
  }

  lemma SelfKept(s: Sys)
    ensures Follows(s, s)
  {
  }

  /** No schedule of draining steps is longer than the work that is left, so that
      every waiting call gets its answer and returns if it is given the steps. */
  lemma {:induction false} DrainingEnds(steps: seq<Step>, more: seq<Step>, s: Sys)
    requires Exec(steps) == Ok(s) && AllDraining(more) && Exec(steps + more).Ok?
    ensures |more| <= Measure(s)
    decreases |more|
  {
    if more != [] {
      assert steps + [more[0]] + more[1..] == steps + more;
      var u := FirstOf(steps, more, s);
      DrainingEnds(steps + [more[0]], more[1..], u);
    }
  }

  lemma FirstOf(steps: seq<Step>, more: seq<Step>, s: Sys) returns (u: Sys)
    requires Exec(steps) == Ok(s) && more != [] && Draining(more[0]) && Exec(steps + more).Ok?
    ensures Exec(steps + [more[0]]) == Ok(u) && Measure(u) < Measure(s)
  {
    Extend(steps, s, more[0]);
    PrefixOk(steps + more, |steps| + 1);
    assert (steps + more)[..|steps| + 1] == steps + [more[0]];
    u := Next(s, more[0]).s;
    DrainingWorks(s, more[0], u);
  }

  lemma {:induction false} PrefixOk(steps: seq<Step>, n: nat)
    requires n <= |steps| && Exec(steps).Ok?
    ensures Exec(steps[..n]).Ok?
  {
    if n < |steps| {
      PrefixOk(steps[..|steps| - 1], n);
      assert steps[..|steps| - 1][..n] == steps[..n];
    } else {
      assert steps[..n] == steps;
    }
  }

  // ---------------------------------------------------------------- what is left

  /** What the channel of the xApp on `k` still holds, the iApp is going to refuse. */
  predicate Emptied(s: Sys, k: Sock) {
    Get(s.x2i, k) == [] || Doomed(s, k, s.x2i[k][0])
  }

  /** Both threads are idle but for a request that would draw the id 0, no answer
      and no request to a node is on its way, and none to the iApp that it accepts. */
  ghost predicate Still(s: Sys) {
    && s.rpc == RIdle && (s.ipc == IIdle || AtLast(s))
    && (forall n | n in s.agents :: Get(s.r2a, n) == [] && Get(s.a2r, n) == [])
    && (forall k | k in s.xs :: Get(s.i2x, k) == [] && (s.ipc == IIdle ==> Emptied(s, k)))
  }

  /** No draining step is enabled. */
  ghost predicate Stuck(s: Sys) {
    forall st | Allowed(s, st) :: Next(s, st) == Blocked
  }

  lemma DrainedStuck(s: Sys)
    requires Sound(s) && !CanDrain(s)
    ensures Stuck(s)
  {
    forall st | Allowed(s, st) ensures Next(s, st) == Blocked {
      if Next(s, st) != Blocked {
        Drains(s, st);
      }
    }
  }

  lemma StuckThreads(s: Sys)
    requires Stuck(s) && LockOk(s.lock, s.ipc, s.rpc)
    ensures s.rpc == RIdle && (s.ipc == IIdle || AtLast(s))
  {
    if s.ipc != IIdle && !AtLast(s) && s.lock != ByRic {
      var st := IappEnabled(s);
      assert false;
    } else if s.rpc != RIdle {
      var st := RicEnabled(s);
      assert false;
    }
  }

  lemma StuckNode(s: Sys, n: NodeId)
    requires Stuck(s) && s.rpc == RIdle && n in s.agents
    ensures Get(s.r2a, n) == [] && Get(s.a2r, n) == []
  {
    if Get(s.r2a, n) != [] {
      var fd := AgentEnabled(s, n);
      assert false;
    }
    assert Allowed(s, RicRecv(n));
  }

  lemma StuckXapp(s: Sys, k: Sock)
    requires Stuck(s) && k in s.xs
    ensures Get(s.i2x, k) == [] && (s.ipc == IIdle ==> Emptied(s, k)) && !s.xs[k].call.Signalled?
  {
    if Get(s.i2x, k) != [] {
      HearEnabled(s, k, Closes(s.i2x[k][0].kind));
      assert false;
    }
    if s.ipc == IIdle && !Emptied(s, k) {
      assert s.x2i[k][0] in s.x2i[k];
      assert Allowed(s, IappRecv(k));
      ReceiveEnabled(s, k);
      assert false;
    }
    if s.xs[k].call.Signalled? {
      ReturnEnabled(s, k, s.xs[k].call.kind);
      assert false;
    }
  }

  lemma ReturnEnabled(s: Sys, k: Sock, kind: ReqKind)
    requires k in s.xs && s.xs[k].call.Signalled? && s.xs[k].call.kind == kind
    ensures Next(s, XappReturn(k)) != Blocked
  {
    if kind == Subscribe {
    } else {
    }
  }

  lemma StuckStill(s: Sys)
    requires Stuck(s) && LockOk(s.lock, s.ipc, s.rpc)
    ensures Still(s)
  {
    StuckThreads(s);
    forall n | n in s.agents ensures Get(s.r2a, n) == [] && Get(s.a2r, n) == [] {
      StuckNode(s, n);
    }
    forall k | k in s.xs ensures Get(s.i2x, k) == [] && (s.ipc == IIdle ==> Emptied(s, k)) {
      StuckXapp(s, k);
    }
  }

  lemma DrainedStill(s: Sys)
    requires Sound(s) && !CanDrain(s)
    ensures Still(s)
  {
    DrainedStuck(s);
    StuckStill(s);
  }

  /** The steps that take a message from a channel are not enabled. */
  ghost predicate NothingToTake(s: Sys) {
    forall st: Step | st.XappRecv? || st.AgentRecv? || st.RicRecv? :: Next(s, st) == Blocked
  }

  lemma NotWaiting(s: Sys, k: Sock)
    requires Wf(s) && XappsOk(s) && ViewsOk(s) && NothingToTake(s) && k in s.xs
    requires s.ipc == IIdle && s.rpc == RIdle && Get(s.x2i, k) == []
    ensures !s.xs[k].call.Waiting?
  {
    if s.xs[k].call.Waiting? {
      var st := ChannelsEnabled(s, k);
      assert false;
    }
  }

  lemma StuckTakesNothing(s: Sys)
    requires Stuck(s)
    ensures NothingToTake(s)
  {
    forall st: Step | st.XappRecv? || st.AgentRecv? || st.RicRecv? ensures Next(s, st) == Blocked {
      assert Allowed(s, st);
    }
  }

  /** When nothing is left to do, the iApp is idle and has no request to refuse,
      all calls have returned. */
  lemma DrainedQuiet(s: Sys)
    requires Sound(s) && !CanDrain(s) && s.ipc == IIdle && NoneDoomed(s)
    ensures Quiet(s) && Still(s)
  {
    DrainedStill(s);
    DrainedStuck(s);
    StuckTakesNothing(s);
    forall k | k in s.xs ensures s.xs[k].call == NoCall {
      StuckXapp(s, k);
      NotWaiting(s, k);
    }
  }
}
