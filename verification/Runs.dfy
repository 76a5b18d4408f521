// Runs of the system: the invariant holds all along, and the assertions of the
// C code fail exactly on what a caller of the xApp library passes.
module Runs {
  import opened E2ap
  import opened BiMap
  import opened RicTables
  import opened IdMap
  import opened XappTables
  import opened AgentTables
  import opened Protocol
  import opened Invariant
  import IappSteps
  import PendSteps
  import RicSteps
  import AgentSteps
  import XappSteps
  import opened Stability

  /** The widths that the id counters allow: 64515 forwarded requests and 65536 xApps. */
  predicate Within(s: Sys) {
    s.forwarded <= MAX_FORWARDED && s.nextXapp <= FIRST_XAPP + TWO_16
  }

  // ---------------------------------------------------------------- one step

  lemma PreserveXapp(s: Sys, st: Step, t: Sys)
    requires Inv(s) && Next(s, st) == Ok(t) && Within(t)
    requires XappStep(st)
    ensures Inv(t)
  {
    match st {
      case XappSetup(k) => XappSteps.Setup(s, k, t);
      case Report(k, n, f, fd) => XappSteps.Open(s, k, Subscribe, n, f, fd, t);
      case RmReport(k, h, fd) => XappSteps.RmReport(s, k, h, fd, t);
      case ControlCall(k, n, f, _, fd) => XappSteps.Open(s, k, Control, n, f, fd, t);
      case XappRecv(k) => XappSteps.Recv(s, k, t);
      case XappReturn(k) => XappSteps.Return(s, k, t);
    }
  }

  lemma PreserveIapp(s: Sys, st: Step, t: Sys)
    requires Inv(s) && Next(s, st) == Ok(t) && Within(t)
    requires IappStep(st)
    ensures Inv(t)
  {
    match st {
      case IappRecv(k) => IappSteps.Recv(s, k, t);
      case IappLock => IappSteps.Lock(s, t);
      case IappPend(fd) =>
        if s.ipc.ILocked? {
          PendSteps.PendNew(s, fd, t);
        } else {
          PendSteps.PendDelete(s, fd, t);
        }
      case IappSend => PendSteps.Send(s, t);
      case IappAdd => IappSteps.AddPair(s, t);
      case IappUnlock => IappSteps.Unlock(s, t);
      case IappFind => IappSteps.Find(s, t);
    }
  }

  lemma PreserveRest(s: Sys, st: Step, t: Sys)
    requires Inv(s) && Next(s, st) == Ok(t) && Within(t) && !XappStep(st) && !IappStep(st)
    ensures Inv(t)
  {
    match st {
      case NodeSetup(n, net) => AgentSteps.Setup(s, n, net, t);
      case AgentRecv(n, fd) => AgentSteps.Recv(s, n, fd, t);
      case AgentTimer(n, fd, p) => AgentSteps.Timer(s, n, fd, p, t);
      case RicRecv(n) => RicSteps.Recv(s, n, t);
      case RicStop => RicSteps.Stop(s, t);
      case RicLock => RicSteps.Lock(s, t);
      case RicFind => RicSteps.Find(s, t);
      case RicSend => RicSteps.Send(s, t);
    }
  }

  lemma Preserve(s: Sys, st: Step, t: Sys)
    requires Inv(s) && Next(s, st) == Ok(t) && Within(t)
    ensures Inv(t)
  {
    if XappStep(st) {
      PreserveXapp(s, st, t);
    } else if IappStep(st) {
      PreserveIapp(s, st, t);
    } else {
      PreserveRest(s, st, t);
    }
  }

  // ---------------------------------------------------------------- assertions

  predicate Ready(s: Sys, k: Sock) {
    k in s.xs && s.xs[k].call == NoCall && k in s.x2i
  }

  /** A report for a node that the xApp was not told of or with an unknown RAN
      function, or when the keys of this xApp have run out. */
  predicate CannotReport(s: Sys, k: Sock, n: NodeId, f: U16) {
    Ready(s, k) && (n !in s.xs[k].nodes || !ValidRanFunc(f) || s.xs[k].nextKey == TWO_16)
  }

  /** A control call of another function than the two admitted ones or with a
      message of another service model, or when the keys have run out. */
  predicate CannotControl(s: Sys, k: Sock, f: U16, c: U16) {
    Ready(s, k) && (!Controllable(f) || c != f || s.xs[k].nextKey == TWO_16)
  }

  /** A call that fails at once; a caller can check it before. */
  predicate CallFails(s: Sys, st: Step) {
    match st
    case XappSetup(k) => k !in s.xs && (s.nextXapp == FIRST_XAPP + TWO_16 || |s.agents| == 0)
    case Report(k, n, f, _) => CannotReport(s, k, n, f)
    case ControlCall(k, _, f, c, _) => CannotControl(s, k, f, c)
    case RmReport(k, h, _) => Ready(s, k) && h !in s.xs[k].procs
    case _ => false
  }

  /** The iApp lists the connected nodes, for an xApp's setup or to check the node
      of a request: more than fit, or without that node. */
  predicate RefusedAtIapp(s: Sys, st: Step) {
    match st
    case XappSetup(k) => k !in s.xs && |s.agents| > MAX_NODES
    case IappRecv(k) =>
      s.ipc == IIdle && Get(s.x2i, k) != [] && !s.x2i[k][0].E42Delete? && !Admitted(s, s.x2i[k][0].node)
    case _ => false
  }

  /** The RIC thread handles an indication of the type that it refuses. */
  predicate RefusedAtRic(s: Sys, st: Step) {
    st.RicStop? && s.rpc.RGot? && Refused(s.rpc.ans)
  }

  lemma OpenAbort(s: Sys, k: Sock, kind: ReqKind, n: NodeId, f: U16, fd: Fd)
    requires XappsOk(s) && kind != Delete
    ensures DoOpen(s, k, kind, n, f, fd) == Blocked <==> !Ready(s, k)
    ensures DoOpen(s, k, kind, n, f, fd) == Abort <==>
              && Ready(s, k)
              && ((kind == Subscribe && n !in s.xs[k].nodes) || !ValidRanFunc(f) || s.xs[k].nextKey == TWO_16)
  {
    if k in s.xs {
      assert XappOk(Bound(s).right, s.agents.Keys, s.xs[k], Early(s, k), Get(s.i2x, k));
    }
  }

  lemma ControlAbort(s: Sys, k: Sock, n: NodeId, f: U16, c: U16, fd: Fd)
    requires XappsOk(s)
    ensures DoControl(s, k, n, f, c, fd) == Abort <==> CannotControl(s, k, f, c)
    ensures DoControl(s, k, n, f, c, fd) == Blocked <==> !Ready(s, k)
  {
    OpenAbort(s, k, Control, n, f, fd);
  }

  lemma PendNoAbort(s: Sys, fd: Fd)
    requires Wf(s) && XappsOk(s) && ViewsOk(s)
    ensures DoIappPend(s, fd) != Abort
  {
    if s.ipc.ILocked? {
      PendSteps.PendNewNoAbort(s, fd);
    } else if s.ipc.IFound? {
      PendSteps.PendDeleteNoAbort(s, fd);
    }
  }

  lemma HearNoAbort(s: Sys, k: Sock)
    requires Wf(s) && XappsOk(s) && ViewsOk(s) && Known(s)
    ensures DoXappRecv(s, k) != Abort
  {
    if k in s.xs {
      assert KnownTo(s.ids.right, s.xs[k], Get(s.i2x, k));
      XappSteps.RecvNoAbort(s, k);
    }
  }

  lemma IappAborts(s: Sys, st: Step)
    requires Inv(s) && IappStep(st)
    ensures Next(s, st) == Abort <==> RefusedAtIapp(s, st)
  {
    match st {
      case IappRecv(k) => IappSteps.RecvAbort(s, k);
      case IappPend(fd) => PendNoAbort(s, fd);
      case IappSend => PendSteps.SendNoAbort(s);
      case IappAdd => IappSteps.AddNoAbort(s);
      case IappFind => IappSteps.FindNoAbort(s);
      case IappLock =>
      case IappUnlock =>
    }
  }

  lemma XappAborts(s: Sys, st: Step)
    requires Inv(s) && Known(s) && XappStep(st)
    ensures Next(s, st) == Abort <==> CallFails(s, st) || RefusedAtIapp(s, st)
  {
    match st {
      case XappSetup(k) => XappSteps.SetupAbort(s, k);
      case Report(k, n, f, fd) => OpenAbort(s, k, Subscribe, n, f, fd);
      case ControlCall(k, n, f, c, fd) => ControlAbort(s, k, n, f, c, fd);
      case RmReport(k, h, fd) =>
      case XappRecv(k) => HearNoAbort(s, k);
      case XappReturn(k) => XappSteps.ReturnNoAbort(s, k);
    }
  }

  lemma RestAborts(s: Sys, st: Step)
    requires Inv(s) && !XappStep(st) && !IappStep(st)
    ensures Next(s, st) == Abort <==> RefusedAtRic(s, st)
  {
    match st {
      case NodeSetup(n, net) =>
      case AgentRecv(n, fd) => AgentSteps.RecvNoAbort(s, n, fd);
      case AgentTimer(n, fd, p) =>
      case RicRecv(n) =>
      case RicStop => RicSteps.StopAbort(s);
      case RicLock =>
      case RicFind => RicSteps.FindNoAbort(s);
      case RicSend => RicSteps.SendNoAbort(s);
    }
  }

  /** A step fails exactly when it is a call that the caller could have known to
      fail, when the iApp has to list more nodes than fit or to find one that is not
      connected, or when the near-RIC handles an indication of the traffic control model. */
  lemma AssertionsHold(s: Sys, st: Step)
    requires Inv(s) && Known(s)
    ensures Next(s, st) == Abort <==> CallFails(s, st) || RefusedAtIapp(s, st) || RefusedAtRic(s, st)
  {
    if XappStep(st) {
      XappAborts(s, st);
    } else if IappStep(st) {
      IappAborts(s, st);
    } else {
      RestAborts(s, st);
    }
  }

  // ---------------------------------------------------------------- runs

  /** The outcome of a sequence of steps from the initial state. */
  function Exec(steps: seq<Step>): Outcome {
    if steps == [] then Ok(Init())
    else
      match Exec(steps[..|steps| - 1])
      case Ok(s) => Next(s, steps[|steps| - 1])
      case o => o
  }

  /** The invariant holds after every run within the widths. */
  lemma {:induction false} ReachableInv(steps: seq<Step>, s: Sys)
    requires Exec(steps) == Ok(s) && Within(s)
    ensures Inv(s)
  {
    if steps == [] {
      InitInv();
    } else {
      var before := Exec(steps[..|steps| - 1]).s;
      StepGrows(before, steps[|steps| - 1], s);
      ReachableInv(steps[..|steps| - 1], before);
      Preserve(before, steps[|steps| - 1], s);
    }
  }

  /** So does the fact that answers reach an xApp through the id map. */
  lemma {:induction false} ReachableKnown(steps: seq<Step>, s: Sys)
    requires Exec(steps) == Ok(s) && Within(s)
    ensures Known(s)
  {
    if steps != [] {
      var front := steps[..|steps| - 1];
      var before := Exec(front).s;
      StepGrows(before, steps[|steps| - 1], s);
      ReachableInv(front, before);
      ReachableKnown(front, before);
      StepKnown(before, steps[|steps| - 1], s);
    }
  }

  /** A drawn id keeps its node and its xApp request for the rest of the run. */
  lemma {:induction false} BoundForGood(steps: seq<Step>, n: nat)
    requires n <= |steps| && Exec(steps).Ok? && Within(Exec(steps).s)
    ensures Exec(steps[..n]).Ok? && Within(Exec(steps[..n]).s)
    ensures KeepsBound(Exec(steps[..n]).s, Exec(steps).s)
  {
    if n == |steps| {
      assert steps[..n] == steps;
    } else {
      var front := steps[..|steps| - 1];
      StepGrows(Exec(front).s, steps[|steps| - 1], Exec(steps).s);
      BoundForGood(front, n);
      assert front[..n] == steps[..n];
      ReachableInv(front, Exec(front).s);
      StepKeepsBound(Exec(front).s, steps[|steps| - 1], Exec(steps).s);
    }
  }
}
