// The mutexes along the steps of the protocol: what a handler takes is what its
// steps take, and the id-map lock of the protocol is the mutex of that name.
module LockSteps {
  import opened E2ap
  import opened Protocol
  import opened Invariant
  import L = Locks

  /** The steps of the protocol that make up a handler. */
  function StepsOf(h: L.Handler, k: Sock, n: NodeId, timer: Fd): seq<Step>
    requires h.E42Subscription? || h.E42ControlRequest? || h.E42Delete? || h.Response? || h.Indication?
  {
    match h
    case E42Delete => [IappRecv(k), IappLock, IappFind, IappPend(timer), IappSend]
    case Response => [RicRecv(n), RicStop, RicLock, RicFind, RicSend]
    case Indication => [RicRecv(n), RicStop, RicLock, RicFind, RicSend]
    case _ => [IappRecv(k), IappLock, IappPend(timer), IappSend, IappAdd, IappUnlock]
  }

  /** The mutexes that one step takes and releases, as a part of this handler. */
  function ActionsOf(h: L.Handler, st: Step): seq<L.Action> {
    match st
    case IappRecv(_) => L.Guarded(L.IappEndpoint) + (if h.E42Delete? then [] else L.Guarded(L.RegE2Nodes))
    case IappLock => [L.Lock(L.MapRicId)]
    case IappPend(_) => L.Guarded(L.Pending)
    case IappSend => L.Guarded(L.NodeSockets) + L.Guarded(L.RicEndpoint)
    case IappUnlock => [L.Unlock(L.MapRicId)]
    case IappFind => [L.Unlock(L.MapRicId)]
    case RicRecv(_) => L.Guarded(L.RicEndpoint)
    case RicStop => if h.Indication? then [] else L.Guarded(L.Pending)
    case RicLock => [L.Lock(L.MapRicId)]
    case RicFind => [L.Unlock(L.MapRicId)]
    case RicSend => L.Guarded(L.XappSockets) + L.Guarded(L.IappEndpoint)
    case _ => []
  }

  function Along(f: Step -> seq<L.Action>, steps: seq<Step>): seq<L.Action> {
    if steps == [] then [] else f(steps[0]) + Along(f, steps[1..])
  }

  function ActionsIn(h: L.Handler): Step -> seq<L.Action> {
    st => ActionsOf(h, st)
  }

  lemma Five(f: Step -> seq<L.Action>, a: Step, b: Step, c: Step, d: Step, e: Step)
    ensures Along(f, [a, b, c, d, e]) == f(a) + f(b) + f(c) + f(d) + f(e)
  {
    assert [a, b, c, d, e][1..] == [b, c, d, e] && [b, c, d, e][1..] == [c, d, e];
    assert [c, d, e][1..] == [d, e] && [d, e][1..] == [e] && [e][1..] == [];
    assert Along(f, [e]) == f(e);
    assert Along(f, [d, e]) == f(d) + f(e);
    assert Along(f, [c, d, e]) == f(c) + f(d) + f(e);
  }

  lemma Six(f: Step -> seq<L.Action>, z: Step, a: Step, b: Step, c: Step, d: Step, e: Step)
    ensures Along(f, [z, a, b, c, d, e]) == f(z) + (f(a) + f(b) + f(c) + f(d) + f(e))
  {
    assert [z, a, b, c, d, e][1..] == [a, b, c, d, e];
    Five(f, a, b, c, d, e);
  }

  lemma Regroup<T>(a: seq<T>, b: seq<T>, l: seq<T>, u: seq<T>, p: seq<T>, n: seq<T>, r: seq<T>)
    ensures (a + []) + l + u + p + (n + r) == a + (l + u) + (p + n + r)
    ensures (a + b) + (l + p + (n + r) + [] + u) == a + b + l + (p + n + r) + u
    ensures a + b + l + u + (n + r) == a + b + (l + u) + n + r
    ensures a + [] + l + u + (n + r) == a + (l + u) + n + r
  {
  }

  lemma RequestTakes(h: L.Handler, k: Sock, n: NodeId, timer: Fd)
    requires h.E42Subscription? || h.E42ControlRequest? || h.E42Delete?
    ensures Along(ActionsIn(h), StepsOf(h, k, n, timer)) == L.Actions(h)
  {
    Regroup(L.Guarded(L.IappEndpoint), L.Guarded(L.RegE2Nodes), [L.Lock(L.MapRicId)], [L.Unlock(L.MapRicId)],
            L.Guarded(L.Pending), L.Guarded(L.NodeSockets), L.Guarded(L.RicEndpoint));
    if h.E42Delete? {
      Five(ActionsIn(h), IappRecv(k), IappLock, IappFind, IappPend(timer), IappSend);
    } else {
      Six(ActionsIn(h), IappRecv(k), IappLock, IappPend(timer), IappSend, IappAdd, IappUnlock);
    }
  }

  lemma AnswerTakes(h: L.Handler, k: Sock, n: NodeId, timer: Fd)
    requires h.Response? || h.Indication?
    ensures Along(ActionsIn(h), StepsOf(h, k, n, timer)) == L.Actions(h)
  {
    Regroup(L.Guarded(L.RicEndpoint), L.Guarded(L.Pending), [L.Lock(L.MapRicId)], [L.Unlock(L.MapRicId)],
            [], L.Guarded(L.XappSockets), L.Guarded(L.IappEndpoint));
    Five(ActionsIn(h), RicRecv(n), RicStop, RicLock, RicFind, RicSend);
  }

  /** A handler takes its mutexes step by step, in the order of the steps. */
  lemma HandlerTakes(h: L.Handler, k: Sock, n: NodeId, timer: Fd)
    requires h.E42Subscription? || h.E42ControlRequest? || h.E42Delete? || h.Response? || h.Indication?
    ensures Along(ActionsIn(h), StepsOf(h, k, n, timer)) == L.Actions(h)
  {
    if h.Response? || h.Indication? {
      AnswerTakes(h, k, n, timer);
    } else {
      RequestTakes(h, k, n, timer);
    }
  }

  /** The thread of the RIC process that takes a step. */
  function ThreadOf(st: Step): Owner {
    match st
    case IappRecv(_) => ByIapp
    case IappLock => ByIapp
    case IappPend(_) => ByIapp
    case IappSend => ByIapp
    case IappAdd => ByIapp
    case IappUnlock => ByIapp
    case IappFind => ByIapp
    case RicRecv(_) => ByRic
    case RicStop => ByRic
    case RicLock => ByRic
    case RicFind => ByRic
    case RicSend => ByRic
    case _ => Free
  }

  /** Whether this thread holds the lock, before and after: as the step's actions
      say, and no step touches the lock of the other thread. */
  ghost predicate LockFollows(h: L.Handler, s: Sys, st: Step, t: Sys) {
    var locks := L.Lock(L.MapRicId) in ActionsOf(h, st);
    var unlocks := L.Unlock(L.MapRicId) in ActionsOf(h, st);
    && (locks ==> s.lock == Free && t.lock == ThreadOf(st))
    && (unlocks ==> s.lock == ThreadOf(st) && t.lock == Free)
    && (!locks && !unlocks ==> t.lock == s.lock)
  }

  lemma MutexSteps(h: L.Handler, st: Step)
    ensures L.Lock(L.MapRicId) in ActionsOf(h, st) <==> st.IappLock? || st.RicLock?
    ensures L.Unlock(L.MapRicId) in ActionsOf(h, st) <==> st.IappUnlock? || st.IappFind? || st.RicFind?
  {
    match st {
      case IappLock => assert L.Lock(L.MapRicId) in [L.Lock(L.MapRicId)];
      case RicLock => assert L.Lock(L.MapRicId) in [L.Lock(L.MapRicId)];
      case IappUnlock => assert L.Unlock(L.MapRicId) in [L.Unlock(L.MapRicId)];
      case IappFind => assert L.Unlock(L.MapRicId) in [L.Unlock(L.MapRicId)];
      case RicFind => assert L.Unlock(L.MapRicId) in [L.Unlock(L.MapRicId)];
      case _ =>
    }
  }

  lemma PendKeepsLock(s: Sys, fd: Fd, t: Sys)
    requires DoIappPend(s, fd) == Ok(t)
    ensures t.lock == s.lock
  {
    match s.ipc {
      case ILocked(_) =>
      case IFound(_, _) =>
    }
  }

  lemma SendKeepsLock(s: Sys, t: Sys)
    requires DoIappSend(s) == Ok(t)
    ensures t.lock == s.lock
  {
    match s.ipc {
      case IPended(_, _, _) =>
      case IDelPended(_, _) =>
    }
  }

  lemma IappLocks(s: Sys, st: Step, t: Sys)
    requires LockOk(s.lock, s.ipc, s.rpc) && Next(s, st) == Ok(t) && ThreadOf(st) == ByIapp
    ensures if st.IappLock? then s.lock == Free && t.lock == ByIapp
            else if st.IappUnlock? || st.IappFind? then s.lock == ByIapp && t.lock == Free
            else t.lock == s.lock
  {
    match st {
      case IappRecv(_) =>
      case IappLock =>
      case IappPend(fd) => PendKeepsLock(s, fd, t);
      case IappSend => SendKeepsLock(s, t);
      case IappAdd =>
      case IappUnlock =>
      case IappFind =>
    }
  }

  lemma RicLocks(s: Sys, st: Step, t: Sys)
    requires LockOk(s.lock, s.ipc, s.rpc) && Next(s, st) == Ok(t) && ThreadOf(st) == ByRic
    ensures if st.RicLock? then s.lock == Free && t.lock == ByRic
            else if st.RicFind? then s.lock == ByRic && t.lock == Free
            else t.lock == s.lock
  {
    match st {
      case RicRecv(_) =>
      case RicStop =>
      case RicLock =>
      case RicFind =>
      case RicSend =>
    }
  }

  /** In every state of the protocol the id-map lock changes hands exactly with the
      steps whose actions lock and unlock its mutex. */
  lemma LockIsMutex(h: L.Handler, s: Sys, st: Step, t: Sys)
    requires LockOk(s.lock, s.ipc, s.rpc) && Next(s, st) == Ok(t) && ThreadOf(st) != Free
    ensures LockFollows(h, s, st, t)
  {
    MutexSteps(h, st);
    if ThreadOf(st) == ByIapp {
      IappLocks(s, st, t);
    } else {
      RicLocks(s, st, t);
    }
  }
}
