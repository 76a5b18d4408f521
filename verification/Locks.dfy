// The mutexes of the RIC process: no reachable state of its threads is stuck.
module Locks {
  datatype Mutex =
    | MapRicId                        // of the iApp's id map
    | RegE2Nodes | XappSockets | IappEndpoint
    | Pending | NodeSockets | RicEndpoint | ConnE2Nodes

  datatype Action = Lock(m: Mutex) | Unlock(m: Mutex)

  /** The id-map lock comes before all others, which are never nested in each other. */
  function Rank(m: Mutex): nat {
    if m == MapRicId then 0 else 1
  }

  /** What a thread holds after these actions of its own. */
  function Held(done: seq<Action>): set<Mutex> {
    if done == [] then {}
    else
      var h := Held(done[..|done| - 1]);
      match done[|done| - 1]
      case Lock(m) => h + {m}
      case Unlock(m) => h - {m}
  }

  /** Each lock is taken above all locks held, each unlock is of a lock held, and
      in the end nothing is held. */
  ghost predicate Disciplined(p: seq<Action>) {
    && (forall i | 0 <= i < |p| :: Allowed(Held(p[..i]), p[i]))
    && Held(p) == {}
  }

  predicate Allowed(held: set<Mutex>, a: Action) {
    match a
    case Lock(m) => forall h | h in held :: Rank(h) < Rank(m)
    case Unlock(m) => m in held
  }

  /** Each thread has done the first `at[t]` actions of its program. */
  ghost predicate State(programs: seq<seq<Action>>, at: seq<nat>) {
    |at| == |programs| && forall t | 0 <= t < |at| :: at[t] <= |programs[t]|
  }

  function HeldBy(programs: seq<seq<Action>>, at: seq<nat>, t: nat): set<Mutex>
    requires t < |at| == |programs| && at[t] <= |programs[t]|
  {
    Held(programs[t][..at[t]])
  }

  /** Mutual exclusion. */
  ghost predicate Exclusive(programs: seq<seq<Action>>, at: seq<nat>)
    requires State(programs, at)
  {
    forall t, u | 0 <= t < u < |at| :: HeldBy(programs, at, t) !! HeldBy(programs, at, u)
  }

  /** Thread t is not at its end and its next action need not wait. */
  ghost predicate CanStep(programs: seq<seq<Action>>, at: seq<nat>, t: nat)
    requires State(programs, at) && t < |at|
  {
    && at[t] < |programs[t]|
    && match programs[t][at[t]]
       case Unlock(_) => true
       case Lock(m) => forall u | 0 <= u < |at| :: m !in HeldBy(programs, at, u)
  }

  ghost predicate Run(programs: seq<seq<Action>>, trace: seq<seq<nat>>, who: seq<nat>) {
    && |trace| == |who| + 1
    && trace[0] == seq(|programs|, _ => 0)
    && forall i | 0 <= i < |who| ::
         && State(programs, trace[i]) && who[i] < |programs| && CanStep(programs, trace[i], who[i])
         && trace[i + 1] == trace[i][who[i] := trace[i][who[i]] + 1]
  }

  lemma StepHeld(p: seq<Action>, n: nat)
    requires n < |p|
    ensures Held(p[..n + 1]) == match p[n] case Lock(m) => Held(p[..n]) + {m} case Unlock(m) => Held(p[..n]) - {m}
  {
    assert p[..n + 1][..n] == p[..n];
  }

  lemma StepExclusive(programs: seq<seq<Action>>, at: seq<nat>, t: nat)
    requires State(programs, at) && Exclusive(programs, at) && t < |at| && CanStep(programs, at, t)
    ensures State(programs, at[t := at[t] + 1]) && Exclusive(programs, at[t := at[t] + 1])
  {
    var next := at[t := at[t] + 1];
    StepHeld(programs[t], at[t]);
    forall u: nat | u < |at| && u != t ensures HeldBy(programs, next, u) == HeldBy(programs, at, u) {
    }
    forall u: nat | u < |at| && u != t ensures HeldBy(programs, next, t) !! HeldBy(programs, at, u) {
      assert HeldBy(programs, at, t) !! HeldBy(programs, at, u) by {
        if u < t {
          assert HeldBy(programs, at, u) !! HeldBy(programs, at, t);
        }
      }
    }
  }

  lemma {:induction false} RunExclusive(programs: seq<seq<Action>>, trace: seq<seq<nat>>, who: seq<nat>, n: nat)
    requires Run(programs, trace, who) && n < |trace|
    ensures State(programs, trace[n]) && Exclusive(programs, trace[n])
  {
    if n > 0 {
      RunExclusive(programs, trace, who, n - 1);
      assert trace[n - 1 + 1] == trace[n - 1][who[n - 1] := trace[n - 1][who[n - 1]] + 1];
      StepExclusive(programs, trace[n - 1], who[n - 1]);
    }
  }

  /** The mutex that a blocked thread waits for. */
  ghost predicate WaitsFor(programs: seq<seq<Action>>, at: seq<nat>, t: nat, m: Mutex)
    requires State(programs, at) && t < |at|
  {
    at[t] < |programs[t]| && programs[t][at[t]] == Lock(m)
  }

  /** Whoever holds a lock is not at its end, and what it waits for ranks higher. */
  lemma HolderGoesOn(programs: seq<seq<Action>>, at: seq<nat>, u: nat, m: Mutex)
    requires State(programs, at) && u < |at| && Disciplined(programs[u]) && m in HeldBy(programs, at, u)
    ensures at[u] < |programs[u]|
    ensures forall k | WaitsFor(programs, at, u, k) :: Rank(m) < Rank(k)
  {
    var p := programs[u];
    assert p[..|p|] == p;
    if at[u] < |p| {
      assert Allowed(Held(p[..at[u]]), p[at[u]]);
    }
  }

  /** Following from a blocked thread to the holder of its lock finds one that can go on. */
  lemma Unstuck(programs: seq<seq<Action>>, at: seq<nat>, t: nat, m: Mutex) returns (u: nat)
    requires State(programs, at) && (forall p | p in programs :: Disciplined(p))
    requires t < |at| && WaitsFor(programs, at, t, m)
    ensures u < |at| && CanStep(programs, at, u)
    decreases 2 - Rank(m)
  {
    if v: nat :| v < |at| && m in HeldBy(programs, at, v) {
      HolderGoesOn(programs, at, v, m);
      match programs[v][at[v]] {
        case Unlock(_) => u := v;
        case Lock(k) =>
          assert WaitsFor(programs, at, v, k);
          u := Unstuck(programs, at, v, k);
      }
    } else {
      u := t;
    }
  }

  /** Any number of disciplined threads: while one has work left, one can step. */
  lemma NoDeadlock(programs: seq<seq<Action>>, trace: seq<seq<nat>>, who: seq<nat>, n: nat, t: nat) returns (u: nat)
    requires Run(programs, trace, who) && n < |trace|
    requires forall p | p in programs :: Disciplined(p)
    requires t < |programs| && |trace[n]| == |programs| && trace[n][t] < |programs[t]|
    ensures State(programs, trace[n]) && u < |programs| && CanStep(programs, trace[n], u)
  {
    RunExclusive(programs, trace, who, n);
    var at := trace[n];
    match programs[t][at[t]] {
      case Unlock(_) => u := t;
      case Lock(m) => u := Unstuck(programs, at, t, m);
    }
  }

  // ---------------------------------------------------------------- the two threads

  datatype Handler =
    // iApp thread
    | E42Setup | E42Subscription | E42Delete | E42ControlRequest
    // RIC thread
    | Response | Indication | SetupRequest | ShutdownEvent | TimerEvent

  function Guarded(m: Mutex): seq<Action> {
    [Lock(m), Unlock(m)]
  }

  /** Draw or take the id, enter it in `pending`, look the socket up, send. */
  const FORWARD := Guarded(Pending) + Guarded(NodeSockets) + Guarded(RicEndpoint)

  /** The mutexes that a handler takes, with the receipt of its message. */
  function Actions(h: Handler): seq<Action> {
    match h
    case E42Setup => Guarded(IappEndpoint) + Guarded(RegE2Nodes) + Guarded(XappSockets) + Guarded(IappEndpoint)
    case E42Subscription =>
      Guarded(IappEndpoint) + Guarded(RegE2Nodes) + [Lock(MapRicId)] + FORWARD + [Unlock(MapRicId)]
    case E42ControlRequest =>
      Guarded(IappEndpoint) + Guarded(RegE2Nodes) + [Lock(MapRicId)] + FORWARD + [Unlock(MapRicId)]
    case E42Delete => Guarded(IappEndpoint) + Guarded(MapRicId) + FORWARD
    case Response =>
      Guarded(RicEndpoint) + Guarded(Pending) + Guarded(MapRicId) + Guarded(XappSockets) + Guarded(IappEndpoint)
    case Indication => Guarded(RicEndpoint) + Guarded(MapRicId) + Guarded(XappSockets) + Guarded(IappEndpoint)
    case SetupRequest =>
      Guarded(RicEndpoint) + Guarded(NodeSockets) + Guarded(RegE2Nodes) + Guarded(ConnE2Nodes) + Guarded(RicEndpoint)
    case ShutdownEvent => Guarded(RicEndpoint) + Guarded(NodeSockets) + Guarded(ConnE2Nodes) + Guarded(RegE2Nodes)
    case TimerEvent => Guarded(Pending)
  }

  function Program(hs: seq<Handler>): seq<Action> {
    if hs == [] then [] else Program(hs[..|hs| - 1]) + Actions(hs[|hs| - 1])
  }

  lemma HeldAppend(p: seq<Action>, q: seq<Action>)
    requires Held(p) == {}
    ensures Held(p + q) == Held(q)
  {
    if q == [] {
      assert p + q == p;
    } else {
      HeldAppend(p, q[..|q| - 1]);
      assert (p + q)[..|p + q| - 1] == p + q[..|q| - 1];
    }
  }

  lemma DisciplinedAppend(p: seq<Action>, q: seq<Action>)
    requires Disciplined(p) && Disciplined(q)
    ensures Disciplined(p + q)
  {
    HeldAppend(p, q);
    forall i | 0 <= i < |p + q| ensures Allowed(Held((p + q)[..i]), (p + q)[i]) {
      if i < |p| {
        assert (p + q)[..i] == p[..i];
      } else {
        HeldAppend(p, q[..i - |p|]);
        assert (p + q)[..i] == p + q[..i - |p|];
      }
    }
  }

  lemma GuardedDisciplined(m: Mutex)
    ensures Disciplined(Guarded(m))
  {
    var p := Guarded(m);
    assert p[..0] == [] && p[..1] == [Lock(m)] && p[..1][..0] == [];
    StepHeld(p, 0);
    StepHeld(p, 1);
    assert p[..2] == p;
  }

  /** Holding the id-map lock, one may run what is disciplined without it. */
  lemma NestedHeld(q: seq<Action>)
    requires forall i | 0 <= i < |q| :: q[i].m != MapRicId
    ensures Held([Lock(MapRicId)] + q) == {MapRicId} + Held(q)
  {
    var a := [Lock(MapRicId)];
    if q == [] {
      assert a + q == a && a[..0] == [];
    } else {
      NestedHeld(q[..|q| - 1]);
      assert (a + q)[..|a + q| - 1] == a + q[..|q| - 1];
    }
  }

  lemma NestedDisciplined(q: seq<Action>)
    requires Disciplined(q) && forall i | 0 <= i < |q| :: q[i].m != MapRicId
    ensures Disciplined([Lock(MapRicId)] + q + [Unlock(MapRicId)])
  {
    var a := [Lock(MapRicId)];
    var p := a + q + [Unlock(MapRicId)];
    forall i | 0 <= i < |p| ensures Allowed(Held(p[..i]), p[i]) {
      if i == 0 {
        assert p[..0] == [];
      } else if i <= |q| {
        assert p[..i] == a + q[..i - 1];
        NestedHeld(q[..i - 1]);
      } else {
        assert p[..i] == a + q;
        NestedHeld(q);
      }
    }
    NestedHeld(q);
    assert p[..|p| - 1] == a + q;
  }

  lemma ForwardDisciplined()
    ensures Disciplined(FORWARD) && forall i | 0 <= i < |FORWARD| :: FORWARD[i].m != MapRicId
  {
    GuardedDisciplined(Pending);
    GuardedDisciplined(NodeSockets);
    GuardedDisciplined(RicEndpoint);
    DisciplinedAppend(Guarded(Pending), Guarded(NodeSockets));
    DisciplinedAppend(Guarded(Pending) + Guarded(NodeSockets), Guarded(RicEndpoint));
  }

  lemma ChainDisciplined(ms: seq<Mutex>)
    ensures Disciplined(Chain(ms))
  {
    if ms != [] {
      ChainDisciplined(ms[..|ms| - 1]);
      GuardedDisciplined(ms[|ms| - 1]);
      DisciplinedAppend(Chain(ms[..|ms| - 1]), Guarded(ms[|ms| - 1]));
    }
  }

  function Chain(ms: seq<Mutex>): seq<Action> {
    if ms == [] then [] else Chain(ms[..|ms| - 1]) + Guarded(ms[|ms| - 1])
  }

  lemma Chain3(a: Mutex, b: Mutex, c: Mutex)
    ensures Chain([a, b, c]) == Guarded(a) + Guarded(b) + Guarded(c)
    ensures Chain([a, b]) == Guarded(a) + Guarded(b)
  {
    assert [a, b, c][..2] == [a, b] && [a, b][..1] == [a] && [a][..0] == [];
    assert Chain([a]) == Guarded(a);
  }

  lemma Chain5(a: Mutex, b: Mutex, c: Mutex, d: Mutex, e: Mutex)
    ensures Chain([a, b, c, d]) == Guarded(a) + Guarded(b) + Guarded(c) + Guarded(d)
    ensures Chain([a, b, c, d, e]) == Guarded(a) + Guarded(b) + Guarded(c) + Guarded(d) + Guarded(e)
  {
    Chain3(a, b, c);
    assert [a, b, c, d][..3] == [a, b, c] && [a, b, c, d, e][..4] == [a, b, c, d];
  }

  lemma NestedHandler()
    ensures Disciplined(Actions(E42Subscription)) && Disciplined(Actions(E42ControlRequest))
  {
    ForwardDisciplined();
    NestedDisciplined(FORWARD);
    Chain3(IappEndpoint, RegE2Nodes, RegE2Nodes);
    ChainDisciplined([IappEndpoint, RegE2Nodes]);
    var pre := Guarded(IappEndpoint) + Guarded(RegE2Nodes);
    DisciplinedAppend(pre, [Lock(MapRicId)] + FORWARD + [Unlock(MapRicId)]);
    assert Actions(E42Subscription) == pre + ([Lock(MapRicId)] + FORWARD + [Unlock(MapRicId)]);
  }

  lemma FlatHandler(h: Handler)
    requires !h.E42Subscription? && !h.E42ControlRequest?
    ensures Disciplined(Actions(h))
  {
    match h {
      case E42Setup =>
        Chain5(IappEndpoint, RegE2Nodes, XappSockets, IappEndpoint, IappEndpoint);
        ChainDisciplined([IappEndpoint, RegE2Nodes, XappSockets, IappEndpoint]);
      case E42Delete =>
        ForwardDisciplined();
        Chain3(IappEndpoint, MapRicId, MapRicId);
        ChainDisciplined([IappEndpoint, MapRicId]);
        DisciplinedAppend(Guarded(IappEndpoint) + Guarded(MapRicId), FORWARD);
      case Response =>
        Chain5(RicEndpoint, Pending, MapRicId, XappSockets, IappEndpoint);
        ChainDisciplined([RicEndpoint, Pending, MapRicId, XappSockets, IappEndpoint]);
      case Indication =>
        Chain5(RicEndpoint, MapRicId, XappSockets, IappEndpoint, IappEndpoint);
        ChainDisciplined([RicEndpoint, MapRicId, XappSockets, IappEndpoint]);
      case SetupRequest =>
        Chain5(RicEndpoint, NodeSockets, RegE2Nodes, ConnE2Nodes, RicEndpoint);
        ChainDisciplined([RicEndpoint, NodeSockets, RegE2Nodes, ConnE2Nodes, RicEndpoint]);
      case ShutdownEvent =>
        Chain5(RicEndpoint, NodeSockets, ConnE2Nodes, RegE2Nodes, RegE2Nodes);
        ChainDisciplined([RicEndpoint, NodeSockets, ConnE2Nodes, RegE2Nodes]);
      case TimerEvent => GuardedDisciplined(Pending);
    }
  }

  lemma {:induction false} ProgramDisciplined(hs: seq<Handler>)
    ensures Disciplined(Program(hs))
  {
    if hs != [] {
      var h := hs[|hs| - 1];
      ProgramDisciplined(hs[..|hs| - 1]);
      if h.E42Subscription? || h.E42ControlRequest? {
        NestedHandler();
      } else {
        FlatHandler(h);
      }
      DisciplinedAppend(Program(hs[..|hs| - 1]), Actions(h));
    }
  }

  /** Whatever handlers the iApp thread and the RIC thread run, in any interleaving,
      they never block each other for good. */
  lemma RicProcessNeverStuck(iapp: seq<Handler>, ric: seq<Handler>, trace: seq<seq<nat>>, who: seq<nat>, n: nat, t: nat)
    returns (u: nat)
    requires Run([Program(iapp), Program(ric)], trace, who) && n < |trace|
    requires t < 2 && |trace[n]| == 2 && trace[n][t] < |[Program(iapp), Program(ric)][t]|
    ensures State([Program(iapp), Program(ric)], trace[n]) && u < 2
            && CanStep([Program(iapp), Program(ric)], trace[n], u)
  {
    ProgramDisciplined(iapp);
    ProgramDisciplined(ric);
    u := NoDeadlock([Program(iapp), Program(ric)], trace, who, n, t);
  }
}
