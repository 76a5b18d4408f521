// The E2 agent: its tables, the fds they own and the dispatch of epoll events.
module Agent {
  import opened E2ap
  import opened BiMap
  import opened AgentTables
  import opened Protocol

  datatype Event =
    | CheckStopToken
    | Network
    | IndicationDue(ric: RicGenId)
    | SetupOverdue

  datatype Dispatch = Event(e: Event) | AssertFails

  const NO_EVENT := -1

  /** The tests of next_async_event_agent, in their order. */
  function Classify(a: AgentState, fd: Fd): Dispatch {
    if fd == NO_EVENT then Event(CheckStopToken)
    else if fd == a.net then Event(Network)
    else if fd in a.ind.left then Event(IndicationDue(a.ind.left[fd]))
    else if |a.pending| == 1 && fd in a.pending then Event(SetupOverdue)
    else AssertFails
  }

  /** The epoll set is the disjoint union of the three owners of fds. */
  ghost predicate Owned(a: AgentState) {
    && a.ind.Inverse()
    && a.net !in a.ind.left && a.net !in a.pending
    && (forall fd | fd in a.ind.left :: fd !in a.pending)
    && (forall i, j | 0 <= i < j < |a.pending| :: a.pending[i] != a.pending[j])
    && a.epoll == {a.net} + a.ind.left.Keys + (set fd | fd in a.pending)
    && (forall fd | fd in a.epoll :: fd > 0)
  }

  ghost predicate Partition(a: AgentState) {
    Owned(a) && |a.pending| <= 1
  }

  /** Every event of a registered fd is dispatched to the owner of that fd ... */
  lemma DispatchedToOwner(a: AgentState, fd: Fd)
    requires Partition(a) && (fd == NO_EVENT || fd in a.epoll)
    ensures Classify(a, fd).Event?
    ensures Classify(a, fd) == Event(CheckStopToken) <==> fd == NO_EVENT
    ensures Classify(a, fd) == Event(Network) <==> fd == a.net
    ensures (exists ric :: Classify(a, fd) == Event(IndicationDue(ric))) <==> fd in a.ind.left
    ensures Classify(a, fd) == Event(SetupOverdue) <==> fd in a.pending
    ensures Classify(a, fd).e.IndicationDue? ==>
              Classify(a, fd).e.ric in a.ind.right && a.ind.right[Classify(a, fd).e.ric] == fd
  {
  }

  /** ... and this is so exactly when no second setup timer is armed. */
  lemma DispatchNeedsOneSetup(a: AgentState)
    requires Owned(a)
    ensures (forall fd | fd in a.epoll :: Classify(a, fd).Event?) <==> |a.pending| <= 1
  {
    if |a.pending| > 1 {
      var fd := a.pending[0];
      assert fd in a.epoll && Classify(a, fd) == AssertFails;
    }
  }

  // ---------------------------------------------------------------- runs

  datatype Act =
    | Request(m: E2Req, fd: Fd)
    | SetupAnswered
    | SetupSent(fd: Fd)      // at the start, and when the connection is lost
    | Fires(fd: Fd)

  /** What the handlers assert, and what the kernel guarantees of a new timer. A
      setup timer is armed without a look at the one that may be armed already. */
  predicate Allowed(a: AgentState, act: Act) {
    match act
    case Request(m, fd) =>
      (match m.kind
       case Subscribe => fd > 0 && fd !in a.epoll && m.ric !in a.ind.right
       case Delete => m.ric in a.ind.right
       case Control => true)
    case SetupAnswered => a.pending != []
    case SetupSent(fd) => fd > 0 && fd !in a.epoll
    case Fires(fd) => fd == NO_EVENT || fd in a.epoll
  }

  function HandleRequest(a: AgentState, m: E2Req, fd: Fd): (AgentState, E2Ans)
    requires Allowed(a, Request(m, fd))
  {
    match m.kind
    case Subscribe => (AddInd(a, fd, m.ric), E2Ans(SubResponse, m.ric))
    case Delete => (StopInd(a, m.ric), E2Ans(DelResponse, m.ric))
    case Control => (a, E2Ans(ControlAck, m.ric))
  }

  function Apply(a: AgentState, act: Act): AgentState
    requires Allowed(a, act)
  {
    match act
    case Request(m, fd) => HandleRequest(a, m, fd).0
    case SetupAnswered => StopSetup(a)
    case SetupSent(fd) => AwaitSetup(a, fd)
    case Fires(_) => a
  }

  lemma StopIndOwned(a: AgentState, ric: RicGenId)
    requires Owned(a) && ric in a.ind.right
    ensures Owned(StopInd(a, ric))
  {
    var b := StopInd(a, ric);
    var fd := a.ind.right[ric];
    forall d | d in b.ind.left ensures b.ind.left[d] in b.ind.right && b.ind.right[b.ind.left[d]] == d {
      assert a.ind.left[d] in a.ind.right;
    }
    forall e | e in b.ind.right ensures b.ind.right[e] in b.ind.left && b.ind.left[b.ind.right[e]] == e {
      assert a.ind.right[e] in a.ind.left;
    }
    assert b.ind.left.Keys == a.ind.left.Keys - {fd};
  }

  lemma ApplyOwned(a: AgentState, act: Act)
    requires Owned(a) && Allowed(a, act)
    ensures Owned(Apply(a, act))
    ensures |Apply(a, act).pending|
            == |a.pending| + (if act.SetupSent? then 1 else 0) - (if act.SetupAnswered? then 1 else 0)
  {
    match act {
      case Request(m, fd) =>
        match m.kind {
          case Subscribe =>
          case Delete => StopIndOwned(a, m.ric);
          case Control =>
        }
      case SetupAnswered => assert a.pending == [a.pending[0]] + a.pending[1..];
      case SetupSent(fd) =>
      case Fires(_) =>
    }
  }

  ghost predicate Run(trace: seq<AgentState>, acts: seq<Act>) {
    && |trace| == |acts| + 1
    && trace[0] == Connected(trace[0].net) && trace[0].net > 0
    && forall i | 0 <= i < |acts| :: Allowed(trace[i], acts[i]) && trace[i + 1] == Apply(trace[i], acts[i])
  }

  /** Setup requests sent and not answered after n steps. */
  function Unanswered(acts: seq<Act>, n: nat): int
    requires n <= |acts|
  {
    if n == 0 then 0
    else Unanswered(acts, n - 1) + (if acts[n - 1].SetupSent? then 1 else if acts[n - 1].SetupAnswered? then -1 else 0)
  }

  /** In every reachable state, under any reuse of closed fds, the epoll set is the
      disjoint union of its three owners; and all its events are dispatched if and
      only if at most one setup request waits for its answer. */
  lemma {:induction false} FdPartition(trace: seq<AgentState>, acts: seq<Act>, n: nat)
    requires Run(trace, acts) && n < |trace|
    ensures Owned(trace[n]) && |trace[n].pending| == Unanswered(acts, n)
    ensures (forall fd | fd == NO_EVENT || fd in trace[n].epoll :: Classify(trace[n], fd).Event?)
            <==> Unanswered(acts, n) <= 1
  {
    if n > 0 {
      FdPartition(trace, acts, n - 1);
      ApplyOwned(trace[n - 1], acts[n - 1]);
      assert trace[n - 1 + 1] == Apply(trace[n - 1], acts[n - 1]);
    }
    DispatchNeedsOneSetup(trace[n]);
  }

  /** The setup request at the start, and a loss of the connection before its
      answer: two timers are armed, and the first one that fires is not dispatched. */
  lemma LossBeforeAnswer(net: Fd, a: Fd, b: Fd)
    requires net > 0 && a > 0 && b > 0 && net != a && net != b && a != b
    ensures exists trace: seq<AgentState> ::
              && Run(trace, [SetupSent(a), SetupSent(b)]) && trace[0].net == net
              && trace[2].pending == [a, b] && Classify(trace[2], a) == AssertFails
  {
    var s0 := Connected(net);
    var s1 := AwaitSetup(s0, a);
    var s2 := AwaitSetup(s1, b);
    var trace, acts := [s0, s1, s2], [SetupSent(a), SetupSent(b)];
    assert Apply(trace[0], acts[0]) == trace[1] && Apply(trace[1], acts[1]) == trace[2];
    assert Run(trace, acts);
    assert trace[2].pending == [a, b] && a in trace[2].epoll;
  }

  /** The agents of the protocol model take exactly these steps. */
  lemma ProtocolRunsHandler(s: Sys, n: NodeId, fd: Fd)
    requires n in s.agents && Get(s.r2a, n) != []
    requires Get(s.r2a, n)[0].kind == Subscribe ==> fd > 0 && fd !in s.agents[n].epoll && fd !in s.agents[n].ind.left
    ensures var m := s.r2a[n][0];
            var a := s.agents[n];
            if Allowed(a, Request(m, fd)) then
              var (b, ans) := HandleRequest(a, m, fd);
              DoAgentRecv(s, n, fd)
              == Ok(Emit(s.(r2a := s.r2a[n := s.r2a[n][1..]], agents := s.agents[n := b]), n, ans))
            else DoAgentRecv(s, n, fd) == Abort
  {
    match s.r2a[n][0].kind {
      case Subscribe =>
      case Delete =>
      case Control => assert s.agents[n := s.agents[n]] == s.agents;
    }
  }

  // ---------------------------------------------------------------- the object

  class E2Agent {
    const net: Fd
    var ind: Bi<Fd, RicGenId>
    var pending: seq<Fd>
    var epoll: set<Fd>

    function State(): AgentState
      reads this
    {
      AgentState(net, ind, pending, epoll)
    }

    constructor (net: Fd)
      requires net > 0
      ensures State() == Connected(net) && Partition(State())
    {
      this.net := net;
      ind, pending, epoll := Bi(map[], map[]), [], {net};
    }

    /** add_fd_asio_agent, at the end of the creation of a timer. */
    method AddFd(fd: Fd)
      modifies this`epoll
      ensures epoll == old(epoll) + {fd}
    {
      epoll := epoll + {fd};
    }

    /** rm_fd_asio_agent: out of the epoll set, and closed. */
    method RmFd(fd: Fd)
      modifies this`epoll
      ensures epoll == old(epoll) - {fd}
    {
      epoll := epoll - {fd};
    }

    method HandleSubscription(m: E2Req, timer: Fd) returns (ans: E2Ans)
      requires m.kind == Subscribe && Partition(State()) && Allowed(State(), Request(m, timer))
      modifies this
      ensures (State(), ans) == HandleRequest(old(State()), m, timer)
      ensures Partition(State()) && ans == E2Ans(SubResponse, m.ric)
      ensures ind.left == old(ind.left)[timer := m.ric] && ind.right == old(ind.right)[m.ric := timer]
      ensures epoll == old(epoll) + {timer} && pending == old(pending)
    {
      ghost var was := State();
      AddFd(timer);
      ind := ind.Insert(timer, m.ric);
      ans := E2Ans(SubResponse, m.ric);
      ApplyOwned(was, Request(m, timer));
    }

    method StopIndEvent(ric: RicGenId)
      requires ric in ind.right
      modifies this
      ensures State() == StopInd(old(State()), ric)
    {
      var fd := ind.right[ric];
      ind := ind.ExtractRight(ric);
      RmFd(fd);
    }

    method HandleDelete(m: E2Req) returns (ans: E2Ans)
      requires m.kind == Delete && Partition(State()) && m.ric in ind.right
      modifies this
      ensures State() == StopInd(old(State()), m.ric) && ans == E2Ans(DelResponse, m.ric)
      ensures Partition(State()) && m.ric !in ind.right && old(ind.right[m.ric]) !in epoll
      ensures ind.right == old(ind.right) - {m.ric} && ind.left == old(ind.left) - {old(ind.right[m.ric])}
      ensures epoll == old(epoll) - {old(ind.right[m.ric])} && pending == old(pending)
    {
      ghost var was := State();
      StopIndEvent(m.ric);
      ans := E2Ans(DelResponse, m.ric);
      StopIndOwned(was, m.ric);
    }

    /** The answer closes the request that was made, under its own id. */
    method HandleControl(m: E2Req) returns (ans: E2Ans)
      requires m.kind == Control
      ensures Closes(ans.kind) == Some(m.kind) && ans.ric == m.ric
    {
      ans := E2Ans(ControlAck, m.ric);
    }

    method HandleSetupResponse()
      requires Partition(State()) && pending != []
      modifies this
      ensures State() == StopSetup(old(State()))
      ensures Partition(State()) && pending == []
      ensures ind == old(ind) && epoll == old(epoll) - {old(pending)[0]}
    {
      ghost var was := State();
      var fd := pending[0];
      pending := pending[1..];
      RmFd(fd);
      ApplyOwned(was, SetupAnswered);
    }

    /** e2_start_agent and notification_handle_ag. */
    method ArmSetupTimer(timer: Fd)
      requires Owned(State()) && Allowed(State(), SetupSent(timer))
      modifies this
      ensures State() == AwaitSetup(old(State()), timer)
      ensures ind == old(ind) && pending == old(pending) + [timer] && epoll == old(epoll) + {timer}
      ensures Owned(State()) && (Partition(State()) <==> old(pending) == [])
    {
      ghost var was := State();
      AddFd(timer);
      pending := pending + [timer];
      ApplyOwned(was, SetupSent(timer));
    }

    /** next_async_event_agent; its assertions hold. */
    method NextEvent(fd: Fd) returns (e: Event)
      requires Partition(State()) && (fd == NO_EVENT || fd in epoll)
      ensures Classify(State(), fd) == Event(e)
      ensures e == Network <==> fd == net
      ensures e == SetupOverdue <==> fd in pending
      ensures e.IndicationDue? <==> fd in ind.left
    {
      if fd == NO_EVENT {
        e := CheckStopToken;
      } else if fd == net {
        e := Network;
      } else if fd in ind.left {
        e := IndicationDue(ind.left[fd]);
      } else {
        assert |pending| == 1 && fd in pending;
        e := SetupOverdue;
      }
    }
  }
}
