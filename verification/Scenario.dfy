// A run with one subscription: the statements about runs are not empty.
module Scenario {
  import opened E2ap
  import opened BiMap
  import opened RicTables
  import opened IdMap
  import opened XappTables
  import opened AgentTables
  import opened Protocol
  import opened Invariant
  import opened Stability
  import opened Runs
  import opened EndToEnd

  const SOCK := 4
  const NET := 3
  const FUNC: U16 := 142
  const NODE := NodeId(GNB, Plmn(1, 1, 2), 1, None)
  const PROC := Proc(Subscribe, FUNC, NODE)
  const RIC_X := RicGenId(1, 0, FUNC)
  const WHO := XappRicId(RIC_X, FIRST_XAPP)
  const RIC_E := RicGenId(FIRST_REQ_ID, 0, FUNC)
  const AT := NodeReq(NODE, FIRST_REQ_ID)
  const EV := PendEvent(Subscribe, RIC_E)

  /** The idle tables around one xApp state and one agent state. */
  function Base(x: XappState, a: AgentState): Sys {
    Init().(xs := map[SOCK := x], x2i := map[SOCK := []], i2x := map[SOCK := []],
            nextXapp := FIRST_XAPP + 1, socks := map[FIRST_XAPP := SOCK],
            agents := map[NODE := a], r2a := map[NODE := []], a2r := map[NODE := []])
  }

  const IDLE := XappState(FIRST_XAPP, {NODE}, map[], 1, [], NoCall)
  const CALLING := IDLE.(procs := map[1 := PROC], nextKey := 2, pending := [(9, PendEvent(Subscribe, RIC_X))],
                         call := Waiting(Subscribe, RIC_X))
  const SUBSCRIBED := Connected(NET).(ind := Bi(map[5 := RIC_E], map[RIC_E := 5]), epoll := {NET, 5})

  const REQ := E42Subscribe(FIRST_XAPP, NODE, RIC_X)
  const ANS := E2Ans(SubResponse, RIC_E)
  const PENDED := RicState(FIRST_REQ_ID + 1, Bi(map[8 := EV], map[EV := 8]), {8})
  const STOPPED := RicState(FIRST_REQ_ID + 1, Bi(map[], map[]), {})

  /** The request has left the xApp. */
  function Called(): Sys {
    Base(CALLING, Connected(NET))
  }

  /** The request is on its way to the node and its id is bound. */
  function Sent(): Sys {
    Called().(ric := PENDED, forwarded := 1, r2a := map[NODE := [E2Req(Subscribe, RIC_E)]],
              ids := Ids(map[FIRST_REQ_ID := Bind(NODE, WHO)], map[WHO := AT]))
  }

  /** The agent has subscribed; the answer is on its way. */
  function Answering(): Sys {
    Sent().(agents := map[NODE := SUBSCRIBED], r2a := map[NODE := []], emitted := map[FIRST_REQ_ID := [SubResponse]])
  }

  /** The answer has passed the RIC. */
  function Passed(): Sys {
    Answering().(ric := STOPPED)
  }

  /** The call has returned. */
  function AtRest(): Sys {
    Passed().(xs := map[SOCK := CALLING.(pending := [], call := NoCall)], received := map[WHO := [SubResponse]])
  }

  lemma Popped<K, T>(k: K, x: T)
    ensures map[k := [x]][k := [x][1..]] == map[k := []]
  {
    var e: seq<T> := [x][1..];
    assert e == [];
    var m: map<K, seq<T>> := map[k := e];
    assert map[k := [x]][k := e] == m;
  }

  lemma Pushed<K, T>(k: K, x: T)
    ensures var e: seq<T> := []; map[k := e][k := e + [x]] == map[k := [x]]
  {
    var e: seq<T> := [];
    assert e + [x] == [x];
    var m: map<K, seq<T>> := map[k := e];
    assert m[k := [x]] == map[k := [x]];
  }

  lemma Report1()
    ensures Next(Base(IDLE, Connected(NET)), Report(SOCK, NODE, FUNC, 9)) == Ok(Called().(x2i := map[SOCK := [REQ]]))
  {
    Pushed(SOCK, REQ);
    assert map[SOCK := IDLE][SOCK := CALLING] == map[SOCK := CALLING];
    assert IDLE.procs[1 := PROC] == CALLING.procs;
    assert IDLE.pending + [(9, PendEvent(Subscribe, RIC_X))] == CALLING.pending;
  }

  lemma Receive2()
    ensures Next(Called().(x2i := map[SOCK := [REQ]]), IappRecv(SOCK)) == Ok(Called().(ipc := IGot(REQ)))
  {
    Popped(SOCK, REQ);
    assert map[SOCK := [REQ]][SOCK := []] == map[SOCK := []];
  }

  lemma Pend3()
    ensures Next(Called().(ipc := ILocked(REQ), lock := ByIapp), IappPend(8))
            == Ok(Called().(ric := PENDED, forwarded := 1, ipc := IPended(Subscribe, AT, WHO), lock := ByIapp))
  {
    assert map[][8 := EV] == map[8 := EV];
    assert map[][EV := 8] == map[EV := 8];
    assert {} + {8} == {8};
  }

  lemma Send4()
    ensures Next(Called().(ric := PENDED, forwarded := 1, ipc := IPended(Subscribe, AT, WHO), lock := ByIapp), IappSend)
            == Ok(Sent().(ids := Ids(map[], map[]), ipc := ISent(AT, WHO), lock := ByIapp))
  {
    assert [] + [E2Req(Subscribe, RIC_E)] == [E2Req(Subscribe, RIC_E)];
    assert map[NODE := []][NODE := [E2Req(Subscribe, RIC_E)]] == map[NODE := [E2Req(Subscribe, RIC_E)]];
  }

  lemma Add5()
    ensures Next(Sent().(ids := Ids(map[], map[]), ipc := ISent(AT, WHO), lock := ByIapp), IappAdd)
            == Ok(Sent().(ipc := IAdded, lock := ByIapp))
  {
    assert map[][FIRST_REQ_ID := Bind(NODE, WHO)] == map[FIRST_REQ_ID := Bind(NODE, WHO)];
    assert map[][WHO := AT] == map[WHO := AT];
  }

  lemma Subscribe6()
    ensures Next(Sent(), AgentRecv(NODE, 5)) == Ok(Answering().(a2r := map[NODE := [ANS]]))
  {
    Popped(NODE, E2Req(Subscribe, RIC_E));
    Pushed(NODE, ANS);
    assert map[NODE := Connected(NET)][NODE := SUBSCRIBED] == map[NODE := SUBSCRIBED];
    assert map[NODE := [E2Req(Subscribe, RIC_E)]][NODE := []] == map[NODE := []];
    assert [] + [SubResponse] == [SubResponse];
    assert map[][FIRST_REQ_ID := [SubResponse]] == map[FIRST_REQ_ID := [SubResponse]];
    assert AddInd(Connected(NET), 5, RIC_E) == SUBSCRIBED;
  }

  lemma Receive7()
    ensures Next(Answering().(a2r := map[NODE := [ANS]]), RicRecv(NODE)) == Ok(Answering().(rpc := RGot(NODE, ANS)))
  {
    Popped(NODE, ANS);
    assert map[NODE := [ANS]][NODE := []] == map[NODE := []];
  }

  lemma Stop8()
    ensures Next(Answering().(rpc := RGot(NODE, ANS)), RicStop) == Ok(Passed().(rpc := RStopped(NODE, ANS)))
  {
    assert StopPending(PENDED, EV) == STOPPED by {
      assert map[8 := EV] - {8} == map[] && map[EV := 8] - {EV} == map[] && {8} - {8} == {};
    }
  }

  lemma Send9()
    ensures Next(Passed().(rpc := RFound(NODE, ANS, WHO)), RicSend)
            == Ok(Passed().(i2x := map[SOCK := [E2Ans(SubResponse, RIC_X)]]))
  {
    Pushed(SOCK, E2Ans(SubResponse, RIC_X));
  }

  const WOKEN := CALLING.(pending := [], call := Signalled(Subscribe, RIC_X))

  lemma Hear10()
    ensures Next(Passed().(i2x := map[SOCK := [E2Ans(SubResponse, RIC_X)]]), XappRecv(SOCK))
            == Ok(AtRest().(xs := map[SOCK := WOKEN]))
  {
    Popped(SOCK, E2Ans(SubResponse, RIC_X));
    assert map[SOCK := [E2Ans(SubResponse, RIC_X)]][SOCK := []] == map[SOCK := []];
    assert CoarseIndex(CALLING.pending, Subscribe) == 0;
    assert RemoveAt(CALLING.pending, 0) == [];
    assert [] + [SubResponse] == [SubResponse];
    assert map[][WHO := [SubResponse]] == map[WHO := [SubResponse]];
    assert map[SOCK := CALLING][SOCK := WOKEN] == map[SOCK := WOKEN];
  }

  lemma Return11()
    ensures Next(AtRest().(xs := map[SOCK := WOKEN]), XappReturn(SOCK)) == Ok(AtRest())
  {
    assert map[SOCK := WOKEN][SOCK := CALLING.(pending := [], call := NoCall)]
           == map[SOCK := CALLING.(pending := [], call := NoCall)];
  }

  // ---------------------------------------------------------------- the run

  lemma Extend(steps: seq<Step>, s: Sys, st: Step, t: Sys) returns (more: seq<Step>)
    requires Exec(steps) == Ok(s) && Next(s, st) == Ok(t)
    ensures Exec(more) == Ok(t)
  {
    more := steps + [st];
    assert more[..|steps|] == steps;
  }

  lemma Starts() returns (steps: seq<Step>)
    ensures Exec(steps) == Ok(Base(IDLE, Connected(NET)))
  {
    var s1 := Init().(agents := map[NODE := Connected(NET)], r2a := map[NODE := []], a2r := map[NODE := []]);
    steps := Extend([], Init(), NodeSetup(NODE, NET), s1);
    assert s1.agents.Keys == {NODE};
    steps := Extend(steps, s1, XappSetup(SOCK), Base(IDLE, Connected(NET)));
  }

  lemma Locks(req: E42Req)
    requires req == REQ
    ensures Next(Called().(ipc := IGot(req)), IappLock) == Ok(Called().(ipc := ILocked(req), lock := ByIapp))
    ensures Next(Sent().(ipc := IAdded, lock := ByIapp), IappUnlock) == Ok(Sent())
  {
  }

  lemma LocksBack()
    ensures Next(Passed().(rpc := RStopped(NODE, ANS)), RicLock)
            == Ok(Passed().(rpc := RLocked(NODE, ANS), lock := ByRic))
    ensures Next(Passed().(rpc := RLocked(NODE, ANS), lock := ByRic), RicFind)
            == Ok(Passed().(rpc := RFound(NODE, ANS, WHO)))
  {
  }

  lemma Forwards() returns (steps: seq<Step>)
    ensures Exec(steps) == Ok(Sent())
  {
    steps := Starts();
    Report1();
    steps := Extend(steps, Base(IDLE, Connected(NET)), Report(SOCK, NODE, FUNC, 9),
        Called().(x2i := map[SOCK := [REQ]]));
    Receive2();
    steps := Extend(steps, Called().(x2i := map[SOCK := [REQ]]), IappRecv(SOCK), Called().(ipc := IGot(REQ)));
    Locks(REQ);
    steps := Extend(steps, Called().(ipc := IGot(REQ)), IappLock, Called().(ipc := ILocked(REQ), lock := ByIapp));
    steps := Binds(steps);
    steps := Extend(steps, Sent().(ipc := IAdded, lock := ByIapp), IappUnlock, Sent());
  }

  lemma Binds(before: seq<Step>) returns (steps: seq<Step>)
    requires Exec(before) == Ok(Called().(ipc := ILocked(REQ), lock := ByIapp))
    ensures Exec(steps) == Ok(Sent().(ipc := IAdded, lock := ByIapp))
  {
    Pend3();
    var s1 := Called().(ric := PENDED, forwarded := 1, ipc := IPended(Subscribe, AT, WHO), lock := ByIapp);
    steps := Extend(before, Called().(ipc := ILocked(REQ), lock := ByIapp), IappPend(8), s1);
    Send4();
    var s2 := Sent().(ids := Ids(map[], map[]), ipc := ISent(AT, WHO), lock := ByIapp);
    steps := Extend(steps, s1, IappSend, s2);
    Add5();
    steps := Extend(steps, s2, IappAdd, Sent().(ipc := IAdded, lock := ByIapp));
  }

  lemma Answers(before: seq<Step>) returns (steps: seq<Step>)
    requires Exec(before) == Ok(Sent())
    ensures Exec(steps) == Ok(Passed().(rpc := RFound(NODE, ANS, WHO)))
  {
    Subscribe6();
    steps := Extend(before, Sent(), AgentRecv(NODE, 5), Answering().(a2r := map[NODE := [ANS]]));
    Receive7();
    steps := Extend(steps, Answering().(a2r := map[NODE := [ANS]]), RicRecv(NODE),
        Answering().(rpc := RGot(NODE, ANS)));
    Stop8();
    steps := Extend(steps, Answering().(rpc := RGot(NODE, ANS)), RicStop, Passed().(rpc := RStopped(NODE, ANS)));
    LocksBack();
    steps := Extend(steps, Passed().(rpc := RStopped(NODE, ANS)), RicLock,
        Passed().(rpc := RLocked(NODE, ANS), lock := ByRic));
    steps := Extend(steps, Passed().(rpc := RLocked(NODE, ANS), lock := ByRic), RicFind,
        Passed().(rpc := RFound(NODE, ANS, WHO)));
  }

  lemma Delivers(before: seq<Step>) returns (steps: seq<Step>)
    requires Exec(before) == Ok(Passed().(rpc := RFound(NODE, ANS, WHO)))
    ensures Exec(steps) == Ok(AtRest())
  {
    Send9();
    var s1 := Passed().(i2x := map[SOCK := [E2Ans(SubResponse, RIC_X)]]);
    steps := Extend(before, Passed().(rpc := RFound(NODE, ANS, WHO)), RicSend, s1);
    Hear10();
    steps := Extend(steps, s1, XappRecv(SOCK), AtRest().(xs := map[SOCK := WOKEN]));
    Return11();
    steps := Extend(steps, AtRest().(xs := map[SOCK := WOKEN]), XappReturn(SOCK), AtRest());
  }

  /** A reachable state at rest with one live subscription, paired as stated. */
  lemma OneSubscription()
    ensures Reachable(AtRest()) && Quiet(AtRest())
    ensures Paired(AtRest(), SOCK, 1, NODE, RIC_E)
  {
    var steps := Forwards();
    steps := Answers(steps);
    steps := Delivers(steps);
    assert Exec(steps) == Ok(AtRest());
  }
}
