// The RIC process as objects: the near-RIC and the iApp that it hosts. Their
// methods change fields in place; the contracts say which functions of Tables
// they apply. At the end, a whole handler is related to the protocol's steps.
module NearRic {
  import opened E2ap
  import opened BiMap
  import opened RicTables
  import opened IdMap
  import opened Protocol
  import opened XappTables
  import PubSub
  import RegE2Nodes

  /** Storing 16 bits through a pointer to a 32-bit number leaves its upper half. */
  function PatchLow(req: U32, id: U16): (r: U32)
    ensures Trunc16(r) == id
    ensures r == id <==> req < TWO_16
  {
    req - req % TWO_16 + id
  }

  /** A decoded E42 request; the embedded E2 request is forwarded from the same memory. */
  class RequestMsg {
    const kind: ReqKind
    const xapp: U16
    const node: NodeId
    var ric: RicGenId

    constructor (kind: ReqKind, xapp: U16, node: NodeId, ric: RicGenId)
      ensures this.kind == kind && this.xapp == xapp && this.node == node && this.ric == ric
    {
      this.kind, this.xapp, this.node, this.ric := kind, xapp, node, ric;
    }
  }

  class NearRicObj {
    var reqId: int
    var pending: Bi<Fd, PendEvent>
    var timers: set<Fd>
    var sent: map<NodeId, seq<E2Req>>   // what has been sent on each association
    const pub: PubSub.Publisher
    var told: seq<(PubSub.Listener, E2Ans)>   // the calls of the listeners

    function State(): RicState
      reads this
    {
      RicState(reqId, pending, timers)
    }

    constructor (plugins: seq<U16>)
      requires forall i, j | 0 <= i < j < |plugins| :: plugins[i] < plugins[j]
      ensures State() == Init().ric && sent == map[] && told == []
      ensures fresh(pub) && pub.subs == PubSub.Loaded(plugins) && PubSub.AllDefault(pub.subs)
    {
      reqId, pending, timers, sent, told := FIRST_REQ_ID, Bi(map[], map[]), {}, map[], [];
      pub := new PubSub.Publisher();
      new;
      pub.LoadDefault(plugins);
    }

    /** A timer is created and the entry of the request goes in with it. */
    method AddPendingEvent(ev: PendEvent, timer: Fd)
      requires pending.Fresh(timer, ev)
      modifies this`pending, this`timers
      ensures State() == AddPending(old(State()), timer, ev)
    {
      timers := timers + {timer};
      pending := pending.Insert(timer, ev);
    }

    /** fwd_ric_subscription_request and fwd_ric_control_request. */
    method FwdRequest(msg: RequestMsg, timer: Fd) returns (id: U16)
      requires msg.kind != Delete && msg.node in sent
      requires pending.Fresh(timer, PendEvent(msg.kind, msg.ric.(req := PatchLow(msg.ric.req, Trunc16(reqId)))))
      modifies this, msg`ric
      ensures id == Trunc16(old(reqId)) && msg.ric == old(msg.ric).(req := PatchLow(old(msg.ric.req), id))
      ensures msg.ric == old(msg.ric).(req := id) <==> old(msg.ric.req) < TWO_16
      ensures State() == AddPending(old(State()).(reqId := Increment(old(reqId))), timer, PendEvent(msg.kind, msg.ric))
      ensures sent == old(sent)[msg.node := old(sent)[msg.node] + [E2Req(msg.kind, msg.ric)]]
    {
      id := Trunc16(reqId);
      reqId := Increment(reqId);
      msg.ric := msg.ric.(req := PatchLow(msg.ric.req, id));
      AddPendingEvent(PendEvent(msg.kind, msg.ric), timer);
      sent := sent[msg.node := sent[msg.node] + [E2Req(msg.kind, msg.ric)]];
    }

    /** fwd_ric_subscription_request_delete. */
    method FwdDelete(node: NodeId, ric: RicGenId, timer: Fd)
      requires node in sent && pending.Fresh(timer, PendEvent(Delete, ric))
      modifies this
      ensures State() == AddPending(old(State()), timer, PendEvent(Delete, ric))
      ensures sent == old(sent)[node := old(sent)[node] + [E2Req(Delete, ric)]]
    {
      AddPendingEvent(PendEvent(Delete, ric), timer);
      sent := sent[node := sent[node] + [E2Req(Delete, ric)]];
    }

    method StopPendingEvent(ev: PendEvent)
      requires ev in pending.right
      modifies this`pending, this`timers
      ensures State() == StopPending(old(State()), ev)
    {
      var fd := pending.right[ev];
      pending := pending.ExtractRight(ev);
      timers := timers - {fd};
    }

    /** The handlers of the four answers, up to the notification of the iApp. An
        indication must be of an accepted type and of a registered function. */
    method HandleAnswer(m: E2Ans)
      requires Awaited(State(), m)
      requires m.kind.Indication? ==> !Refused(m) && PubSub.IndexOf(pub.subs, m.ric.func) < |pub.subs|
      modifies this`pending, this`timers, this`told
      ensures State() == Answered(old(State()), m)
      ensures old(told) <= told && |told| == |old(told)| + (if m.kind.Indication? then |pub.subs[0].1| else 0)
      ensures m.kind.Indication? ==>
              forall i | 0 <= i < |pub.subs[0].1| :: told[|old(told)| + i] == (pub.subs[0].1[i], m)
      ensures m.kind.Indication? && PubSub.AllDefault(pub.subs) ==>
                told == old(told) + [(PubSub.Stdout, m), (PubSub.Redis, m), (PubSub.Influx, m)]
      ensures m.kind.Indication? ==> State() == old(State())
      ensures forall ev :: ev in pending.right <==>
                ev in old(pending.right) && !(Closes(m.kind) == Some(ev.kind) && ev.ric == m.ric)
    {
      match m.kind {
        case SubResponse => StopPendingEvent(PendEvent(Subscribe, m.ric));
        case DelResponse => StopPendingEvent(PendEvent(Delete, m.ric));
        case ControlAck => StopPendingEvent(PendEvent(Control, m.ric));
        case Indication(_) =>
          var called := pub.Publish(m.ric.func);
          told := told + Told(called, m);
      }
    }
  }

  /** Each of the listeners is called with the indication. */
  function Told(ls: seq<PubSub.Listener>, m: E2Ans): seq<(PubSub.Listener, E2Ans)> {
    seq(|ls|, i requires 0 <= i < |ls| => (ls[i], m))
  }

  const FIRST_ID := FIRST_XAPP

  class IappObj {
    const ric: NearRicObj
    const e2Nodes: RegE2Nodes.Registry
    var xappId: U32
    var ids: Ids
    var xapps: map<U16, Sock>
    var sent: map<Sock, seq<E2Ans>>

    constructor (ric: NearRicObj, e2Nodes: RegE2Nodes.Registry)
      ensures this.ric == ric && this.e2Nodes == e2Nodes && xappId == Init().nextXapp && ids == Init().ids
              && xapps == map[] && sent == map[]
    {
      this.ric, this.e2Nodes := ric, e2Nodes;
      xappId, ids, xapps, sent := FIRST_ID, Ids(map[], map[]), map[], map[];
    }

    /** E42 setup: number the xApp, list the nodes, register the socket. */
    method HandleSetup(sock: Sock) returns (id: U16, listed: array<RegE2Nodes.Connected>)
      requires Trunc16(xappId) !in xapps && e2Nodes.Valid() && 0 < |e2Nodes.nodes| <= MAX_NODES
      modifies this
      ensures listed[..] == e2Nodes.nodes && listed.Length > 0
      ensures id == Trunc16(old(xappId)) && xappId == (old(xappId) + 1) % TWO_32
      ensures xapps == old(xapps)[id := sock]
      ensures sent == old(sent) && ids == old(ids)
    {
      var overrun;
      listed, overrun := e2Nodes.Generate();
      id := Trunc16(xappId);
      xappId := (xappId + 1) % TWO_32;
      xapps := xapps[id := sock];
    }

    method ValidXappId(id: U16) returns (ok: bool)
      ensures ok <==> id <= xappId
    {
      ok := id <= xappId;
    }

    /** add_map_ric_id. */
    method AddPair(n: NodeReq, x: XappRicId)
      requires n.req !in ids.left && x !in ids.right
      modifies this`ids
      ensures ids == Add(old(ids), n, x)
    {
      ids := Ids(ids.left[n.req := Bind(n.node, x)], ids.right[x := n]);
    }

    /** Subscription and control requests of an xApp. The id of the request is
        copied before the forwarding overwrites it. */
    method HandleRequest(msg: RequestMsg, timer: Fd)
      requires msg.kind != Delete && msg.xapp <= xappId && msg.node in ric.sent
      requires e2Nodes.Valid() && |e2Nodes.nodes| <= MAX_NODES && RegE2Nodes.Registered(e2Nodes.nodes, msg.node)
      requires ric.pending.Fresh(timer, PendEvent(msg.kind, msg.ric.(req := PatchLow(msg.ric.req, Trunc16(ric.reqId)))))
      requires Trunc16(ric.reqId) !in ids.left && XappRicId(msg.ric, msg.xapp) !in ids.right
      modifies this`ids, ric, msg`ric
      ensures var id := Trunc16(old(ric.reqId));
              var e := old(msg.ric).(req := PatchLow(old(msg.ric.req), id));
              && ids == Add(old(ids), NodeReq(msg.node, id), XappRicId(old(msg.ric), msg.xapp))
              && ric.State() == AddPending(old(ric.State()).(reqId := Increment(old(ric.reqId))), timer,
                  PendEvent(msg.kind, e))
              && ric.sent == old(ric.sent)[msg.node := old(ric.sent)[msg.node] + [E2Req(msg.kind, e)]]
    {
      var ok := ValidXappId(msg.xapp);
      var known := e2Nodes.ValidNode(msg.node);
      assert ok && known;
      var x := XappRicId(msg.ric, msg.xapp);
      var id := ric.FwdRequest(msg, timer);
      AddPair(NodeReq(msg.node, id), x);
    }

    /** A delete goes to the node and under the id that its subscription went to. */
    method HandleDelete(x: XappRicId, timer: Fd)
      requires x in ids.right && ids.right[x].node in ric.sent
      requires ric.pending.Fresh(timer, PendEvent(Delete, x.ric.(req := ids.right[x].req)))
      modifies ric
      ensures var n := ids.right[x];
              && ric.State() == AddPending(old(ric.State()), timer, PendEvent(Delete, x.ric.(req := n.req)))
              && ric.sent == old(ric.sent)[n.node := old(ric.sent)[n.node] + [E2Req(Delete, x.ric.(req := n.req))]]
    {
      var n := ids.right[x];
      ric.FwdDelete(n.node, x.ric.(req := n.req), timer);
    }

    /** The four answers: the lookup, and the message with its id restored. */
    method NotifyMsg(m: E2Ans)
      requires var id := Trunc16(m.ric.req);
               && id > 0 && id in ids.left
               && ids.left[id].who.ric.func == m.ric.func && ids.left[id].who.ric.inst == m.ric.inst
               && ids.left[id].who.xapp in xapps && xapps[ids.left[id].who.xapp] in sent
      modifies this`sent
      ensures var who := ids.left[Trunc16(m.ric.req)].who;
              sent == old(sent)[xapps[who.xapp] := old(sent)[xapps[who.xapp]] + [E2Ans(m.kind, who.ric)]]
    {
      var who := ids.left[Trunc16(m.ric.req)].who;
      var ans := m;
      match m.kind {
        case SubResponse => ans := ans.(ric := ans.ric.(req := who.ric.req));
        case Indication(_) => ans := ans.(ric := ans.ric.(req := who.ric.req));
        case DelResponse => ans := E2Ans(m.kind, who.ric);
        case ControlAck => ans := E2Ans(m.kind, who.ric);
      }
      sent := sent[xapps[who.xapp] := sent[xapps[who.xapp]] + [ans]];
    }
  }

  // ---------------------------------------------------------------- handlers and steps

  function Then(o: Outcome, st: Step): Outcome {
    match o
    case Ok(s) => Next(s, st)
    case _ => o
  }

  /** The state after a whole handler that nothing interrupts; the ids of an xApp
      fit in 16 bits, so that the overwriting replaces the whole number. */
  function Forwarded(s: Sys, req: E42Req, timer: Fd): Sys
    requires !req.E42Delete? && req.node in s.r2a
  {
    var id := Trunc16(s.ric.reqId);
    var e := req.ric.(req := PatchLow(req.ric.req, id));
    s.(ric := AddPending(s.ric.(reqId := Increment(s.ric.reqId)), timer, PendEvent(req.Kind(), e)),
       r2a := s.r2a[req.node := s.r2a[req.node] + [E2Req(req.Kind(), e)]],
       ids := Add(s.ids, NodeReq(req.node, id), req.Who()),
       forwarded := s.forwarded + 1, ipc := IIdle)
  }

  /** The setup of an xApp that gets this list of nodes is the protocol's step: the
      xApp knows the listed nodes, has the next number, and nothing is under way. */
  lemma SetupIsItsStep(s: Sys, k: Sock, listed: seq<RegE2Nodes.Connected>)
    requires k !in s.xs && Trunc16(s.nextXapp) !in s.socks && 0 < |s.agents| <= MAX_NODES
    requires s.agents.Keys == set e | e in listed :: e.id
    ensures var id := Trunc16(s.nextXapp);
            Next(s, XappSetup(k))
            == Ok(s.(xs := s.xs[k := XappState(id, set e | e in listed :: e.id, map[], 1, [], NoCall)],
                     x2i := s.x2i[k := []], i2x := s.i2x[k := []],
                     nextXapp := s.nextXapp + 1, socks := s.socks[id := k]))
  {
  }

  lemma HandlerFirstHalf(s: Sys, req: E42Req, timer: Fd)
    requires s.ipc == IGot(req) && s.lock == Free && !req.E42Delete? && req.node in s.r2a
    requires timer > 0 && timer !in s.ric.timers
    requires s.ric.pending.Fresh(timer, PendEvent(req.Kind(), req.ric.(req := Trunc16(s.ric.reqId))))
    ensures var id := Trunc16(s.ric.reqId);
            Then(Then(Ok(s), IappLock), IappPend(timer))
            == Ok(s.(lock := ByIapp, forwarded := s.forwarded + 1,
                     ric := AddPending(s.ric.(reqId := Increment(s.ric.reqId)), timer,
                         PendEvent(req.Kind(), req.ric.(req := id))),
                     ipc := IPended(req.Kind(), NodeReq(req.node, id), req.Who())))
  {
  }

  lemma HandlerSecondHalf(s: Sys, kind: ReqKind, at: NodeReq, who: XappRicId)
    requires s.ipc == IPended(kind, at, who) && at.node in s.r2a && at.req !in s.ids.left && who !in s.ids.right
    ensures Then(Then(Then(Ok(s), IappSend), IappAdd), IappUnlock)
            == Ok(s.(lock := Free, ipc := IIdle, ids := Add(s.ids, at, who),
                     r2a := s.r2a[at.node := s.r2a[at.node] + [E2Req(kind, who.ric.(req := at.req))]]))
  {
  }

  /** Run without interruption, the protocol's steps amount to HandleRequest. */
  lemma HandlerIsItsSteps(s: Sys, req: E42Req, timer: Fd)
    requires s.ipc == IGot(req) && s.lock == Free && !req.E42Delete? && req.node in s.r2a && req.ric.req < TWO_16
    requires timer > 0 && timer !in s.ric.timers
    requires s.ric.pending.Fresh(timer, PendEvent(req.Kind(), req.ric.(req := Trunc16(s.ric.reqId))))
    requires Trunc16(s.ric.reqId) !in s.ids.left && req.Who() !in s.ids.right
    ensures Then(Then(Then(Then(Then(Ok(s), IappLock), IappPend(timer)), IappSend), IappAdd), IappUnlock)
            == Ok(Forwarded(s, req, timer))
  {
    HandlerFirstHalf(s, req, timer);
    var id := Trunc16(s.ric.reqId);
    var t := Then(Then(Ok(s), IappLock), IappPend(timer)).s;
    HandlerSecondHalf(t, req.Kind(), NodeReq(req.node, id), req.Who());
  }

  lemma DeleteFirstHalf(s: Sys, req: E42Req)
    requires s.ipc == IGot(req) && s.lock == Free && req.E42Delete? && req.Who() in s.ids.right
    ensures Then(Then(Ok(s), IappLock), IappFind) == Ok(s.(ipc := IFound(req, s.ids.right[req.Who()])))
  {
  }

  lemma DeleteSecondHalf(s: Sys, req: E42Req, at: NodeReq, timer: Fd)
    requires s.ipc == IFound(req, at) && at.node in s.r2a
    requires timer > 0 && timer !in s.ric.timers
             && s.ric.pending.Fresh(timer, PendEvent(Delete, req.ric.(req := at.req)))
    ensures var e := req.ric.(req := at.req);
            Then(Then(Ok(s), IappPend(timer)), IappSend)
            == Ok(s.(ric := AddPending(s.ric, timer, PendEvent(Delete, e)),
                     r2a := s.r2a[at.node := s.r2a[at.node] + [E2Req(Delete, e)]], ipc := IIdle))
  {
  }

  /** So do those of a delete ... */
  lemma DeleteIsItsSteps(s: Sys, req: E42Req, timer: Fd)
    requires s.ipc == IGot(req) && s.lock == Free && req.E42Delete? && req.Who() in s.ids.right
    requires var at := s.ids.right[req.Who()];
             at.node in s.r2a && s.ric.pending.Fresh(timer, PendEvent(Delete, req.ric.(req := at.req)))
    requires timer > 0 && timer !in s.ric.timers
    ensures var at := s.ids.right[req.Who()];
            var e := req.ric.(req := at.req);
            Then(Then(Then(Then(Ok(s), IappLock), IappFind), IappPend(timer)), IappSend)
            == Ok(s.(ric := AddPending(s.ric, timer, PendEvent(Delete, e)),
                     r2a := s.r2a[at.node := s.r2a[at.node] + [E2Req(Delete, e)]], ipc := IIdle))
  {
    DeleteFirstHalf(s, req);
    DeleteSecondHalf(s.(ipc := IFound(req, s.ids.right[req.Who()])), req, s.ids.right[req.Who()], timer);
  }

  lemma AnswerFirstHalf(s: Sys, n: NodeId, m: E2Ans)
    requires s.rpc == RGot(n, m) && s.lock == Free && Awaited(s.ric, m) && !Refused(m)
    ensures Then(Then(Ok(s), RicStop), RicLock)
            == Ok(s.(ric := Answered(s.ric, m), rpc := RLocked(n, m), lock := ByRic))
  {
  }

  lemma AnswerSecondHalf(s: Sys, n: NodeId, m: E2Ans)
    requires s.rpc == RLocked(n, m)
    requires var id := Trunc16(m.ric.req);
             && id > 0 && id in s.ids.left
             && s.ids.left[id].who.ric.func == m.ric.func && s.ids.left[id].who.ric.inst == m.ric.inst
             && s.ids.left[id].who.xapp in s.socks && s.socks[s.ids.left[id].who.xapp] in s.i2x
    ensures var who := s.ids.left[Trunc16(m.ric.req)].who;
            var k := s.socks[who.xapp];
            Then(Then(Ok(s), RicFind), RicSend)
            == Ok(s.(lock := Free, i2x := s.i2x[k := s.i2x[k] + [E2Ans(m.kind, who.ric)]], rpc := RIdle))
  {
    var who := s.ids.left[Trunc16(m.ric.req)].who;
    assert Translate(m, who) == E2Ans(m.kind, who.ric);
  }

  /** ... and of an answer, from HandleAnswer to NotifyMsg. */
  lemma AnswerIsItsSteps(s: Sys, n: NodeId, m: E2Ans)
    requires s.rpc == RGot(n, m) && s.lock == Free && Awaited(s.ric, m) && !Refused(m)
    requires var id := Trunc16(m.ric.req);
             && id > 0 && id in s.ids.left
             && s.ids.left[id].who.ric.func == m.ric.func && s.ids.left[id].who.ric.inst == m.ric.inst
             && s.ids.left[id].who.xapp in s.socks && s.socks[s.ids.left[id].who.xapp] in s.i2x
    ensures var who := s.ids.left[Trunc16(m.ric.req)].who;
            var k := s.socks[who.xapp];
            Then(Then(Then(Then(Ok(s), RicStop), RicLock), RicFind), RicSend)
            == Ok(s.(ric := Answered(s.ric, m), i2x := s.i2x[k := s.i2x[k] + [E2Ans(m.kind, who.ric)]], rpc := RIdle))
  {
    AnswerFirstHalf(s, n, m);
    AnswerSecondHalf(s.(ric := Answered(s.ric, m), rpc := RLocked(n, m), lock := ByRic), n, m);
  }
}
