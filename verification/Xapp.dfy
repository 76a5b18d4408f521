// An xApp as an object: its calls and the handlers of its event loop work on the
// procedure registry, the pending table and the state of the one blocking call.
module Xapp {
  import opened E2ap
  import opened XappTables
  import opened ActProc
  import AssocReg
  import opened PendingXapp
  import XappSteps

  datatype Event = Network | TimerExpired(kind: ReqKind)

  /** The descriptors of the armed timers. */
  function Timers(t: seq<(Fd, PendEvent)>): set<Fd> {
    set e | e in t :: e.0
  }

  ghost predicate NoneTwice(t: seq<(Fd, PendEvent)>) {
    forall i, j | 0 <= i < j < |t| :: t[i].0 != t[j].0
  }

  lemma TimersWithout(t: seq<(Fd, PendEvent)>, i: nat)
    requires i < |t| && NoneTwice(t)
    ensures NoneTwice(RemoveAt(t, i)) && Timers(RemoveAt(t, i)) == Timers(t) - {t[i].0}
  {
    var u := RemoveAt(t, i);
    assert forall j | 0 <= j < |u| :: u[j] == t[if j < i then j else j + 1];
    forall e | e in t && e != t[i] ensures e in u {
      var j :| 0 <= j < |t| && t[j] == e;
      assert u[if j < i then j else j - 1] == e;
    }
  }

  class XappObj {
    const id: U16
    const net: Fd
    const nodes: set<NodeId>   // as the setup response listed them
    var epoll: set<Fd>
    const procs: ActProcs
    const pending: PendingEvents
    var call: Call
    var sent: seq<E42Req>
    var rows: seq<(NodeId, AnsKind)>   // handed to the database and the callback

    ghost predicate Valid()
      reads this, procs, procs.reg, procs.reg.arr, pending
    {
      && procs.Valid()
      && NoneTwice(pending.entries) && net !in Timers(pending.entries)
      && epoll == {net} + Timers(pending.entries)
    }

    /** The object's tables are those of this state of the protocol model. */
    ghost predicate Models(x: XappState)
      reads this, procs, procs.reg, procs.reg.arr, pending
    {
      && Valid()
      && id == x.id && nodes == x.nodes && call == x.call && pending.entries == x.pending
          && procs.reg.keyId == x.nextKey
      && Matches(x.procs, procs.State())
    }

    constructor (id: U16, net: Fd, nodes: set<NodeId>)
      ensures Models(XappState(id, nodes, map[], 1, [], NoCall)) && sent == [] && rows == []
      ensures fresh(procs) && fresh(procs.reg) && fresh(procs.reg.arr) && fresh(pending)
    {
      this.id, this.net, this.nodes, epoll := id, net, nodes, {net};
      procs := new ActProcs();
      pending := new PendingEvents();
      call, sent, rows := NoCall, [], [];
    }

    /** The request handlers: send, arm the timer; the caller then waits. */
    method SendAndWait(req: E42Req, fd: Fd)
      requires fd > 0 && fd !in epoll && Valid()
      modifies this, pending
      ensures Valid()
      ensures sent == old(sent) + [req] && rows == old(rows)
      ensures pending.entries == old(pending.entries) + [(fd, PendEvent(req.Kind(), req.ric))]
      ensures call == Waiting(req.Kind(), req.ric)
    {
      sent := sent + [req];
      pending.Add(fd, PendEvent(req.Kind(), req.ric));
      epoll := epoll + {fd};
      call := Waiting(req.Kind(), req.ric);
    }

    /** The first half of report_sm_sync_xapp and control_sm_sync_xapp. */
    method Open(kind: ReqKind, node: NodeId, func: U16, fd: Fd, ghost x: XappState)
      requires Models(x) && kind != Delete && ValidRanFunc(func) && x.nextKey < TWO_16 && fd > 0 && fd !in epoll
      requires if kind == Subscribe then node in x.nodes else Controllable(func)
      modifies this, procs.reg, procs.reg.arr, pending
      ensures 1 <= x.nextKey && Models(XappSteps.OpenedXapp(x, kind, node, func, fd))
      ensures sent == old(sent) + [XappSteps.OpenRequest(x, kind, node, func)]
      ensures var ric := RicGenId(x.nextKey, 0, func);
              && sent == old(sent)
                  + [if kind == Subscribe then E42Subscribe(x.id, node, ric) else E42Control(x.id, node, ric)]
              && AssocReg.Lookup(procs.State(), x.nextKey) == Some(Proc(kind, func, node))
              && (forall k: U16 | k != x.nextKey ::
                  AssocReg.Lookup(procs.State(), k) == AssocReg.Lookup(old(procs.State()), k))
              && pending.entries == old(pending.entries) + [(fd, PendEvent(kind, ric))]
              && call == Waiting(kind, ric) && epoll == old(epoll) + {fd}
    {
      MapAgrees(x.procs, procs.State(), x.nextKey, Proc(kind, func, node), 0);
      var ric := procs.GenerateRicGenId(kind, func, node);
      var req := if kind == Subscribe then E42Subscribe(id, node, ric) else E42Control(id, node, ric);
      SendAndWait(req, fd);
    }

    /** The first half of rm_report_sm_sync_xapp. */
    method BeginRm(handle: U16, fd: Fd, ghost x: XappState)
      requires Models(x) && handle > 0 && handle in x.procs && fd > 0 && fd !in epoll
      modifies this, procs.reg.arr, pending
      ensures Models(XappSteps.EndingXapp(x, handle, fd))
      ensures var ric := RicGenId(handle, 0, x.procs[handle].func);
              && pending.entries == old(pending.entries) + [(fd, PendEvent(Delete, ric))]
              && call == Waiting(Delete, ric) && epoll == old(epoll) + {fd}
      ensures sent == old(sent) + [E42Delete(x.id, RicGenId(handle, 0, x.procs[handle].func))]
    {
      assert AssocReg.Lookup(procs.State(), handle) == Some(x.procs[handle]);
      var val := procs.Find(handle);
      SendAndWait(E42Delete(id, val.value.ric), fd);
    }

    method DropProcedure(key: U16, ghost x: XappState)
      requires Models(x) && key > 0 && key in x.procs
      modifies procs.reg, procs.reg.arr
      ensures Models(x.(procs := x.procs - {key}))
    {
      assert AssocReg.Lookup(procs.State(), key) == Some(x.procs[key]);
      MapAgrees(x.procs, procs.State(), 0, x.procs[key], key);
      procs.Rm(key);
    }

    /** The second half: the caller wakes; all but a report drop the procedure, whose
        number a report hands out as the handle. */
    method EndCall(ghost x: XappState) returns (handle: U32)
      requires Models(x) && x.call.Signalled?
      requires x.call.kind != Subscribe ==> 0 < x.call.ric.req < TWO_16 && x.call.ric.req in x.procs
      modifies this, procs.reg, procs.reg.arr
      ensures Models(XappSteps.ReturnedXapp(x)) && sent == old(sent)
      ensures call == NoCall && pending.entries == old(pending.entries) && handle == x.call.ric.req
      ensures forall k: U16 :: AssocReg.Lookup(procs.State(), k)
                == if x.call.kind != Subscribe && k == x.call.ric.req then None
                   else if k in x.procs then Some(x.procs[k]) else None
    {
      handle := call.ric.req;
      if call.kind != Subscribe {
        DropProcedure(call.ric.req, x);
      }
      call := NoCall;
    }

    /** rm_pending_event_xapp: the first timer of this kind goes. */
    method StopTimer(ev: PendEvent)
      requires Valid() && CoarseIndex(pending.entries, ev.kind) < |pending.entries|
      modifies this`epoll, pending
      ensures Valid()
      ensures pending.entries == RemoveAt(old(pending.entries), CoarseIndex(old(pending.entries), ev.kind))
    {
      TimersWithout(pending.entries, CoarseIndex(pending.entries, ev.kind));
      var fd := pending.Rm(ev);
      epoll := epoll - {fd};
    }

    /** The handlers of the three answers: find the procedure, stop the timer of its
        kind, signal the caller. */
    method HandleAnswer(m: E2Ans, ghost x: XappState)
      requires Models(x) && Closes(m.kind).Some?
      requires 0 < m.ric.req < TWO_16 && m.ric.req in x.procs
      requires CoarseIndex(x.pending, Closes(m.kind).value) < |x.pending|
      modifies this, procs.reg.arr, pending
      ensures Models(x.(pending := RemoveAt(x.pending, CoarseIndex(x.pending, Closes(m.kind).value)),
                        call := if x.call.Waiting? then Signalled(x.call.kind, x.call.ric) else x.call))
      ensures sent == old(sent) && rows == old(rows)
    {
      assert AssocReg.Lookup(procs.State(), m.ric.req) == Some(x.procs[m.ric.req]);
      var val := procs.Find(m.ric.req);
      StopTimer(PendEvent(Closes(m.kind).value, val.value.ric));
      if call.Waiting? {
        call := Signalled(call.kind, call.ric);
      }
    }

    /** find_event_type: a descriptor of the epoll set is the network's or that of
        an armed timer, never both or neither. */
    method NextEvent(fd: Fd) returns (e: Event)
      requires Valid() && fd in epoll
      ensures e == Network <==> fd == net
      ensures e.TimerExpired? <==> fd in Timers(pending.entries)
      ensures e.TimerExpired? ==>
              exists i :: 0 <= i < |pending.entries| && pending.entries[i].0 == fd
                  && pending.entries[i].1.kind == e.kind
    {
      if fd == net {
        return Network;
      }
      var i := 0;
      while pending.entries[i].0 != fd
        invariant 0 <= i < |pending.entries|
        invariant forall j | 0 <= j < i :: pending.entries[j].0 != fd
        decreases |pending.entries| - i
      {
        assert exists j :: 0 <= j < |pending.entries| && pending.entries[j].0 == fd;
        i := i + 1;
      }
      e := TimerExpired(pending.entries[i].1.kind);
    }

    /** e2ap_handle_indication_xapp: the data goes on exactly if the procedure is registered. */
    method HandleIndication(m: E2Ans, ghost x: XappState) returns (known: bool)
      requires Models(x) && m.kind.Indication? && !Refused(m) && 0 < m.ric.req < TWO_16
      modifies this`rows, procs.reg.arr
      ensures Models(x) && (known <==> m.ric.req in x.procs)
      ensures rows == old(rows) + (if known then [(x.procs[m.ric.req].node, m.kind)] else [])
    {
      assert AssocReg.Lookup(procs.State(), m.ric.req)
             == if m.ric.req in x.procs then Some(x.procs[m.ric.req]) else None;
      var val := procs.Find(m.ric.req);
      known := val.Some?;
      if known {
        rows := rows + [(val.value.node, m.kind)];
      }
    }
  }
}
