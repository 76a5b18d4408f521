// The life of one request: what each event of the system does to its view.
module RequestLife {
  import opened E2ap
  import opened Invariant

  function Waken(c: CallView): CallView {
    match c
    case Waits(kind) => Woken(kind)
    case _ => c
  }

  /** The iApp enters a new request in the pending table and sends it. */
  lemma Opening(v: View, kind: ReqKind)
    requires kind != Delete
    requires v == View(true, Waits(kind), false, [kind], false,
                       kind == Subscribe, false, kind == Control, [], [], [], [])
    ensures ViewOk(v)
  {
    assert Conserved(v);
  }

  function RmReported(v: View): View {
    v.(call := Waits(Delete), early := true)
  }

  lemma RmReporting(v: View)
    requires ViewOk(v) && v.call == Elsewhere && v.active
    ensures ViewOk(RmReported(v))
  {
  }

  function DeletePended(v: View): View {
    v.(early := false, down := v.down + [Delete], pDel := true)
  }

  lemma DeletePending(v: View)
    requires ViewOk(v) && v.early
    ensures !v.pDel && v.down == []
    ensures ViewOk(DeletePended(v))
  {
    assert Established(v);
    assert DelResponse !in v.emitted;
    assert DelResponse !in v.queued;
  }

  /** The agent emits `k`. */
  function Emitted(v: View, k: AnsKind): View {
    v.(emitted := v.emitted + [k], queued := v.queued + [k])
  }

  lemma EmittedConserved(v: View, k: AnsKind)
    requires Conserved(v)
    ensures Conserved(Emitted(v, k))
  {
    assert v.received + v.passed + (v.queued + [k]) == v.received + v.passed + v.queued + [k];
  }

  lemma OpenedSnoc(e: seq<AnsKind>, k: AnsKind)
    requires Opened(e)
    ensures k.Indication? ==> Opened(e + [k])
    ensures k == DelResponse ==> Closed(e + [k])
  {
    assert (e + [k])[..|e|] == e;
    assert (e + [k])[1..] == e[1..] + [k];
  }

  function AgentSubscribed(v: View): View {
    Emitted(v.(down := [], live := true), SubResponse)
  }

  lemma AgentSubscribing(v: View)
    requires ViewOk(v) && v.down != [] && v.down[0] == Subscribe
    ensures !v.live && v.down == [Subscribe]
    ensures ViewOk(AgentSubscribed(v))
  {
    assert v.received == [] && v.passed == [] && v.queued == [];
    EmittedConserved(v.(down := [], live := true), SubResponse);
  }

  function AgentDeleted(v: View): View {
    Emitted(v.(down := [], live := false), DelResponse)
  }

  lemma AgentDeleting(v: View)
    requires ViewOk(v) && v.down != [] && v.down[0] == Delete
    ensures v.live && v.down == [Delete]
    ensures ViewOk(AgentDeleted(v))
  {
    assert Established(v);
    assert SubResponse !in v.queued by {
      assert forall j | 0 <= j < |v.queued| :: v.queued[j] == v.emitted[|v.received| + |v.passed| + j];
      assert forall j | 1 <= j < |v.emitted| :: v.emitted[j] == v.emitted[1..][j - 1];
    }
    OpenedSnoc(v.emitted, DelResponse);
    EmittedConserved(v.(down := [], live := false), DelResponse);
  }

  function AgentControlled(v: View): View {
    Emitted(v.(down := []), ControlAck)
  }

  lemma AgentControlling(v: View)
    requires ViewOk(v) && v.down != [] && v.down[0] == Control
    ensures v.down == [Control]
    ensures ViewOk(AgentControlled(v))
  {
    assert v.received == [] && v.passed == [] && v.queued == [];
    EmittedConserved(v.(down := []), ControlAck);
  }

  lemma Indicating(v: View, p: int)
    requires ViewOk(v) && v.live
    ensures ViewOk(Emitted(v, Indication(p)))
  {
    OpenedSnoc(v.emitted, Indication(p));
    EmittedConserved(v, Indication(p));
  }

  /** The RIC stops the timer of the first queued answer. */
  function Stopped(v: View): View
    requires v.queued != []
  {
    var k := v.queued[0];
    v.(passed := v.passed + [k], queued := v.queued[1..],
       pSub := v.pSub && k != SubResponse,
       pDel := v.pDel && k != DelResponse,
       pCtl := v.pCtl && k != ControlAck)
  }

  lemma EmittedAt(v: View, j: int)
    requires Conserved(v) && 0 <= j < |v.queued|
    ensures |v.received| + |v.passed| + j < |v.emitted|
    ensures v.queued[j] == v.emitted[|v.received| + |v.passed| + j]
  {
  }

  /** No two answers of one request close the same kind of request. */
  lemma ClosesOnce(v: View, a: nat, b: nat)
    requires ViewOk(v) && a < b < |v.emitted|
    ensures v.emitted[a] == v.emitted[b] ==> v.emitted[a].Indication?
  {
    if Opened(v.emitted) {
      assert v.emitted[b] == v.emitted[1..][b - 1];
    }
    if Closed(v.emitted) {
      var e := v.emitted[..|v.emitted| - 1];
      if b < |e| {
        assert v.emitted[b] == e[1..][b - 1];
      }
      if 0 < a {
        assert v.emitted[a] == e[1..][a - 1];
      }
    }
  }

  lemma Stopping(v: View)
    requires ViewOk(v) && v.queued != []
    ensures ViewOk(Stopped(v))
    ensures v.queued[0] == SubResponse ==> v.pSub
    ensures v.queued[0] == DelResponse ==> v.pDel
    ensures v.queued[0] == ControlAck ==> v.pCtl
  {
    var w := Stopped(v);
    assert Conserved(w) by {
      assert v.received + v.passed + v.queued == v.received + (v.passed + [v.queued[0]]) + v.queued[1..];
    }
    StoppingPending(v);
    assert Subscribing(v) == Subscribing(w);
    assert Established(v) == Established(w);
    assert Ending(v) == Ending(w);
    assert Controlling(v) == Controlling(w);
  }

  lemma QueuedOnce(v: View)
    requires ViewOk(v) && v.queued != []
    ensures !v.queued[0].Indication? ==> v.queued[0] !in v.queued[1..]
  {
    var rest := v.queued[1..];
    if v.queued[0] in rest && !v.queued[0].Indication? {
      var j :| 0 <= j < |rest| && rest[j] == v.queued[0];
      EmittedAt(v, 0);
      EmittedAt(v, j + 1);
      ClosesOnce(v, |v.received| + |v.passed|, |v.received| + |v.passed| + j + 1);
    }
  }

  lemma StoppingPending(v: View)
    requires ViewOk(v) && v.queued != []
    ensures PendingExact(Stopped(v))
    ensures v.queued[0] == SubResponse ==> v.pSub
    ensures v.queued[0] == DelResponse ==> v.pDel
    ensures v.queued[0] == ControlAck ==> v.pCtl
  {
    StoppingDown(v);
    QueuedOnce(v);
    StoppedExact(v);
  }

  lemma StoppedExact(v: View)
    requires PendingExact(v) && v.queued != []
    requires !v.queued[0].Indication? ==> v.queued[0] !in v.queued[1..]
    requires v.queued[0] == SubResponse ==> Subscribe !in v.down
    requires v.queued[0] == DelResponse ==> Delete !in v.down
    requires v.queued[0] == ControlAck ==> Control !in v.down
    ensures PendingExact(Stopped(v))
  {
    assert v.queued == [v.queued[0]] + v.queued[1..];
  }

  /** While an answer is queued, its request is not on its way any more. */
  lemma StoppingDown(v: View)
    requires ViewOk(v) && v.queued != []
    ensures v.queued[0] == SubResponse ==> Subscribe !in v.down
    ensures v.queued[0] == DelResponse ==> Delete !in v.down
    ensures v.queued[0] == ControlAck ==> Control !in v.down
  {
    var at := |v.received| + |v.passed|;
    EmittedAt(v, 0);
    if Opened(v.emitted) && at > 0 {
      assert v.emitted[at] == v.emitted[1..][at - 1];
    }
  }

  /** The xApp handles the first answer that has passed the RIC. */
  function Received(v: View): View
    requires v.passed != []
  {
    var k := v.passed[0];
    v.(received := v.received + [k], passed := v.passed[1..],
       call := if Closes(k).Some? then Waken(v.call) else v.call)
  }

  /** What arrives tells what the call is waiting for. */
  lemma Awaited(v: View)
    requires ViewOk(v) && v.passed != []
    ensures v.active
    ensures Closes(v.passed[0]).Some? ==> v.call == Waits(Closes(v.passed[0]).value)
    ensures v.passed[0].Indication? ==> Established(v) || (Ending(v) && |v.received| + 1 < |v.emitted|)
    ensures v.passed[0] == SubResponse ==> Subscribing(v) && v.down == [] && v.received == []
    ensures v.passed[0] == DelResponse ==> Ending(v) && |v.received| + 1 == |v.emitted|
    ensures v.passed[0] == ControlAck ==> Controlling(v) && v.received == [] && v.emitted == [ControlAck]
  {
    var at := |v.received|;
    assert at < |v.emitted| && v.emitted[at] == v.passed[0];
    if Opened(v.emitted) && at > 0 {
      assert v.emitted[at] == v.emitted[1..][at - 1];
    }
    if Closed(v.emitted) && 0 < at < |v.emitted| - 1 {
      assert v.emitted[at] == v.emitted[..|v.emitted| - 1][1..][at - 1];
    }
  }

  lemma Receiving(v: View)
    requires ViewOk(v) && v.passed != []
    ensures ViewOk(Received(v))
  {
    var k := v.passed[0];
    var w := Received(v);
    Awaited(v);
    assert Conserved(w) by {
      assert v.received + v.passed + v.queued == (v.received + [k]) + v.passed[1..] + v.queued;
    }
    assert PendingExact(w);
    match k {
      case SubResponse => assert Established(w);
      case Indication(_) => assert if Established(v) then Established(w) else Ending(w);
      case DelResponse => FullyReceived(v); assert Ending(w);
      case ControlAck => FullyReceived(v); assert Controlling(w);
    }
  }

  lemma FullyReceived(v: View)
    requires Conserved(v) && v.passed != [] && |v.received| + 1 == |v.emitted|
    ensures v.received + [v.passed[0]] == v.emitted
  {
  }

  function Returned(v: View): View
    requires v.call.Woken?
  {
    v.(call := Elsewhere, active := v.active && v.call.kind == Subscribe)
  }

  lemma Returning(v: View)
    requires ViewOk(v) && v.call.Woken?
    ensures v.active
    ensures ViewOk(Returned(v))
  {
  }
}
