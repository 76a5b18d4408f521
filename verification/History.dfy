// What the steps of a run say about its states: the calls that were made, the
// nodes that had been set up, and the timers that fired.
module History {
  import opened E2ap
  import opened BiMap
  import opened RicTables
  import opened IdMap
  import opened XappTables
  import opened AgentTables
  import opened Protocol
  import opened Invariant
  import opened Stability
  import opened Runs
  import opened EndToEnd
  import opened Work
  import opened Drain
  import PendSteps
  import XappSteps

  // ---------------------------------------------------------------- one call

  /** A report asks for the very node and function that the caller names, under the
      next number of its xApp; it is registered so, and its answer is awaited. */
  lemma ReportAsks(s: Sys, k: Sock, n: NodeId, f: U16, fd: Fd, t: Sys)
    requires Next(s, Report(k, n, f, fd)) == Ok(t)
    ensures k in s.xs && k in s.x2i && 0 <= s.xs[k].nextKey < TWO_16
    ensures n in s.xs[k].nodes && 142 <= f <= 148
    ensures var x := s.xs[k];
            var ric := RicGenId(x.nextKey, 0, f);
            t == s.(x2i := s.x2i[k := s.x2i[k] + [E42Subscribe(x.id, n, ric)]],
                    xs := s.xs[k := XappState(x.id, x.nodes, x.procs[x.nextKey := Proc(Subscribe, f, n)], x.nextKey + 1,
                                              x.pending + [(fd, PendEvent(Subscribe, ric))], Waiting(Subscribe, ric))])
  {
  }

  /** So does a control call. */
  lemma ControlAsks(s: Sys, k: Sock, n: NodeId, f: U16, c: U16, fd: Fd, t: Sys)
    requires Next(s, ControlCall(k, n, f, c, fd)) == Ok(t)
    ensures c == f && f in {145, 146}
    ensures k in s.xs && k in s.x2i && 0 <= s.xs[k].nextKey < TWO_16
    ensures var x := s.xs[k];
            var ric := RicGenId(x.nextKey, 0, f);
            t == s.(x2i := s.x2i[k := s.x2i[k] + [E42Control(x.id, n, ric)]],
                    xs := s.xs[k := XappState(x.id, x.nodes, x.procs[x.nextKey := Proc(Control, f, n)], x.nextKey + 1,
                                              x.pending + [(fd, PendEvent(Control, ric))], Waiting(Control, ric))])
  {
  }

  /** The removal of a report asks for the id that the report had, under its handle. */
  lemma RmAsks(s: Sys, k: Sock, h: U16, fd: Fd, t: Sys)
    requires Next(s, RmReport(k, h, fd)) == Ok(t)
    ensures k in s.xs && k in s.x2i && h in s.xs[k].procs
    ensures var x := s.xs[k];
            var ric := RicGenId(h, 0, x.procs[h].func);
            t == s.(x2i := s.x2i[k := s.x2i[k] + [E42Delete(x.id, ric)]],
                    xs := s.xs[k := x.(pending := x.pending + [(fd, PendEvent(Delete, ric))],
                                       call := Waiting(Delete, ric))])
  {
  }

  /** A removal can be asked for exactly when no call waits, and it fails exactly for
      a handle that is not registered. */
  lemma RmEnabled(s: Sys, k: Sock, h: U16, fd: Fd)
    ensures Next(s, RmReport(k, h, fd)).Ok? <==> Ready(s, k) && h in s.xs[k].procs
    ensures Next(s, RmReport(k, h, fd)) == Abort <==> Ready(s, k) && h !in s.xs[k].procs
  {
  }

  // ---------------------------------------------------------------- the calls of a run

  /** The call that opens a procedure of the xApp on `k` with this step. */
  function Opens(st: Step, k: Sock): seq<Proc> {
    match st
    case Report(j, n, f, _) => if j == k then [Proc(Subscribe, f, n)] else []
    case ControlCall(j, n, f, _, _) => if j == k then [Proc(Control, f, n)] else []
    case _ => []
  }

  /** The opening calls of the xApp on `k`, in the order in which they were made. */
  function Calls(steps: seq<Step>, k: Sock): seq<Proc> {
    if steps == [] then [] else Calls(steps[..|steps| - 1], k) + Opens(steps[|steps| - 1], k)
  }

  /** The handles that the xApp on `k` has asked to remove. */
  function Removed(steps: seq<Step>, k: Sock): set<U16> {
    if steps == [] then {}
    else
      var st := steps[|steps| - 1];
      Removed(steps[..|steps| - 1], k) + (if st.RmReport? && st.sock == k then {st.handle} else {})
  }

  lemma {:induction false} CallIsStep(steps: seq<Step>, k: Sock, r: nat) returns (i: nat)
    requires r < |Calls(steps, k)|
    ensures i < |steps| && Opens(steps[i], k) == [Calls(steps, k)[r]]
    ensures Calls(steps[..i], k) == Calls(steps, k)[..r]
  {
    var front := steps[..|steps| - 1];
    if r < |Calls(front, k)| {
      i := CallIsStep(front, k, r);
      assert front[..i] == steps[..i];
    } else {
      i := |steps| - 1;
      assert Calls(steps, k)[..r] == Calls(front, k);
    }
  }

  /** The registry of an xApp against the calls that it has made: the keys number
      the calls, and a report stays until its removal has been asked for. */
  ghost predicate Recorded(x: XappState, c: seq<Proc>, gone: set<U16>) {
    && x.nextKey == |c| + 1
    && (forall r: U16 | r in x.procs :: 1 <= r <= |c| && x.procs[r] == c[r - 1])
    && (forall r: U16 | r in gone :: 1 <= r <= |c|)
    && (forall r: U16 | 1 <= r <= |c| && c[r - 1].kind == Subscribe && r !in gone :: r in x.procs)
    && (forall r: U16 | r in gone && r in x.procs :: x.call != NoCall && x.call.kind == Delete && x.call.ric.req == r)
    && (x.call != NoCall && x.call.kind == Delete ==> x.call.ric.req < TWO_16 && x.call.ric.req in gone)
  }

  /** What is bound for an xApp was asked for by one of its calls. */
  ghost predicate Asked(right: map<XappRicId, NodeReq>, id: U16, c: seq<Proc>) {
    forall q | q in right && q.xapp == id :: AskedBy(q, right[q].node, c)
  }

  ghost predicate AskedBy(q: XappRicId, n: NodeId, c: seq<Proc>) {
    && 1 <= q.ric.req <= |c|
    && q.ric == RicGenId(q.ric.req, 0, c[q.ric.req - 1].func) && n == c[q.ric.req - 1].node
  }

  ghost predicate CallsRecorded(s: Sys, steps: seq<Step>) {
    && (forall k | k in s.xs :: Recorded(s.xs[k], Calls(steps, k), Removed(steps, k)))
    && (forall k | k in s.xs :: Asked(Bound(s).right, s.xs[k].id, Calls(steps, k)))
    && (forall k | k !in s.xs :: Calls(steps, k) == [] && Removed(steps, k) == {})
  }

  // ---------------------------------------------------------------- one step of the registries

  lemma OpenedRecorded(x: XappState, y: XappState, c: seq<Proc>, gone: set<U16>, p: Proc, ric: RicGenId)
    requires Recorded(x, c, gone) && x.call == NoCall && 1 <= x.nextKey < TWO_16 && p.kind != Delete
    requires y == XappState(x.id, x.nodes, x.procs[x.nextKey := p], x.nextKey + 1, y.pending, Waiting(p.kind, ric))
    ensures Recorded(y, c + [p], gone)
  {
  }

  lemma RemovingRecorded(x: XappState, y: XappState, c: seq<Proc>, gone: set<U16>, h: U16, ric: RicGenId)
    requires Recorded(x, c, gone) && x.call == NoCall && h in x.procs && ric.req == h
    requires y == x.(pending := y.pending, call := Waiting(Delete, ric))
    ensures Recorded(y, c, gone + {h})
  {
  }

  lemma ReturnedRecorded(x: XappState, y: XappState, c: seq<Proc>, gone: set<U16>)
    requires Recorded(x, c, gone) && CallOk(x) && x.call != NoCall
    requires y == x.(call := NoCall, procs := if x.call.kind == Subscribe then x.procs else x.procs - {x.call.ric.req})
    ensures Recorded(y, c, gone)
  {
  }

  lemma HeardProcs(s: Sys, k: Sock, closes: Option<ReqKind>, t: Sys)
    requires DoXappRecv(s, k) == Ok(t) && Closes(s.i2x[k][0].kind) == closes
    ensures k in s.xs && k in t.xs && t.xs == s.xs[k := t.xs[k]] && t.agents == s.agents && t.emitted == s.emitted
    ensures t.xs[k] == s.xs[k].(pending := t.xs[k].pending, call := t.xs[k].call)
    ensures t.xs[k].call == s.xs[k].call || t.xs[k].call == Wake(s.xs[k].call)
  {
    match closes {
      case None => assert s.xs[k := s.xs[k]] == s.xs;
      case Some(_) =>
    }
  }

  lemma ReturnProcs(s: Sys, k: Sock, kind: ReqKind, t: Sys)
    requires DoXappReturn(s, k) == Ok(t) && s.xs[k].call.kind == kind
    ensures k in s.xs && k in t.xs && t.xs == s.xs[k := t.xs[k]] && t.agents == s.agents && t.emitted == s.emitted
    ensures s.xs[k].call != NoCall
    ensures var x := s.xs[k];
            t.xs[k] == x.(call := NoCall,
                          procs := if kind == Subscribe then x.procs else x.procs - {Trunc16(x.call.ric.req)})
  {
    if kind == Subscribe {
    } else {
    }
  }

  lemma PendXs(s: Sys, fd: Fd, t: Sys)
    requires DoIappPend(s, fd) == Ok(t)
    ensures t.xs == s.xs && t.agents == s.agents && t.emitted == s.emitted
  {
    if s.ipc.ILocked? {
      PendNewState(s, fd, t);
    } else {
      PendDeleteState(s, fd, t);
    }
  }

  lemma SendXs(s: Sys, t: Sys)
    requires DoIappSend(s) == Ok(t)
    ensures t.xs == s.xs && t.agents == s.agents && t.emitted == s.emitted
  {
    match s.ipc {
      case IPended(_, _, _) =>
      case IDelPended(_, _) =>
    }
  }

  lemma IappXs(s: Sys, st: Step, t: Sys)
    requires IappStep(st) && Next(s, st) == Ok(t)
    ensures t.xs == s.xs && t.agents == s.agents && t.emitted == s.emitted
  {
    match st {
      case IappRecv(_) =>
      case IappLock =>
      case IappPend(fd) => PendXs(s, fd, t);
      case IappSend => SendXs(s, t);
      case IappAdd =>
      case IappUnlock =>
      case IappFind =>
    }
  }

  lemma OtherXs(s: Sys, st: Step, t: Sys)
    requires !XappStep(st) && !IappStep(st) && Next(s, st) == Ok(t)
    ensures t.xs == s.xs
  {
    match st {
      case NodeSetup(_, _) =>
      case AgentRecv(n, fd) => AgentState1(s, n, fd, s.r2a[n][0].kind, t);
      case AgentTimer(_, _, _) =>
      case RicRecv(_) =>
      case RicStop =>
      case RicLock =>
      case RicFind =>
      case RicSend =>
    }
  }

  /** The other parties leave the xApps alone. */
  lemma ThreadXs(s: Sys, st: Step, t: Sys)
    requires !XappStep(st) && Next(s, st) == Ok(t)
    ensures t.xs == s.xs
  {
    if IappStep(st) {
      IappXs(s, st, t);
    } else {
      OtherXs(s, st, t);
    }
  }

  lemma CallsSnoc(steps: seq<Step>, st: Step, k: Sock)
    ensures Calls(steps + [st], k) == Calls(steps, k) + Opens(st, k)
    ensures Removed(steps + [st], k)
            == Removed(steps, k) + (if st.RmReport? && st.sock == k then {st.handle} else {})
  {
    assert (steps + [st])[..|steps|] == steps;
  }

  /** Nothing is added to what the xApp on `k` has called. */
  lemma CallsSame(steps: seq<Step>, st: Step, k: Sock)
    requires (st.Report? || st.ControlCall? || st.RmReport?) ==> st.sock != k
    ensures Calls(steps + [st], k) == Calls(steps, k) && Removed(steps + [st], k) == Removed(steps, k)
  {
    CallsSnoc(steps, st, k);
  }

  ghost predicate RegistryRecorded(s: Sys, steps: seq<Step>) {
    forall k | k in s.xs :: Recorded(s.xs[k], Calls(steps, k), Removed(steps, k))
  }

  lemma SetupRecorded(s: Sys, k: Sock, t: Sys, steps: seq<Step>)
    requires CallsRecorded(s, steps) && Next(s, XappSetup(k)) == Ok(t)
    ensures RegistryRecorded(t, steps + [XappSetup(k)])
  {
    forall j | j in t.xs ensures Recorded(t.xs[j], Calls(steps + [XappSetup(k)], j),
        Removed(steps + [XappSetup(k)], j)) {
      CallsSame(steps, XappSetup(k), j);
    }
  }

  lemma CallRecorded(s: Sys, st: Step, k: Sock, p: Proc, ric: RicGenId, t: Sys, steps: seq<Step>)
    requires RegistryRecorded(s, steps) && XappsOk(s) && k in s.xs && s.xs[k].call == NoCall
    requires Opens(st, k) == [p] && st.sock == k && !st.RmReport? && 1 <= s.xs[k].nextKey < TWO_16 && p.kind != Delete
    requires k in t.xs && t.xs == s.xs[k := t.xs[k]]
    requires var x := s.xs[k];
             t.xs[k] == XappState(x.id, x.nodes, x.procs[x.nextKey := p], x.nextKey
                 + 1, t.xs[k].pending, Waiting(p.kind, ric))
    ensures RegistryRecorded(t, steps + [st])
  {
    forall j | j in t.xs ensures Recorded(t.xs[j], Calls(steps + [st], j), Removed(steps + [st], j)) {
      CallsSnoc(steps, st, j);
      if j == k {
        OpenedRecorded(s.xs[k], t.xs[k], Calls(steps, k), Removed(steps, k), p, ric);
      } else {
        CallsSame(steps, st, j);
      }
    }
  }

  lemma RmRecorded(s: Sys, k: Sock, h: U16, fd: Fd, t: Sys, steps: seq<Step>)
    requires RegistryRecorded(s, steps) && Next(s, RmReport(k, h, fd)) == Ok(t)
    ensures RegistryRecorded(t, steps + [RmReport(k, h, fd)])
  {
    RmAsks(s, k, h, fd, t);
    var st := RmReport(k, h, fd);
    forall j | j in t.xs ensures Recorded(t.xs[j], Calls(steps + [st], j), Removed(steps + [st], j)) {
      CallsSnoc(steps, st, j);
      if j == k {
        RemovingRecorded(s.xs[k], t.xs[k], Calls(steps, k), Removed(steps, k), h, t.xs[k].call.ric);
      }
    }
  }

  lemma OwnCall(s: Sys, k: Sock)
    requires XappsOk(s) && k in s.xs
    ensures CallOk(s.xs[k]) && 1 <= s.xs[k].nextKey
  {
    assert XappOk(Bound(s).right, s.agents.Keys, s.xs[k], Early(s, k), Get(s.i2x, k));
  }

  lemma QuietRecorded(s: Sys, st: Step, t: Sys, steps: seq<Step>)
    requires RegistryRecorded(s, steps) && !st.Report? && !st.ControlCall? && !st.RmReport?
    requires t.xs.Keys == s.xs.Keys
    requires forall k | k in s.xs :: Recorded(s.xs[k], Calls(steps, k), Removed(steps, k)) ==>
                                     Recorded(t.xs[k], Calls(steps, k), Removed(steps, k))
    ensures RegistryRecorded(t, steps + [st])
  {
    forall k | k in t.xs ensures Recorded(t.xs[k], Calls(steps + [st], k), Removed(steps + [st], k)) {
      CallsSame(steps, st, k);
      assert k in s.xs.Keys;
    }
  }

  lemma HearRecorded(s: Sys, k: Sock, t: Sys, steps: seq<Step>)
    requires RegistryRecorded(s, steps) && DoXappRecv(s, k) == Ok(t)
    ensures RegistryRecorded(t, steps + [XappRecv(k)])
  {
    HeardProcs(s, k, Closes(s.i2x[k][0].kind), t);
    QuietRecorded(s, XappRecv(k), t, steps);
  }

  lemma ReturnRecorded(s: Sys, k: Sock, t: Sys, steps: seq<Step>)
    requires RegistryRecorded(s, steps) && XappsOk(s) && DoXappReturn(s, k) == Ok(t)
    ensures RegistryRecorded(t, steps + [XappReturn(k)])
  {
    ReturnProcs(s, k, s.xs[k].call.kind, t);
    OwnCall(s, k);
    OneReturned(s, k, t, steps);
  }

  lemma OneReturned(s: Sys, k: Sock, t: Sys, steps: seq<Step>)
    requires RegistryRecorded(s, steps) && k in s.xs && k in t.xs && t.xs == s.xs[k := t.xs[k]]
    requires CallOk(s.xs[k]) && s.xs[k].call != NoCall
    requires var x := s.xs[k];
             t.xs[k] == x.(call := NoCall,
                           procs := if x.call.kind == Subscribe then x.procs else x.procs - {Trunc16(x.call.ric.req)})
    ensures RegistryRecorded(t, steps + [XappReturn(k)])
  {
    ReturnedRecorded(s.xs[k], t.xs[k], Calls(steps, k), Removed(steps, k));
    QuietRecorded(s, XappReturn(k), t, steps);
  }

  lemma ReportRecorded(s: Sys, k: Sock, n: NodeId, f: U16, fd: Fd, t: Sys, steps: seq<Step>)
    requires RegistryRecorded(s, steps) && XappsOk(s) && Next(s, Report(k, n, f, fd)) == Ok(t)
    ensures RegistryRecorded(t, steps + [Report(k, n, f, fd)])
  {
    ReportAsks(s, k, n, f, fd, t);
    OwnCall(s, k);
    CallRecorded(s, Report(k, n, f, fd), k, Proc(Subscribe, f, n), t.xs[k].call.ric, t, steps);
  }

  lemma ControlRecorded(s: Sys, k: Sock, n: NodeId, f: U16, c: U16, fd: Fd, t: Sys, steps: seq<Step>)
    requires RegistryRecorded(s, steps) && XappsOk(s) && Next(s, ControlCall(k, n, f, c, fd)) == Ok(t)
    ensures RegistryRecorded(t, steps + [ControlCall(k, n, f, c, fd)])
  {
    ControlAsks(s, k, n, f, c, fd, t);
    OwnCall(s, k);
    CallRecorded(s, ControlCall(k, n, f, c, fd), k, Proc(Control, f, n), t.xs[k].call.ric, t, steps);
  }

  lemma StepRecorded(s: Sys, st: Step, t: Sys, steps: seq<Step>)
    requires CallsRecorded(s, steps) && XappsOk(s) && Next(s, st) == Ok(t)
    ensures RegistryRecorded(t, steps + [st])
  {
    if XappStep(st) {
      XappRecorded(s, st, t, steps);
    } else {
      ThreadXs(s, st, t);
      QuietRecorded(s, st, t, steps);
    }
  }

  lemma XappRecorded(s: Sys, st: Step, t: Sys, steps: seq<Step>)
    requires CallsRecorded(s, steps) && XappsOk(s) && XappStep(st) && Next(s, st) == Ok(t)
    ensures RegistryRecorded(t, steps + [st])
  {
    match st {
      case XappSetup(k) => SetupRecorded(s, k, t, steps);
      case Report(k, n, f, fd) => ReportRecorded(s, k, n, f, fd, t, steps);
      case RmReport(k, h, fd) => RmRecorded(s, k, h, fd, t, steps);
      case ControlCall(k, n, f, c, fd) => ControlRecorded(s, k, n, f, c, fd, t, steps);
      case XappRecv(k) => HearRecorded(s, k, t, steps);
      case XappReturn(k) => ReturnRecorded(s, k, t, steps);
    }
  }

  // ---------------------------------------------------------------- one step of what is bound

  lemma AskedMore(right: map<XappRicId, NodeReq>, id: U16, c: seq<Proc>, d: seq<Proc>)
    requires Asked(right, id, c) && |c| <= |d| && c == d[..|c|]
    ensures Asked(right, id, d)
  {
    forall q | q in right && q.xapp == id ensures AskedBy(q, right[q].node, d) {
      assert AskedBy(q, right[q].node, c);
    }
  }

  lemma DrawnAsked(s: Sys, k: Sock, fd: Fd, kind: ReqKind, at: NodeReq, who: XappRicId, t: Sys, c: seq<Proc>,
                   gone: set<U16>)
    requires PendSteps.Draws(s, k, fd, kind, at, who, t) && CallOk(s.xs[k]) && Recorded(s.xs[k], c, gone)
    requires Asked(Bound(s).right, s.xs[k].id, c)
    ensures Asked(Bound(t).right, s.xs[k].id, c)
    ensures forall q | q in Bound(t).right && q.xapp != s.xs[k].id ::
              q in Bound(s).right && Bound(t).right[q] == Bound(s).right[q]
  {
    assert AskedBy(who, at.node, c);
  }

  lemma PendAsked(s: Sys, fd: Fd, t: Sys, steps: seq<Step>)
    requires CallsRecorded(s, steps) && Wf(s) && XappsOk(s) && Next(s, IappPend(fd)) == Ok(t)
             && t.forwarded <= MAX_FORWARDED
    ensures forall k | k in s.xs :: Asked(Bound(t).right, s.xs[k].id, Calls(steps, k))
  {
    PendGrows(s, fd, t);
    if s.ipc.ILocked? {
      var k := PendSteps.PendDraws(s, fd, t);
      OwnCall(s, k);
      DrawnAsked(s, k, fd, t.ipc.kind, t.ipc.at, t.ipc.who, t, Calls(steps, k), Removed(steps, k));
      forall j | j in s.xs ensures Asked(Bound(t).right, s.xs[j].id, Calls(steps, j)) {
        assert j != k ==> s.xs[j].id != s.xs[k].id;
      }
    }
  }

  lemma StepBoundAsked(s: Sys, st: Step, t: Sys, steps: seq<Step>)
    requires CallsRecorded(s, steps) && Wf(s) && XappsOk(s) && Next(s, st) == Ok(t) && t.forwarded <= MAX_FORWARDED
    ensures forall k | k in s.xs :: Asked(Bound(t).right, s.xs[k].id, Calls(steps, k))
  {
    StepGrows(s, st, t);
    if st.IappPend? {
      PendAsked(s, st.fd, t, steps);
    }
  }

  /** Nothing is bound for an xApp that has just been numbered. */
  lemma NewUnasked(s: Sys, k: Sock, t: Sys, c: seq<Proc>)
    requires Wf(s) && DoXappSetup(s, k) == Ok(t)
    ensures k in t.xs && Asked(Bound(t).right, t.xs[k].id, c)
  {
    XappSteps.SetupState(s, k, t);
    XappSteps.UnknownXapp(Bound(s), s.forwarded, s.socks, s.agents.Keys, s.ipc, Trunc16(s.nextXapp));
  }

  lemma CallIds(s: Sys, st: Step, t: Sys)
    requires (st.Report? || st.RmReport? || st.ControlCall?) && Next(s, st) == Ok(t)
    ensures t.xs.Keys == s.xs.Keys && forall k | k in s.xs :: t.xs[k].id == s.xs[k].id
  {
    match st {
      case Report(k, n, f, fd) => ReportAsks(s, k, n, f, fd, t);
      case RmReport(k, h, fd) => RmAsks(s, k, h, fd, t);
      case ControlCall(k, n, f, c, fd) => ControlAsks(s, k, n, f, c, fd, t);
    }
  }

  /** The xApps and their numbers are as before, but for a setup. */
  lemma StepIds(s: Sys, st: Step, t: Sys)
    requires Next(s, st) == Ok(t)
    ensures forall k | k in s.xs :: k in t.xs && t.xs[k].id == s.xs[k].id
    ensures forall k | k in t.xs && k !in s.xs :: st == XappSetup(k)
  {
    if !XappStep(st) {
      ThreadXs(s, st, t);
    } else {
      match st {
        case XappSetup(_) =>
        case XappRecv(k) => HeardProcs(s, k, Closes(s.i2x[k][0].kind), t);
        case XappReturn(k) => ReturnProcs(s, k, s.xs[k].call.kind, t);
        case _ =>
          CallIds(s, st, t);
          assert t.xs.Keys == s.xs.Keys;
      }
    }
  }

  lemma StepAsked(s: Sys, st: Step, t: Sys, steps: seq<Step>)
    requires CallsRecorded(s, steps) && Wf(s) && XappsOk(s) && Next(s, st) == Ok(t) && t.forwarded <= MAX_FORWARDED
    ensures forall k | k in t.xs :: Asked(Bound(t).right, t.xs[k].id, Calls(steps + [st], k))
  {
    StepIds(s, st, t);
    StepBoundAsked(s, st, t, steps);
    forall k | k in t.xs ensures Asked(Bound(t).right, t.xs[k].id, Calls(steps + [st], k)) {
      CallsSnoc(steps, st, k);
      if k in s.xs {
        AskedMore(Bound(t).right, t.xs[k].id, Calls(steps, k), Calls(steps + [st], k));
      } else {
        NewUnasked(s, k, t, Calls(steps + [st], k));
      }
    }
  }

  /** An xApp that is not set up has called nothing. */
  lemma UnknownCalls(s: Sys, st: Step, t: Sys, steps: seq<Step>, k: Sock)
    requires Calls(steps, k) == [] && Removed(steps, k) == {} && k !in s.xs && k !in t.xs && Next(s, st) == Ok(t)
    ensures Calls(steps + [st], k) == [] && Removed(steps + [st], k) == {}
  {
    match st {
      case Report(j, n, f, fd) => ReportAsks(s, j, n, f, fd, t);
      case RmReport(j, h, fd) => RmAsks(s, j, h, fd, t);
      case ControlCall(j, n, f, c, fd) => ControlAsks(s, j, n, f, c, fd, t);
      case _ =>
    }
    CallsSame(steps, st, k);
  }

  /** In every state of a run the registries, and what is bound, are what the calls
      of the run have asked for. */
  lemma {:induction false} RunRecorded(steps: seq<Step>, s: Sys)
    requires Exec(steps) == Ok(s) && Within(s)
    ensures CallsRecorded(s, steps)
  {
    if steps != [] {
      var front, st := steps[..|steps| - 1], steps[|steps| - 1];
      var before := Exec(front).s;
      StepGrows(before, st, s);
      ReachableInv(front, before);
      RunRecorded(front, before);
      RecordedNext(before, st, s, front);
      assert front + [st] == steps;
    }
  }

  lemma RecordedNext(s: Sys, st: Step, t: Sys, steps: seq<Step>)
    requires CallsRecorded(s, steps) && Inv(s) && Next(s, st) == Ok(t) && t.forwarded <= MAX_FORWARDED
    ensures CallsRecorded(t, steps + [st])
  {
    StepRecorded(s, st, t, steps);
    StepAsked(s, st, t, steps);
    StepIds(s, st, t);
    forall k | k !in t.xs ensures Calls(steps + [st], k) == [] && Removed(steps + [st], k) == {} {
      UnknownCalls(s, st, t, steps, k);
    }
  }

  // ---------------------------------------------------------------- subscriptions are reports

  lemma LiveView(v: View)
    requires ViewOk(v) && v.live
    ensures v.active && v.call != Waits(Control) && v.call != Woken(Control)
  {
  }

  /** A procedure whose request is live has been registered by a report. */
  lemma LiveSubscribes(s: Sys, k: Sock, i: U16)
    requires XappsOk(s) && RequestOk(s, i) && ViewOf(s, i).live && s.socks[Bound(s).left[i].who.xapp] == k
    requires Bound(s).left[i].who in Bound(s).right && s.xs[k].id == Bound(s).left[i].who.xapp
    ensures var r := Bound(s).left[i].who.ric.req;
            r in s.xs[k].procs && s.xs[k].procs[r].kind == Subscribe
  {
    LiveView(ViewOf(s, i));
    var who := Bound(s).left[i].who;
    assert XappOk(Bound(s).right, s.agents.Keys, s.xs[k], Early(s, k), Get(s.i2x, k));
    assert ProcOk(Bound(s).right, s.xs[k], who.ric.req);
    assert GeneratedOk(s.xs[k], who);
  }

  lemma LiveIsBound(s: Sys, n: NodeId, e: RicGenId)
    requires Inv(s) && n in s.agents && e in s.agents[n].ind.right
    ensures e.req in Bound(s).left && RequestOk(s, e.req) && ViewOf(s, e.req).live
    ensures var b := Bound(s).left[e.req];
            && b.node == n && b.who.ric.func == e.func
            && b.who in Bound(s).right && Bound(s).right[b.who] == NodeReq(n, e.req)
            && s.xs[s.socks[b.who.xapp]].id == b.who.xapp
  {
    SubscriptionFits(s, n, e);
    assert RequestOk(s, e.req);
    assert SockOk(s.xs, s.socks, Bound(s).left[e.req].who.xapp);
  }

  lemma RegisteredCall(x: XappState, right: map<XappRicId, NodeReq>, c: seq<Proc>, gone: set<U16>, who: XappRicId)
    requires Recorded(x, c, gone) && Asked(right, x.id, c) && who in right && who.xapp == x.id
    requires who.ric.req in x.procs && x.procs[who.ric.req].kind == Subscribe
    ensures 1 <= who.ric.req <= |c| && c[who.ric.req - 1] == Proc(Subscribe, who.ric.func, right[who].node)
  {
    assert AskedBy(who, right[who].node, c);
  }

  /** `who` is bound to the node for the xApp on `k`, which has it registered as a report. */
  ghost predicate Owns(s: Sys, k: Sock, who: XappRicId, n: NodeId) {
    && k in s.xs && s.xs[k].id == who.xapp
    && who in Bound(s).right && Bound(s).right[who].node == n
    && who.ric.req in s.xs[k].procs && s.xs[k].procs[who.ric.req].kind == Subscribe
  }

  lemma LiveOwner(steps: seq<Step>, s: Sys, n: NodeId, e: RicGenId) returns (k: Sock, who: XappRicId)
    requires Exec(steps) == Ok(s) && Within(s) && n in s.agents && e in s.agents[n].ind.right
    ensures Owns(s, k, who, n) && who.ric.func == e.func
  {
    ReachableInv(steps, s);
    LiveIsBound(s, n, e);
    who := Bound(s).left[e.req].who;
    k := s.socks[who.xapp];
    LiveSubscribes(s, k, e.req);
  }

  lemma OwnerIn(s: Sys, k: Sock, who: XappRicId, n: NodeId, c: seq<Proc>, gone: set<U16>)
    requires Owns(s, k, who, n) && Recorded(s.xs[k], c, gone) && Asked(Bound(s).right, s.xs[k].id, c)
    ensures 1 <= who.ric.req <= |c| && c[who.ric.req - 1] == Proc(Subscribe, who.ric.func, n)
  {
    RegisteredCall(s.xs[k], Bound(s).right, c, gone, who);
  }

  lemma CallsOf(s: Sys, steps: seq<Step>, k: Sock) returns (c: seq<Proc>, gone: set<U16>)
    requires CallsRecorded(s, steps) && k in s.xs
    ensures c == Calls(steps, k) && Recorded(s.xs[k], c, gone) && Asked(Bound(s).right, s.xs[k].id, c)
  {
    c, gone := Calls(steps, k), Removed(steps, k);
  }

  lemma OwnerOf(steps: seq<Step>, s: Sys, k: Sock, who: XappRicId, n: NodeId) returns (r: nat)
    requires CallsRecorded(s, steps) && Owns(s, k, who, n)
    ensures r < |Calls(steps, k)| && Calls(steps, k)[r] == Proc(Subscribe, who.ric.func, n)
  {
    var c, gone := CallsOf(s, steps, k);
    OwnerIn(s, k, who, n, c, gone);
    r := who.ric.req - 1;
  }

  lemma OwnerCalled(steps: seq<Step>, s: Sys, k: Sock, who: XappRicId, n: NodeId) returns (r: nat)
    requires Exec(steps) == Ok(s) && Within(s) && Owns(s, k, who, n)
    ensures r < |Calls(steps, k)| && Calls(steps, k)[r] == Proc(Subscribe, who.ric.func, n)
  {
    RunRecorded(steps, s);
    r := OwnerOf(steps, s, k, who, n);
  }

  lemma LiveCall(steps: seq<Step>, s: Sys, n: NodeId, e: RicGenId) returns (k: Sock, r: nat)
    requires Exec(steps) == Ok(s) && Within(s) && n in s.agents && e in s.agents[n].ind.right
    ensures r < |Calls(steps, k)| && Calls(steps, k)[r] == Proc(Subscribe, e.func, n)
  {
    var who: XappRicId;
    k, who := LiveOwner(steps, s, n, e);
    r := OwnerCalled(steps, s, k, who, n);
  }

  lemma RunFacts(steps: seq<Step>, s: Sys)
    requires Exec(steps) == Ok(s) && Within(s)
    ensures Inv(s) && CallsRecorded(s, steps)
  {
    ReachableInv(steps, s);
    RunRecorded(steps, s);
  }

  lemma ReportStep(steps: seq<Step>, k: Sock, r: nat, n: NodeId, f: U16) returns (i: nat)
    requires r < |Calls(steps, k)| && Calls(steps, k)[r] == Proc(Subscribe, f, n)
    ensures i < |steps| && steps[i].Report? && steps[i] == Report(k, n, f, steps[i].fd)
  {
    i := CallIsStep(steps, k, r);
  }

  /** In every state of a run a live subscription was asked for by a report: one
      step of the run names this node and this function. */
  lemma LiveFromReport(steps: seq<Step>, s: Sys, n: NodeId, e: RicGenId) returns (k: Sock, i: nat)
    requires Exec(steps) == Ok(s) && Within(s) && n in s.agents && e in s.agents[n].ind.right
    ensures i < |steps| && steps[i].Report? && steps[i] == Report(k, n, e.func, steps[i].fd)
  {
    var r: nat;
    k, r := LiveCall(steps, s, n, e);
    i := ReportStep(steps, k, r, n, e.func);
  }

  lemma QuietProc(s: Sys, k: Sock, r: U16)
    requires XappsOk(s) && k in s.xs && s.xs[k].call == NoCall && r in s.xs[k].procs
    ensures s.xs[k].procs[r].kind == Subscribe
  {
    assert XappOk(Bound(s).right, s.agents.Keys, s.xs[k], Early(s, k), Get(s.i2x, k));
    assert ProcOk(Bound(s).right, s.xs[k], r);
  }

  /** The r-th opening call of the xApp on `k` was a report for this node and
      function, and the run does not ask for its removal. */
  ghost predicate Reported(steps: seq<Step>, k: Sock, r: U16, n: NodeId, f: U16) {
    1 <= r <= |Calls(steps, k)| && Calls(steps, k)[r - 1] == Proc(Subscribe, f, n) && r !in Removed(steps, k)
  }

  /** The subscription `e` of the agent on `n` is the other end of such a report. */
  ghost predicate HasReport(steps: seq<Step>, s: Sys, n: NodeId, e: RicGenId) {
    exists k, r :: Reported(steps, k, r, n, e.func) && Paired(s, k, r, n, e)
  }

  ghost predicate HasSubscription(s: Sys, k: Sock, r: U16, n: NodeId, f: U16) {
    exists e :: Paired(s, k, r, n, e) && e.func == f
  }

  lemma PairedReported(steps: seq<Step>, s: Sys, k: Sock, r: U16, n: NodeId, e: RicGenId)
    requires CallsRecorded(s, steps) && XappsOk(s) && Paired(s, k, r, n, e) && s.xs[k].call == NoCall
    ensures Reported(steps, k, r, n, e.func)
  {
    assert Recorded(s.xs[k], Calls(steps, k), Removed(steps, k));
    QuietProc(s, k, r);
  }

  lemma QuietFacts(steps: seq<Step>, s: Sys)
    requires Exec(steps) == Ok(s) && Within(s) && Quiet(s)
    ensures CallsRecorded(s, steps) && XappsOk(s) && Reachable(s)
  {
    RunFacts(steps, s);
  }

  lemma LiveIsReported(steps: seq<Step>, s: Sys, n: NodeId, e: RicGenId)
    requires Exec(steps) == Ok(s) && Within(s) && Quiet(s)
    requires n in s.agents && e in s.agents[n].ind.right
    ensures HasReport(steps, s, n, e)
  {
    QuietFacts(steps, s);
    EndToEndAgreement(s);
    var k, r :| Paired(s, k, r, n, e);
    PairedReported(steps, s, k, r, n, e);
  }

  lemma ReportedIsLive(steps: seq<Step>, s: Sys, k: Sock, r: U16, n: NodeId, f: U16)
    requires Exec(steps) == Ok(s) && Within(s) && Quiet(s) && k in s.xs && Reported(steps, k, r, n, f)
    ensures HasSubscription(s, k, r, n, f)
  {
    QuietFacts(steps, s);
    assert Recorded(s.xs[k], Calls(steps, k), Removed(steps, k));
    var m, e := ProcedureHasSubscription(s, k, r);
  }

  /** With no call outstanding, the live subscriptions are exactly the reports of
      the run that have not been removed, each on its node and for its function. */
  lemma LiveAreReports(steps: seq<Step>, s: Sys)
    requires Exec(steps) == Ok(s) && Within(s) && Quiet(s)
    ensures forall n, e | n in s.agents && e in s.agents[n].ind.right :: HasReport(steps, s, n, e)
    ensures forall k, r, n, f | k in s.xs && Reported(steps, k, r, n, f) :: HasSubscription(s, k, r, n, f)
  {
    forall n, e | n in s.agents && e in s.agents[n].ind.right ensures HasReport(steps, s, n, e) {
      LiveIsReported(steps, s, n, e);
    }
    forall k, r, n, f | k in s.xs && Reported(steps, k, r, n, f) ensures HasSubscription(s, k, r, n, f) {
      ReportedIsLive(steps, s, k, r, n, f);
    }
  }

  // ---------------------------------------------------------------- the nodes that an xApp is told

  /** A step of the run sets this node up. */
  ghost predicate SetUp(steps: seq<Step>, n: NodeId) {
    exists i :: 0 <= i < |steps| && steps[i].NodeSetup? && steps[i].node == n
  }

  /** One that precedes the setup of the xApp on `k`. */
  ghost predicate SetUpBefore(steps: seq<Step>, n: NodeId, k: Sock) {
    exists i, j :: 0 <= i < j < |steps| && steps[i].NodeSetup? && steps[i].node == n && steps[j] == XappSetup(k)
  }

  lemma SetUpSnoc(steps: seq<Step>, st: Step, n: NodeId)
    ensures SetUp(steps + [st], n) <==> SetUp(steps, n) || (st.NodeSetup? && st.node == n)
  {
    var all := steps + [st];
    if i :| 0 <= i < |steps| && steps[i].NodeSetup? && steps[i].node == n {
      assert all[i] == steps[i];
    }
    if st.NodeSetup? && st.node == n {
      assert all[|steps|] == st;
    }
  }

  lemma SetUpBeforeSnoc(steps: seq<Step>, st: Step, n: NodeId, k: Sock)
    ensures SetUpBefore(steps + [st], n, k) <==> SetUpBefore(steps, n, k) || (st == XappSetup(k) && SetUp(steps, n))
  {
    var all := steps + [st];
    if i, j :| 0 <= i < j < |steps| && steps[i].NodeSetup? && steps[i].node == n && steps[j] == XappSetup(k) {
      assert all[i] == steps[i] && all[j] == steps[j];
    }
    if st == XappSetup(k) {
      if i :| 0 <= i < |steps| && steps[i].NodeSetup? && steps[i].node == n {
        assert all[i] == steps[i] && all[|steps|] == st;
      }
    }
    if i, j :| 0 <= i < j < |all| && all[i].NodeSetup? && all[i].node == n && all[j] == XappSetup(k) {
      assert all[i] == steps[i];
      if j < |steps| {
        assert all[j] == steps[j];
      }
    }
  }

  lemma AgentEmits(s: Sys, n: NodeId, fd: Fd, kind: ReqKind, t: Sys)
    requires DoAgentRecv(s, n, fd) == Ok(t) && s.r2a[n][0].kind == kind
    ensures n in s.agents && n in t.agents && t.agents == s.agents[n := t.agents[n]]
    ensures t.agents[n].net == s.agents[n].net
    ensures var i := s.r2a[n][0].ric.req; t.emitted == s.emitted[i := Get(s.emitted, i) + [Reply(kind)]]
  {
    match kind {
      case Subscribe =>
      case Delete =>
      case Control => assert s.agents[n := s.agents[n]] == s.agents;
    }
  }

  lemma XappAgents(s: Sys, st: Step, t: Sys)
    requires XappStep(st) && Next(s, st) == Ok(t)
    ensures t.agents == s.agents && t.emitted == s.emitted
    ensures forall k | k in t.xs :: t.xs[k].nodes == if k in s.xs then s.xs[k].nodes else s.agents.Keys
    ensures st.XappSetup? ==> st.sock !in s.xs && st.sock in t.xs
  {
    match st {
      case XappSetup(_) =>
      case Report(k, n, f, fd) => ReportAsks(s, k, n, f, fd, t);
      case RmReport(k, h, fd) => RmAsks(s, k, h, fd, t);
      case ControlCall(k, n, f, c, fd) => ControlAsks(s, k, n, f, c, fd, t);
      case XappRecv(k) => HeardProcs(s, k, Closes(s.i2x[k][0].kind), t);
      case XappReturn(k) => ReturnProcs(s, k, s.xs[k].call.kind, t);
    }
  }

  /** A node arrives with its setup and stays on its association. */
  ghost predicate AgentsGrow(s: Sys, st: Step, t: Sys) {
    && t.agents.Keys == s.agents.Keys + (if st.NodeSetup? then {st.node} else {})
    && (forall n | n in s.agents :: n in t.agents && t.agents[n].net == s.agents[n].net)
    && (st.NodeSetup? ==> st.node !in s.agents && st.node in t.agents && t.agents[st.node].net == st.net)
  }

  lemma OtherAgents(s: Sys, st: Step, t: Sys)
    requires !XappStep(st) && !IappStep(st) && Next(s, st) == Ok(t)
    ensures AgentsGrow(s, st, t)
  {
    match st {
      case NodeSetup(_, _) =>
      case AgentRecv(n, fd) => AgentEmits(s, n, fd, s.r2a[n][0].kind, t);
      case AgentTimer(_, _, _) =>
      case RicRecv(_) =>
      case RicStop =>
      case RicLock =>
      case RicFind =>
      case RicSend =>
    }
  }

  lemma StepAgentsGrow(s: Sys, st: Step, t: Sys)
    requires Next(s, st) == Ok(t)
    ensures AgentsGrow(s, st, t)
  {
    if XappStep(st) {
      XappAgents(s, st, t);
    } else if IappStep(st) {
      IappXs(s, st, t);
    } else {
      OtherAgents(s, st, t);
    }
  }

  ghost predicate NodeRecorded(s: Sys, steps: seq<Step>, n: NodeId) {
    && (n in s.agents <==> SetUp(steps, n))
    && (forall i | 0 <= i < |steps| && steps[i].NodeSetup? && steps[i].node == n ::
          n in s.agents && s.agents[n].net == steps[i].net)
  }

  lemma NodeNext(s: Sys, st: Step, t: Sys, steps: seq<Step>, n: NodeId)
    requires NodeRecorded(s, steps, n) && AgentsGrow(s, st, t)
    ensures NodeRecorded(t, steps + [st], n)
  {
    SetUpSnoc(steps, st, n);
    assert n in t.agents <==> n in t.agents.Keys;
    assert n in s.agents <==> n in s.agents.Keys;
  }

  lemma NoNodesYet(n: NodeId)
    ensures NodeRecorded(Init(), [], n)
  {
  }

  lemma NodeStep(before: Sys, s: Sys, steps: seq<Step>, n: NodeId)
    requires steps != [] && NodeRecorded(before, steps[..|steps| - 1], n)
    requires Next(before, steps[|steps| - 1]) == Ok(s)
    ensures NodeRecorded(s, steps, n)
  {
    var front, st := steps[..|steps| - 1], steps[|steps| - 1];
    StepAgentsGrow(before, st, s);
    NodeNext(before, st, s, front, n);
    assert front + [st] == steps;
  }

  lemma FrontOk(steps: seq<Step>)
    requires Exec(steps).Ok? && steps != []
    ensures Exec(steps[..|steps| - 1]).Ok?
  {
  }

  lemma ExecLast(steps: seq<Step>, before: Sys)
    requires steps != [] && Exec(steps[..|steps| - 1]) == Ok(before)
    ensures Exec(steps) == Next(before, steps[|steps| - 1])
  {
  }

  lemma {:induction false} RunNodes(steps: seq<Step>, s: Sys, n: NodeId)
    requires Exec(steps) == Ok(s)
    ensures NodeRecorded(s, steps, n)
    decreases |steps|
  {
    if steps == [] {
      NoNodesYet(n);
    } else {
      FrontOk(steps);
      var before := Exec(steps[..|steps| - 1]).s;
      RunNodes(steps[..|steps| - 1], before, n);
      ExecLast(steps, before);
      NodeStep(before, s, steps, n);
    }
  }

  /** The connected nodes are those that a step has set up, each on the association
      of its own setup. */
  lemma NodesAreSetUp(steps: seq<Step>, s: Sys, n: NodeId)
    requires Exec(steps) == Ok(s)
    ensures n in s.agents <==> SetUp(steps, n)
    ensures forall i | 0 <= i < |steps| && steps[i].NodeSetup? && steps[i].node == n ::
              n in s.agents && s.agents[n].net == steps[i].net
  {
    RunNodes(steps, s, n);
  }

  lemma StepNodes(s: Sys, st: Step, t: Sys)
    requires Next(s, st) == Ok(t)
    ensures forall k | k in t.xs :: t.xs[k].nodes == if k in s.xs then s.xs[k].nodes else s.agents.Keys
    ensures forall k | k in t.xs :: k in s.xs <==> st != XappSetup(k)
  {
    StepIds(s, st, t);
    if XappStep(st) {
      XappAgents(s, st, t);
    } else {
      ThreadXs(s, st, t);
    }
  }

  /** An xApp that is not set up has no setup in the run. */
  lemma {:induction false} NotSetUp(steps: seq<Step>, s: Sys, n: NodeId, k: Sock)
    requires Exec(steps) == Ok(s) && k !in s.xs
    ensures !SetUpBefore(steps, n, k)
  {
    if steps != [] {
      var front, st := steps[..|steps| - 1], steps[|steps| - 1];
      StepIds(Exec(front).s, st, s);
      NotSetUp(front, Exec(front).s, n, k);
      SetUpBeforeSnoc(front, st, n, k);
      assert front + [st] == steps;
      if st == XappSetup(k) {
        XappAgents(Exec(front).s, st, s);
      }
    }
  }

  /** An xApp is told exactly the nodes that were set up before it. */
  lemma {:induction false} ToldIff(steps: seq<Step>, s: Sys, k: Sock, n: NodeId)
    requires Exec(steps) == Ok(s) && k in s.xs
    ensures n in s.xs[k].nodes <==> SetUpBefore(steps, n, k)
  {
    if steps != [] {
      var front, st := steps[..|steps| - 1], steps[|steps| - 1];
      var before := Exec(front).s;
      StepNodes(before, st, s);
      SetUpBeforeSnoc(front, st, n, k);
      assert front + [st] == steps;
      if k in before.xs {
        ToldIff(front, before, k, n);
      } else {
        NotSetUp(front, before, n, k);
        NodesAreSetUp(front, before, n);
      }
    }
  }

  /** A report for a node that was set up before the xApp is never refused for its
      node: it fails only for an unknown function, or after 65535 opening calls. */
  lemma ReportForKnownNode(steps: seq<Step>, s: Sys, k: Sock, n: NodeId, f: U16, fd: Fd)
    requires Exec(steps) == Ok(s) && Within(s) && SetUpBefore(steps, n, k)
    ensures Next(s, Report(k, n, f, fd)) == Abort <==>
              Ready(s, k) && (f !in {142, 143, 144, 145, 146, 147, 148} || |Calls(steps, k)| == 65535)
  {
    RunFacts(steps, s);
    OpenAbort(s, k, Subscribe, n, f, fd);
    if k in s.xs {
      ToldIff(steps, s, k, n);
      assert Recorded(s.xs[k], Calls(steps, k), Removed(steps, k));
    }
  }

  // ---------------------------------------------------------------- the timers that fire

  function Payloads(e: seq<AnsKind>): seq<int> {
    if e == [] then []
    else
      var last := e[|e| - 1];
      Payloads(e[..|e| - 1]) + (if last.Indication? then [last.payload] else [])
  }

  /** The timer of the subscription with this request id fires. */
  function FiredNow(o: Outcome, st: Step, i: int): seq<int> {
    if o.Ok? && st.AgentTimer? && st.node in o.s.agents && st.fd in o.s.agents[st.node].ind.left
       && o.s.agents[st.node].ind.left[st.fd].req == i
    then [st.payload] else []
  }

  /** What the timers of this subscription have had to report, in order. */
  function Fired(steps: seq<Step>, i: int): seq<int> {
    if steps == [] then []
    else Fired(steps[..|steps| - 1], i) + FiredNow(Exec(steps[..|steps| - 1]), steps[|steps| - 1], i)
  }

  lemma PayloadsSnoc(e: seq<AnsKind>, k: AnsKind)
    ensures Payloads(e + [k]) == Payloads(e) + (if k.Indication? then [k.payload] else [])
  {
    assert (e + [k])[..|e|] == e;
  }

  lemma {:induction false} PayloadsAppend(a: seq<AnsKind>, b: seq<AnsKind>)
    ensures Payloads(a + b) == Payloads(a) + Payloads(b)
  {
    if b == [] {
      assert a + b == a;
    } else {
      var c := b[..|b| - 1];
      PayloadsAppend(a, c);
      PayloadsSnoc(a + c, b[|b| - 1]);
      PayloadsSnoc(c, b[|b| - 1]);
      assert c + [b[|b| - 1]] == b && a + b == a + c + [b[|b| - 1]];
    }
  }

  lemma TimerEmits(s: Sys, n: NodeId, fd: Fd, p: int, t: Sys, i: int)
    requires DoAgentTimer(s, n, fd, p) == Ok(t)
    ensures Payloads(Get(t.emitted, i)) == Payloads(Get(s.emitted, i)) + FiredNow(Ok(s), AgentTimer(n, fd, p), i)
  {
    PayloadsSnoc(Get(s.emitted, s.agents[n].ind.left[fd].req), Indication(p));
  }

  lemma AnswerEmits(s: Sys, n: NodeId, fd: Fd, t: Sys, i: int)
    requires DoAgentRecv(s, n, fd) == Ok(t)
    ensures Payloads(Get(t.emitted, i)) == Payloads(Get(s.emitted, i))
  {
    var m := s.r2a[n][0];
    AgentEmits(s, n, fd, m.kind, t);
    PayloadsSnoc(Get(s.emitted, m.ric.req), Reply(m.kind));
  }

  lemma OthersEmit(s: Sys, st: Step, t: Sys, i: int)
    requires Next(s, st) == Ok(t) && !st.AgentTimer? && !st.AgentRecv? && !XappStep(st) && !IappStep(st)
    ensures t.emitted == s.emitted
  {
    match st {
      case NodeSetup(_, _) =>
      case RicRecv(_) =>
      case RicStop =>
      case RicLock =>
      case RicFind =>
      case RicSend =>
    }
  }

  lemma StepEmits(s: Sys, st: Step, t: Sys, i: int)
    requires Next(s, st) == Ok(t)
    ensures Payloads(Get(t.emitted, i)) == Payloads(Get(s.emitted, i)) + FiredNow(Ok(s), st, i)
  {
    if st.AgentTimer? {
      TimerEmits(s, st.node, st.fd, st.payload, t, i);
    } else if st.AgentRecv? {
      AnswerEmits(s, st.node, st.fd, t, i);
    } else if XappStep(st) {
      XappAgents(s, st, t);
    } else if IappStep(st) {
      IappXs(s, st, t);
    } else {
      OthersEmit(s, st, t, i);
    }
  }

  lemma {:induction false} FiredAreEmitted(steps: seq<Step>, s: Sys, i: int)
    requires Exec(steps) == Ok(s)
    ensures Payloads(Get(s.emitted, i)) == Fired(steps, i)
  {
    if steps != [] {
      var front := steps[..|steps| - 1];
      FiredAreEmitted(front, Exec(front).s, i);
      StepEmits(Exec(front).s, steps[|steps| - 1], s, i);
    }
  }

  lemma ReceivedIsFront(steps: seq<Step>, s: Sys, i: U16)
    requires Exec(steps) == Ok(s) && Within(s) && i in Bound(s).left
    ensures Get(s.received, Bound(s).left[i].who) <= Get(s.emitted, i)
  {
    AnswersConserved(s, i);
  }

  lemma FrontPayloads(r: seq<AnsKind>, e: seq<AnsKind>)
    requires r <= e
    ensures Payloads(r) <= Payloads(e)
  {
    assert e == r + e[|r|..];
    PayloadsAppend(r, e[|r|..]);
  }

  /** What an xApp has received as indications under its own id is a front of what
      the timers of that subscription had to report, in order; when nothing is on
      its way, it is all of it. */
  lemma IndicationsArrive(steps: seq<Step>, s: Sys, i: U16)
    requires Exec(steps) == Ok(s) && Within(s) && i in Bound(s).left
    ensures var who := Bound(s).left[i].who;
            && Payloads(Get(s.received, who)) <= Fired(steps, i)
            && (Get(s.received, who) == Get(s.emitted, i) ==> Payloads(Get(s.received, who)) == Fired(steps, i))
  {
    ReceivedIsFront(steps, s, i);
    FiredAreEmitted(steps, s, i);
    FrontPayloads(Get(s.received, Bound(s).left[i].who), Get(s.emitted, i));
  }
}
