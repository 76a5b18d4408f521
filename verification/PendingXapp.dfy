// The pending table of an xApp: its index compares the kind of a request only,
// although a request is identified by its kind and its id.
module PendingXapp {
  import opened E2ap
  import opened XappTables

  /** A table whose index compares all of the event. */
  type Exact = map<PendEvent, Fd>

  function ExactOf(t: seq<(Fd, PendEvent)>): Exact {
    if t == [] then map[] else ExactOf(t[..|t| - 1])[t[|t| - 1].1 := t[|t| - 1].0]
  }

  /** What extraction by kind returns, and what it leaves. */
  function TakeCoarse(t: seq<(Fd, PendEvent)>, ev: PendEvent): Option<(Fd, seq<(Fd, PendEvent)>)> {
    var i := CoarseIndex(t, ev.kind);
    if i == |t| then None else Some((t[i].0, RemoveAt(t, i)))
  }

  function TakeExact(m: Exact, ev: PendEvent): Option<(Fd, Exact)> {
    if ev !in m then None else Some((m[ev], m - {ev}))
  }

  /** The two extractions give the same descriptor and the same remaining table. */
  predicate Same(t: seq<(Fd, PendEvent)>, ev: PendEvent) {
    match (TakeCoarse(t, ev), TakeExact(ExactOf(t), ev))
    case (None, None) => true
    case (Some(c), Some(e)) => c.0 == e.0 && ExactOf(c.1) == e.1
    case _ => false
  }

  /** With one entry they agree exactly when the kinds differ or the ids are the same. */
  lemma OneEntryAgrees(fd: Fd, p: PendEvent, ev: PendEvent)
    ensures Same([(fd, p)], ev) <==> (p.kind == ev.kind ==> p.ric == ev.ric)
  {
    var t := [(fd, p)];
    assert t[..0] == [];
    assert ExactOf(t) == map[p := fd];
    assert p.kind == ev.kind ==> CoarseIndex(t, ev.kind) == 0 && RemoveAt(t, 0) == [];
    assert t[1..] == [];
  }

  ghost predicate Distinct(t: seq<(Fd, PendEvent)>) {
    forall i, j | 0 <= i < j < |t| :: t[i].1 != t[j].1
  }

  /** The map holds exactly the entries. */
  ghost predicate Records(t: seq<(Fd, PendEvent)>, m: Exact) {
    && (forall e | e in t :: e.1 in m && m[e.1] == e.0)
    && (forall ev | ev in m :: (m[ev], ev) in t)
  }

  lemma RecordsSnoc(t: seq<(Fd, PendEvent)>, m: Exact, e: (Fd, PendEvent))
    requires Records(t, m) && forall d | d in t :: d.1 != e.1
    ensures Records(t + [e], m[e.1 := e.0])
  {
    var n := m[e.1 := e.0];
    forall ev | ev in n ensures (n[ev], ev) in t + [e] {
      if ev != e.1 {
        assert (m[ev], ev) in t;
      } else {
        assert (e.0, ev) == e;
      }
    }
  }

  lemma {:induction false} ExactHolds(t: seq<(Fd, PendEvent)>)
    requires Distinct(t)
    ensures Records(t, ExactOf(t))
  {
    if t != [] {
      var u, last := t[..|t| - 1], t[|t| - 1];
      ExactHolds(u);
      LastIsOther(t);
      RecordsSnoc(u, ExactOf(u), last);
      assert u + [last] == t;
    }
  }

  lemma LastIsOther(t: seq<(Fd, PendEvent)>)
    requires Distinct(t) && t != []
    ensures Distinct(t[..|t| - 1])
    ensures forall e | e in t[..|t| - 1] :: e.1 != t[|t| - 1].1
  {
  }

  lemma WithoutMembers(t: seq<(Fd, PendEvent)>, i: nat)
    requires Distinct(t) && i < |t|
    ensures Distinct(RemoveAt(t, i))
    ensures forall e :: e in RemoveAt(t, i) <==> e in t && e.1 != t[i].1
  {
    var u := RemoveAt(t, i);
    assert forall j | 0 <= j < |u| :: u[j] == t[if j < i then j else j + 1];
    forall e | e in t && e.1 != t[i].1 ensures e in u {
      var j :| 0 <= j < |t| && t[j] == e;
      assert u[if j < i then j else j - 1] == e;
    }
  }

  lemma RecordsWithout(t: seq<(Fd, PendEvent)>, m: Exact, u: seq<(Fd, PendEvent)>, n: Exact, x: PendEvent)
    requires Records(t, m) && Records(u, n) && forall e :: e in u <==> e in t && e.1 != x
    ensures n == m - {x}
  {
    forall ev | ev in n ensures ev in m - {x} && m[ev] == n[ev] {
      assert (n[ev], ev) in t;
    }
    forall ev | ev in m - {x} ensures ev in n {
      assert (m[ev], ev) in u;
    }
  }

  lemma ExactWithout(t: seq<(Fd, PendEvent)>, i: nat)
    requires Distinct(t) && i < |t|
    ensures ExactOf(RemoveAt(t, i)) == ExactOf(t) - {t[i].1}
  {
    WithoutMembers(t, i);
    ExactHolds(t);
    ExactHolds(RemoveAt(t, i));
    RecordsWithout(t, ExactOf(t), RemoveAt(t, i), ExactOf(RemoveAt(t, i)), t[i].1);
  }

  /** In a table of any length the extraction by kind does what the exact one does
      if and only if there is no entry of the kind, or the one that it selects is
      the event itself. */
  lemma CoarseIsExactIff(t: seq<(Fd, PendEvent)>, ev: PendEvent)
    requires Distinct(t)
    ensures Same(t, ev) <==>
            (forall i | 0 <= i < |t| :: t[i].1.kind != ev.kind)
            || (CoarseIndex(t, ev.kind) < |t| && t[CoarseIndex(t, ev.kind)].1 == ev)
  {
    var i := CoarseIndex(t, ev.kind);
    ExactHolds(t);
    if i < |t| {
      assert t[i] in t;
      ExactWithout(t, i);
      if t[i].1 != ev && ev in ExactOf(t) {
        OtherTaken(t, i, ev);
      }
    }
  }

  /** Another event's entry is taken: the event itself stays in the table. */
  lemma OtherTaken(t: seq<(Fd, PendEvent)>, i: nat, ev: PendEvent)
    requires Distinct(t) && i < |t| && t[i].1 != ev && ev in ExactOf(t)
    requires ExactOf(RemoveAt(t, i)) == ExactOf(t) - {t[i].1}
    ensures ExactOf(RemoveAt(t, i)) != ExactOf(t) - {ev}
  {
    assert ev in ExactOf(t) - {t[i].1};
    assert ev !in ExactOf(t) - {ev};
  }

  /** With two entries of one kind the coarse table can stop the wrong timer. */
  lemma TwoEntriesCanDiffer()
    ensures exists t: seq<(Fd, PendEvent)>, ev :: |t| == 2 && t[0].1 != t[1].1 && ev in ExactOf(t) && !Same(t, ev)
  {
    var a, b := PendEvent(Subscribe, RicGenId(1, 0, 142)), PendEvent(Subscribe, RicGenId(2, 0, 142));
    var t: seq<(Fd, PendEvent)> := [(10, a), (11, b)];
    assert t[..1] == [(10, a)] && t[..1][..0] == [];
    assert ExactOf(t[..1]) == map[a := 10];
    assert ExactOf(t) == map[a := 10, b := 11];
    assert CoarseIndex(t, Subscribe) == 0;
    assert !Same(t, b);
  }

  // ---------------------------------------------------------------- a synchronous caller

  /** One call after the other: a request is entered, and its answer takes it out. */
  datatype Op = Enter(fd: Fd, ev: PendEvent) | Answer(ev: PendEvent)

  /** A call is made when none is waiting; an answer that comes is the one awaited. */
  predicate Allowed(t: seq<(Fd, PendEvent)>, op: Op) {
    match op
    case Enter(fd, ev) => t == [] && fd > 0
    case Answer(ev) => t != [] && t[0].1 == ev
  }

  function Apply(t: seq<(Fd, PendEvent)>, op: Op): seq<(Fd, PendEvent)>
    requires Allowed(t, op)
  {
    match op
    case Enter(fd, ev) => t + [(fd, ev)]
    case Answer(ev) => (match TakeCoarse(t, ev) case Some(c) => c.1 case None => t)
  }

  ghost predicate Run(trace: seq<seq<(Fd, PendEvent)>>, ops: seq<Op>) {
    && |trace| == |ops| + 1 && trace[0] == []
    && forall i | 0 <= i < |ops| :: Allowed(trace[i], ops[i]) && trace[i + 1] == Apply(trace[i], ops[i])
  }

  lemma StepAgrees(t: seq<(Fd, PendEvent)>, op: Op)
    requires |t| <= 1 && Allowed(t, op)
    ensures |Apply(t, op)| <= 1
    ensures op.Answer? ==> Same(t, op.ev) && TakeCoarse(t, op.ev).Some?
    ensures op.Enter? ==> ExactOf(Apply(t, op)) == ExactOf(t)[op.ev := op.fd]
  {
    match op {
      case Answer(ev) =>
        assert t == [(t[0].0, ev)];
        OneEntryAgrees(t[0].0, ev, ev);
        assert CoarseIndex(t, ev.kind) == 0;
      case Enter(fd, ev) =>
        assert (t + [(fd, ev)])[..|t|] == t;
    }
  }

  /** Then the table holds at most one entry, and every insertion and extraction
      gives what a table keyed by kind and id would give. */
  lemma {:induction false} CoarseRefinesExactRun(trace: seq<seq<(Fd, PendEvent)>>, ops: seq<Op>, n: nat)
    requires Run(trace, ops) && n < |ops|
    ensures |trace[n]| <= 1 && |trace[n + 1]| <= 1
    ensures ops[n].Answer? ==> Same(trace[n], ops[n].ev) && TakeCoarse(trace[n], ops[n].ev).Some?
    ensures ops[n].Enter? ==> ExactOf(trace[n + 1]) == ExactOf(trace[n])[ops[n].ev := ops[n].fd]
  {
    if n > 0 {
      CoarseRefinesExactRun(trace, ops, n - 1);
    }
    StepAgrees(trace[n], ops[n]);
  }

  // ---------------------------------------------------------------- the object

  class PendingEvents {
    var entries: seq<(Fd, PendEvent)>

    constructor ()
      ensures entries == []
    {
      entries := [];
    }

    method Add(fd: Fd, ev: PendEvent)
      requires fd > 0
      modifies this
      ensures entries == old(entries) + [(fd, ev)]
    {
      entries := entries + [(fd, ev)];
    }

    /** find_pending_event_fd. */
    method FindFd(fd: Fd) returns (found: bool)
      ensures found <==> exists i :: 0 <= i < |entries| && entries[i].0 == fd
    {
      var i := 0;
      while i < |entries| && entries[i].0 != fd
        invariant 0 <= i <= |entries|
        invariant forall j | 0 <= j < i :: entries[j].0 != fd
      {
        i := i + 1;
      }
      found := i < |entries|;
    }

    /** rm_pending_event_ev: extraction by the coarse comparator. */
    method Rm(ev: PendEvent) returns (fd: Fd)
      requires TakeCoarse(entries, ev).Some?
      modifies this
      ensures Some((fd, entries)) == TakeCoarse(old(entries), ev)
      ensures exists i ::
                && 0 <= i < |old(entries)| && old(entries)[i].0 == fd && old(entries)[i].1.kind == ev.kind
                && (forall j | 0 <= j < i :: old(entries)[j].1.kind != ev.kind)
                && entries == old(entries)[..i] + old(entries)[i + 1..]
      ensures |entries| == |old(entries)| - 1
    {
      var i := 0;
      while entries[i].1.kind != ev.kind
        invariant 0 <= i <= CoarseIndex(entries, ev.kind)
        decreases |entries| - i
      {
        i := i + 1;
      }
      fd := entries[i].0;
      entries := entries[..i] + entries[i + 1..];
    }
  }
}
