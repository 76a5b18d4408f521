// What a step that touches one part of the system leaves alone.
module Frames {
  import opened E2ap
  import opened BiMap
  import opened RicTables
  import opened IdMap
  import opened XappTables
  import opened AgentTables
  import opened Protocol
  import opened Invariant

  lemma KeepNodes(s: Sys, t: Sys)
    requires NodesOk(s)
    requires Bound(t).left == Bound(s).left
    requires t.agents == s.agents && t.r2a == s.r2a && t.a2r == s.a2r
    ensures NodesOk(t)
  {
  }

  lemma KeepXapps(s: Sys, t: Sys)
    requires XappsOk(s)
    requires Bound(t).right == Bound(s).right
    requires t.agents.Keys == s.agents.Keys
    requires t.xs == s.xs && t.x2i == s.x2i && t.i2x == s.i2x
    requires forall x: U16 :: Held(t.ipc, x) == Held(s.ipc, x)
    ensures XappsOk(t)
  {
    forall k | k in t.xs ensures XappOk(Bound(t).right, t.agents.Keys, t.xs[k], Early(t, k), Get(t.i2x, k)) {
      assert Early(t, k) == Early(s, k);
    }
  }

  /** A step that changes the view of no request. */
  ghost predicate Silent(s: Sys, t: Sys, i: U16) {
    Owned(s, i) ==> Owned(t, i) && ViewOf(t, i) == ViewOf(s, i)
  }

  lemma KeepRequest(s: Sys, t: Sys, i: U16)
    requires RequestOk(s, i) && Silent(s, t, i)
    ensures RequestOk(t, i)
  {
  }

  lemma KeepViews(s: Sys, t: Sys)
    requires ViewsOk(s)
    requires Bound(t) == Bound(s)
    requires forall i | i in Bound(s).left :: Silent(s, t, i)
    ensures ViewsOk(t)
  {
    forall i | i in Bound(t).left ensures RequestOk(t, i) {
      KeepRequest(s, t, i);
    }
  }

  /** A step that changes the view of request `i` alone. */
  lemma ChangeView(s: Sys, t: Sys, i: U16)
    requires ViewsOk(s)
    requires Bound(t) == Bound(s) && i in Bound(s).left
    requires forall j | j in Bound(s).left && j != i :: Silent(s, t, j)
    requires RequestOk(t, i)
    ensures ViewsOk(t)
  {
    forall j | j in Bound(t).left ensures RequestOk(t, j) {
      if j != i {
        KeepRequest(s, t, j);
      }
    }
  }

  // ---------------------------------------------------------------- channels

  lemma DownSnoc(q: seq<E2Req>, m: E2Req, i: int)
    ensures Down(q + [m], i) == Down(q, i) + (if m.ric.req == i then [m.kind] else [])
  {
    if q == [] {
      assert q + [m] == [m];
    } else {
      assert (q + [m])[1..] == q[1..] + [m];
      DownSnoc(q[1..], m, i);
    }
  }

  lemma UpSnoc(q: seq<E2Ans>, m: E2Ans, i: int)
    ensures Up(q + [m], i) == Up(q, i) + (if m.ric.req == i then [m.kind] else [])
  {
    if q == [] {
      assert q + [m] == [m];
    } else {
      assert (q + [m])[1..] == q[1..] + [m];
      UpSnoc(q[1..], m, i);
    }
  }

  lemma DeliverSnoc(q: seq<E2Ans>, m: E2Ans, ric: RicGenId)
    ensures Deliver(q + [m], ric) == Deliver(q, ric) + (if m.ric == ric then [m.kind] else [])
  {
    if q == [] {
      assert q + [m] == [m];
    } else {
      assert (q + [m])[1..] == q[1..] + [m];
      DeliverSnoc(q[1..], m, ric);
    }
  }

  /** A channel that carries nothing for `ric`. */
  lemma DeliverNone(q: seq<E2Ans>, ric: RicGenId)
    requires forall m | m in q :: m.ric != ric
    ensures Deliver(q, ric) == []
  {
  }

  lemma UpNone(q: seq<E2Ans>, i: int)
    requires forall m | m in q :: m.ric.req != i
    ensures Up(q, i) == []
  {
  }

  lemma DownNone(q: seq<E2Req>, i: int)
    requires forall m | m in q :: m.ric.req != i
    ensures Down(q, i) == []
  {
  }
}
