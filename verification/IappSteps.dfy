// The iApp thread keeps the invariant, and none of its assertions fails.
module IappSteps {
  import opened E2ap
  import opened BiMap
  import opened RicTables
  import opened IdMap
  import opened XappTables
  import opened AgentTables
  import opened Protocol
  import opened Invariant
  import opened Frames
  import opened RequestLife

  // ---------------------------------------------------------------- lock, add, unlock, find

  lemma LockWf(s: Sys, t: Sys)
    requires Wf(s) && DoIappLock(s) == Ok(t)
    ensures Wf(t) && Bound(t) == Bound(s)
  {
    assert Bound(t) == Bound(s);
  }

  lemma LockSilent(s: Sys, t: Sys, i: U16)
    requires DoIappLock(s) == Ok(t) && Bound(t) == Bound(s)
    ensures Silent(s, t, i)
  {
  }

  lemma Lock(s: Sys, t: Sys)
    requires Inv(s) && DoIappLock(s) == Ok(t)
    ensures Inv(t)
  {
    LockWf(s, t);
    KeepNodes(s, t);
    KeepXapps(s, t);
    forall i | i in Bound(s).left ensures Silent(s, t, i) {
      LockSilent(s, t, i);
    }
    KeepViews(s, t);
  }

  lemma AddWf(s: Sys, t: Sys)
    requires Wf(s) && DoIappAdd(s) == Ok(t)
    ensures Wf(t) && Bound(t) == Bound(s)
  {
    assert Bound(t) == Bound(s);
  }

  lemma AddSilent(s: Sys, t: Sys, i: U16)
    requires DoIappAdd(s) == Ok(t) && Bound(t) == Bound(s)
    ensures Silent(s, t, i)
  {
  }

  lemma AddPair(s: Sys, t: Sys)
    requires Inv(s) && DoIappAdd(s) == Ok(t)
    ensures Inv(t)
  {
    AddWf(s, t);
    KeepNodes(s, t);
    KeepXapps(s, t);
    forall i | i in Bound(s).left ensures Silent(s, t, i) {
      AddSilent(s, t, i);
    }
    KeepViews(s, t);
  }

  lemma UnlockWf(s: Sys, t: Sys)
    requires Wf(s) && DoIappUnlock(s) == Ok(t)
    ensures Wf(t) && Bound(t) == Bound(s)
  {
    assert Bound(t) == Bound(s);
  }

  lemma UnlockSilent(s: Sys, t: Sys, i: U16)
    requires DoIappUnlock(s) == Ok(t) && Bound(t) == Bound(s)
    ensures Silent(s, t, i)
  {
  }

  lemma Unlock(s: Sys, t: Sys)
    requires Inv(s) && DoIappUnlock(s) == Ok(t)
    ensures Inv(t)
  {
    UnlockWf(s, t);
    KeepNodes(s, t);
    KeepXapps(s, t);
    forall i | i in Bound(s).left ensures Silent(s, t, i) {
      UnlockSilent(s, t, i);
    }
    KeepViews(s, t);
  }

  lemma FindWf(s: Sys, t: Sys)
    requires Wf(s) && DoIappFind(s) == Ok(t)
    ensures Wf(t) && Bound(t) == Bound(s)
  {
    assert Bound(t) == Bound(s);
  }

  lemma FindState(s: Sys, t: Sys)
    requires DoIappFind(s) == Ok(t)
    ensures s.ipc.ILocked? && t.ipc.IFound? && t.ipc.req == s.ipc.req && t == s.(lock := Free, ipc := t.ipc)
  {
  }

  lemma FindSilent(s: Sys, t: Sys, i: U16)
    requires s.ipc.ILocked? && t.ipc.IFound? && t.ipc.req == s.ipc.req && t == s.(lock := Free, ipc := t.ipc)
    requires Bound(t) == Bound(s)
    ensures Silent(s, t, i)
  {
  }

  lemma FindHeld(s: Sys, t: Sys)
    requires DoIappFind(s) == Ok(t)
    ensures forall x: U16 :: Held(t.ipc, x) == Held(s.ipc, x)
  {
  }

  lemma Find(s: Sys, t: Sys)
    requires Inv(s) && DoIappFind(s) == Ok(t)
    ensures Inv(t)
  {
    FindWf(s, t);
    FindHeld(s, t);
    FindState(s, t);
    KeepNodes(s, t);
    KeepXapps(s, t);
    forall i | i in Bound(s).left ensures Silent(s, t, i) {
      FindSilent(s, t, i);
    }
    KeepViews(s, t);
  }

  // ---------------------------------------------------------------- receive

  /** The first request of a non-empty channel is the one the xApp's call made. */
  lemma HeadOfChannel(s: Sys, k: Sock)
    requires Inv(s) && k in s.xs && Get(s.x2i, k) != []
    ensures s.xs[k].call.Waiting?
    ensures |Get(s.x2i, k)| == 1 && Held(s.ipc, s.xs[k].id) == []
    ensures var req := s.x2i[k][0];
            && req.xapp == s.xs[k].id
            && req.ric == s.xs[k].call.ric
            && req.Kind() == s.xs[k].call.kind
  {
    var early := Early(s, k);
    assert XappOk(Bound(s).right, s.agents.Keys, s.xs[k], early, Get(s.i2x, k));
    assert |early| == |Held(s.ipc, s.xs[k].id)| + |Get(s.x2i, k)|;
    assert early[|early| - 1] == Get(s.x2i, k)[|Get(s.x2i, k)| - 1];
  }

  /** What the step needs to know about the channel it reads. */
  ghost predicate Pops(s: Sys, k: Sock, t: Sys) {
    && k in s.xs
    && DoIappRecv(s, k) == Ok(t)
    && |Get(s.x2i, k)| == 1
    && Held(s.ipc, s.xs[k].id) == []
    && s.x2i[k][0].xapp == s.xs[k].id
    && (!s.x2i[k][0].E42Delete? ==> Admitted(s, s.x2i[k][0].node))
    && SocksOk(s.xs, s.socks, s.nextXapp)
  }

  lemma RecvPops(s: Sys, k: Sock, t: Sys)
    requires Inv(s) && DoIappRecv(s, k) == Ok(t)
    ensures Pops(s, k, t) && Bound(t) == Bound(s)
  {
    assert k in s.x2i.Keys;
    HeadOfChannel(s, k);
    assert Bound(t) == Bound(s);
  }

  lemma RecvWf(s: Sys, k: Sock, t: Sys)
    requires Wf(s) && Pops(s, k, t) && Bound(t) == Bound(s)
    ensures Wf(t)
  {
  }

  lemma RecvEarly(s: Sys, k: Sock, t: Sys, j: Sock)
    requires Pops(s, k, t) && j in s.xs
    ensures j in t.xs && Early(t, j) == Early(s, j)
  {
    if j == k {
      assert Get(s.x2i, k) == [s.x2i[k][0]] + Get(t.x2i, k);
    } else {
      assert s.xs[j].id != s.xs[k].id;
    }
  }

  lemma RecvXapps(s: Sys, k: Sock, t: Sys)
    requires XappsOk(s) && Pops(s, k, t) && Bound(t) == Bound(s)
    ensures XappsOk(t)
  {
    forall j | j in t.xs ensures XappOk(Bound(t).right, t.agents.Keys, t.xs[j], Early(t, j), Get(t.i2x, j)) {
      RecvEarly(s, k, t, j);
    }
  }

  lemma RecvSilent(s: Sys, k: Sock, t: Sys, i: U16)
    requires Pops(s, k, t) && Bound(t) == Bound(s)
    ensures Silent(s, t, i)
  {
    if Owned(s, i) {
      RecvEarly(s, k, t, s.socks[Bound(s).left[i].who.xapp]);
    }
  }

  lemma Recv(s: Sys, k: Sock, t: Sys)
    requires Inv(s) && DoIappRecv(s, k) == Ok(t)
    ensures Inv(t)
  {
    RecvPops(s, k, t);
    RecvWf(s, k, t);
    KeepNodes(s, t);
    RecvXapps(s, k, t);
    forall i | i in Bound(s).left ensures Silent(s, t, i) {
      RecvSilent(s, k, t, i);
    }
    KeepViews(s, t);
  }

  /** The checks of a request fail exactly when its node is not connected, or
      more nodes are than the array of the check holds. */
  lemma RecvAbort(s: Sys, k: Sock)
    requires Inv(s)
    ensures DoIappRecv(s, k) == Abort <==>
              s.ipc == IIdle && Get(s.x2i, k) != [] && !s.x2i[k][0].E42Delete? && !Admitted(s, s.x2i[k][0].node)
  {
    if s.ipc == IIdle && Get(s.x2i, k) != [] {
      assert k in s.x2i.Keys;
      HeadOfChannel(s, k);
      NumberBelow(s, k);
      HeadPasses(s, k);
    }
  }

  /** The number of an xApp is below the next one. */
  lemma NumberBelow(s: Sys, k: Sock)
    requires SocksOk(s.xs, s.socks, s.nextXapp) && k in s.xs
    ensures s.xs[k].id <= s.nextXapp
  {
    assert Numbered(s.xs[k].id, s.nextXapp);
  }

  lemma HeadPasses(s: Sys, k: Sock)
    requires s.ipc == IIdle && k in s.x2i && s.x2i[k] != []
    requires s.x2i[k][0].xapp <= s.nextXapp
    ensures DoIappRecv(s, k) == Abort <==> !s.x2i[k][0].E42Delete? && !Admitted(s, s.x2i[k][0].node)
  {
  }

  // ---------------------------------------------------------------- the assertions

  lemma AddNoAbort(s: Sys)
    requires AddOk(s.ids, s.ipc)
    ensures DoIappAdd(s) != Abort
  {
  }

  lemma DeleteIsBound(s: Sys, k: Sock)
    requires s.ipc.ILocked? && s.ipc.req.E42Delete?
    requires k in s.xs && s.xs[k].id == s.ipc.req.xapp
    requires XappOk(s.ids.right, s.agents.Keys, s.xs[k], Early(s, k), Get(s.i2x, k))
    ensures s.ipc.req.Who() in s.ids.right
  {
    assert Early(s, k)[0] == s.ipc.req;
  }

  /** A delete finds the pair of the subscription that it ends. */
  lemma FindNoAbort(s: Sys)
    requires Wf(s) && XappsOk(s)
    ensures DoIappFind(s) != Abort
  {
    if s.ipc.ILocked? && s.ipc.req.E42Delete? {
      assert SockOk(s.xs, s.socks, s.ipc.req.xapp);
      assert Bound(s) == s.ids;
      DeleteIsBound(s, s.socks[s.ipc.req.xapp]);
    }
  }
}
