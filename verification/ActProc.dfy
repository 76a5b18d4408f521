// The registry of active procedures of an xApp, which hands out request ids.
module ActProc {
  import opened E2ap
  import opened XappTables
  import opened AssocReg

  /** act_proc_val_t without its callback; `ric` is stored without its number. */
  datatype Val = Val(kind: ReqKind, ric: RicGenId, node: NodeId)

  function Shown(e: (nat, Val)): (nat, Proc) {
    (e.0, Proc(e.1.kind, e.1.ric.func, e.1.node))
  }

  /** The live procedures: what of an entry never changes. */
  function Procs(s: seq<(nat, Val)>): seq<(nat, Proc)> {
    seq(|s|, i requires 0 <= i < |s| => Shown(s[i]))
  }

  lemma {:induction false} LookupShown(s: seq<(nat, Val)>, k: nat)
    ensures Lookup(Procs(s), k) == match Lookup(s, k) case Some(v) => Some(Shown((k, v)).1) case None => None
    ensures Procs(Removed(s, k)) == Removed(Procs(s), k)
  {
    if s != [] {
      var t := s[..|s| - 1];
      assert Procs(s)[..|s| - 1] == Procs(t);
      LookupShown(t, k);
      if s[|s| - 1].0 == k {
        assert Removed(t, k) + [] == Removed(t, k) && Removed(Procs(t), k) + [] == Removed(Procs(t), k);
      }
    }
  }

  /** Patching the number in place is invisible. */
  lemma PatchShown(s: seq<(nat, Val)>, k: nat, v: Val)
    requires Lookup(s, k).Some? && forall e | e in s && e.0 == k :: Shown(e) == Shown((k, v))
    ensures Procs(Replaced(s, k, v)) == Procs(s)
  {
  }

  lemma {:induction false} LookupRemoved<V>(s: seq<(nat, V)>, k: nat, j: nat)
    ensures Lookup(Removed(s, k), j) == if j == k then None else Lookup(s, j)
  {
    if s != [] {
      var t, e := s[..|s| - 1], s[|s| - 1];
      LookupRemoved(t, k, j);
      if e.0 == k {
        assert Removed(t, k) + [] == Removed(t, k);
      } else {
        LookupAppend(Removed(t, k), [e], j);
        assert [e][..0] == [];
      }
    }
  }

  lemma {:induction false} RemovedLast<V>(s: seq<(nat, V)>, k: nat, v: V)
    requires forall e | e in s :: e.0 < k
    ensures Removed(s + [(k, v)], k) == s
  {
    LookupAbsent(s, k);
    assert (s + [(k, v)])[..|s|] == s;
  }

  class ActProcs {
    const reg: Registry<Val>

    ghost predicate Valid()
      reads this, reg, reg.arr
    {
      && reg.Valid()
      && (forall e | e in reg.Entries() :: e.0 < reg.keyId && e.1.ric.inst == 0)
      && (forall i, j | 0 <= i < j < |reg.Entries()| :: reg.Entries()[i].0 != reg.Entries()[j].0)
    }

    ghost function State(): seq<(nat, Proc)>
      reads this, reg, reg.arr
      requires reg.occ <= reg.arr.Length
    {
      Procs(reg.Entries())
    }

    constructor ()
      ensures Valid() && State() == [] && reg.keyId == 1 && fresh(reg) && fresh(reg.arr)
    {
      reg := new Registry(Val(Subscribe, RicGenId(0, 0, 0), NodeId(ENB, Plmn(0, 0, 0), 0, None)));
    }

    /** add_act_proc. */
    method Add(kind: ReqKind, ric: RicGenId, node: NodeId) returns (key: nat)
      requires Valid() && reg.keyId < TWO_32 && ric.inst == 0
      modifies reg, reg.arr
      ensures Valid() && (reg.arr == old(reg.arr) || fresh(reg.arr))
      ensures key == old(reg.keyId) && reg.keyId == key + 1
      ensures State() == old(State()) + [(key, Proc(kind, ric.func, node))]
    {
      key := reg.PushBack(Val(kind, ric, node));
    }

    /** generate_ric_gen_id: the id is completed with the key it was stored under. */
    method GenerateRicGenId(kind: ReqKind, func: U16, node: NodeId) returns (ric: RicGenId)
      requires Valid() && kind != Delete && ValidRanFunc(func) && reg.keyId < TWO_16
      modifies reg, reg.arr
      ensures Valid() && (reg.arr == old(reg.arr) || fresh(reg.arr))
      ensures ric == RicGenId(old(reg.keyId), 0, func) && reg.keyId == old(reg.keyId) + 1
      ensures State() == old(State()) + [(ric.req, Proc(kind, func, node))]
    {
      ric := RicGenId(0, 0, func);
      var key := Add(kind, ric, node);
      ric := ric.(req := key);
    }

    /** find_act_proc: patches the number into the stored id and returns it. */
    method Find(key: U16) returns (r: Option<Val>)
      requires Valid() && key > 0
      modifies reg.arr
      ensures Valid() && State() == old(State()) && reg.keyId == old(reg.keyId)
      ensures r.Some? <==> Lookup(State(), key).Some?
      ensures r.Some? ==>
                var p := Lookup(State(), key).value;
                r.value == Val(p.kind, RicGenId(key, 0, p.func), p.node)
    {
      var i := reg.Find(key);
      LookupShown(reg.Entries(), key);
      if i == reg.occ {
        return None;
      }
      var v := reg.arr[i].val;
      v := v.(ric := v.ric.(req := key));
      OnlyEntry(reg.Entries(), key);
      PatchShown(reg.Entries(), key, v);
      reg.Patch(i, v);
      r := Some(v);
    }

    /** rm_act_proc of a registered procedure. */
    method Rm(key: U16)
      requires Valid() && key > 0 && Lookup(State(), key).Some?
      modifies reg, reg.arr
      ensures Valid() && (reg.arr == old(reg.arr) || fresh(reg.arr)) && reg.keyId == old(reg.keyId)
      ensures State() == Removed(old(State()), key)
    {
      LookupShown(reg.Entries(), key);
      var i := reg.Find(key);
      RemovedSub(reg.Entries(), key);
      reg.Erase(i);
    }
  }

  /** The value that a lookup gives is in an entry, the only one with its key. */
  lemma {:induction false} OnlyEntry(s: seq<(nat, Val)>, k: nat)
    requires Lookup(s, k).Some?
    requires forall i, j | 0 <= i < j < |s| :: s[i].0 != s[j].0
    ensures (k, Lookup(s, k).value) in s
    ensures forall e | e in s && e.0 == k :: e == (k, Lookup(s, k).value)
  {
    var t := s[..|s| - 1];
    if s[|s| - 1].0 != k {
      OnlyEntry(t, k);
    }
  }

  lemma {:induction false} RemovedSub<V>(s: seq<(nat, V)>, k: nat)
    ensures forall e | e in Removed(s, k) :: e in s
    ensures (forall i, j | 0 <= i < j < |s| :: s[i].0 != s[j].0) ==>
              forall i, j | 0 <= i < j < |Removed(s, k)| :: Removed(s, k)[i].0 != Removed(s, k)[j].0
  {
    if s != [] {
      var t, e := s[..|s| - 1], s[|s| - 1];
      RemovedSub(t, k);
      if (forall i, j | 0 <= i < j < |s| :: s[i].0 != s[j].0) && e.0 != k {
        forall d | d in Removed(t, k) ensures d.0 != e.0 {
          var i :| 0 <= i < |t| && t[i] == d;
          assert s[i] == d;
        }
      }
    }
  }

  // ---------------------------------------------------------------- any sequence of calls

  datatype Op =
    | Generate(kind: ReqKind, func: U16, node: NodeId)
    | Lookups(key: U16)
    | Remove(key: U16)
    | ControlCall(func: U16, node: NodeId)   // generate, and remove when the answer is there

  datatype Table = Table(procs: seq<(nat, Proc)>, next: nat, handed: map<nat, RicGenId>)

  predicate Allowed(s: Table, op: Op) {
    match op
    case Generate(kind, func, _) => kind != Delete && ValidRanFunc(func) && s.next < TWO_16
    case Lookups(key) => key > 0
    case Remove(key) => Lookup(s.procs, key).Some?
    case ControlCall(func, _) => ValidRanFunc(func) && s.next < TWO_16
  }

  function Generated(s: Table, p: Proc): Table
    requires s.next < TWO_16
  {
    Table(s.procs + [(s.next, p)], s.next + 1, s.handed[s.next := RicOf(s.next, p)])
  }

  function Step(s: Table, op: Op): Table
    requires Allowed(s, op)
  {
    match op
    case Generate(kind, func, node) => Generated(s, Proc(kind, func, node))
    case Lookups(_) => s
    case Remove(key) => s.(procs := Removed(s.procs, key))
    case ControlCall(func, node) =>
      var t := Generated(s, Proc(Control, func, node));
      t.(procs := Removed(t.procs, s.next))
  }

  ghost predicate Run(trace: seq<Table>, ops: seq<Op>) {
    && |trace| == |ops| + 1 && trace[0] == Table([], 1, map[])
    && forall i | 0 <= i < |ops| :: Allowed(trace[i], ops[i]) && trace[i + 1] == Step(trace[i], ops[i])
  }

  /** Keys below `next` were handed out, each once; live ones give their id back. */
  ghost predicate Sound(s: Table) {
    && s.next >= 1
    && (forall k :: k in s.handed <==> 1 <= k < s.next)
    && (forall e | e in s.procs :: 1 <= e.0 < s.next)
    && (forall k: nat :: LiveGivesBack(s, k))
  }

  ghost predicate LiveGivesBack(s: Table, k: nat) {
    Lookup(s.procs, k).Some? ==> k in s.handed && k < TWO_32 && s.handed[k] == RicOf(k, Lookup(s.procs, k).value)
  }

  lemma GeneratedSound(s: Table, p: Proc)
    requires Sound(s) && s.next < TWO_16
    ensures Sound(Generated(s, p))
  {
    var t := Generated(s, p);
    forall k: nat ensures LiveGivesBack(t, k) {
      assert LiveGivesBack(s, k);
      LookupAppend(s.procs, [(s.next, p)], k);
      assert [(s.next, p)][..0] == [];
    }
  }

  lemma RemovedSound(s: Table, key: nat)
    requires Sound(s)
    ensures Sound(s.(procs := Removed(s.procs, key)))
  {
    RemovedSub(s.procs, key);
    var t := s.(procs := Removed(s.procs, key));
    forall k: nat ensures LiveGivesBack(t, k) {
      assert LiveGivesBack(s, k);
      LookupRemoved(s.procs, key, k);
    }
  }

  lemma StepSound(s: Table, op: Op)
    requires Sound(s) && Allowed(s, op)
    ensures Sound(Step(s, op)) && s.next <= Step(s, op).next
    ensures forall k | k in s.handed :: k in Step(s, op).handed && Step(s, op).handed[k] == s.handed[k]
    ensures op.ControlCall? ==> Step(s, op).procs == s.procs
  {
    match op {
      case Generate(kind, func, node) => GeneratedSound(s, Proc(kind, func, node));
      case Lookups(_) =>
      case Remove(key) => RemovedSound(s, key);
      case ControlCall(func, node) =>
        GeneratedSound(s, Proc(Control, func, node));
        RemovedSound(Generated(s, Proc(Control, func, node)), s.next);
        RemovedLast(s.procs, s.next, Proc(Control, func, node));
    }
  }

  /** On every run a lookup gives back the very id that was handed out under the
      key, no key is handed out twice, and a control call leaves the live entries
      as they were. */
  lemma {:induction false} RegistryRoundTrip(trace: seq<Table>, ops: seq<Op>, m: nat, n: nat)
    requires Run(trace, ops) && m <= n < |trace|
    ensures Sound(trace[n]) && trace[m].next <= trace[n].next
    ensures forall k | k in trace[m].handed :: k in trace[n].handed && trace[n].handed[k] == trace[m].handed[k]
    ensures forall k: nat :: LiveGivesBack(trace[n], k)
    ensures n < |ops| && ops[n].ControlCall? ==> trace[n + 1].procs == trace[n].procs
  {
    if n > 0 {
      RegistryRoundTrip(trace, ops, if m == n then n - 1 else m, n - 1);
      assert trace[n - 1 + 1] == Step(trace[n - 1], ops[n - 1]);
      StepSound(trace[n - 1], ops[n - 1]);
    }
    if n < |ops| {
      StepSound(trace[n], ops[n]);
    }
  }

  ghost predicate Matches(procs: map<U16, Proc>, s: seq<(nat, Proc)>) {
    forall k: U16 :: Lookup(s, k) == if k in procs then Some(procs[k]) else None
  }

  /** The map of the protocol model gives the same answers. */
  lemma MapAgrees(procs: map<U16, Proc>, s: seq<(nat, Proc)>, next: U16, p: Proc, key: U16)
    requires Matches(procs, s)
    ensures Matches(procs[next := p], s + [(next as nat, p)])
    ensures Matches(procs - {key}, Removed(s, key))
  {
    forall k: U16
      ensures Lookup(s + [(next as nat, p)], k) == if k in procs[next := p] then Some(procs[next := p][k]) else None
      ensures Lookup(Removed(s, key), k) == if k in procs - {key} then Some((procs - {key})[k]) else None
    {
      LookupAppend(s, [(next as nat, p)], k);
      assert [(next as nat, p)][..0] == [];
      LookupRemoved(s, key, k);
    }
  }
}
