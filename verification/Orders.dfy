// The comparators of the tables and the equalities that the scans use.
module Orders {
  import opened E2ap
  import opened AssocTree

  /** The usual comparator of this code base: 1 when the first comes first. */
  function Cmp(a: int, b: int): int {
    if a < b then 1 else if a > b then -1 else 0
  }

  /** Some comparators have the opposite sign; they order the other way round. */
  function CmpUp(a: int, b: int): int {
    if a < b then -1 else if a > b then 1 else 0
  }

  function Lex(first: int, rest: int): int {
    if first != 0 then first else rest
  }

  function CmpRicGenId(a: RicGenId, b: RicGenId): int {
    Lex(Cmp(a.func, b.func), Lex(Cmp(a.inst, b.inst), Cmp(a.req, b.req)))
  }

  function EqRicGenId(a: RicGenId, b: RicGenId): bool {
    a.req == b.req && a.inst == b.inst && a.func == b.func
  }

  /** Position of the kind in pending_event_t. */
  function Rank(k: ReqKind): int {
    match k
    case Subscribe => 1
    case Delete => 2
    case Control => 3
  }

  function CmpKind(a: ReqKind, b: ReqKind): int {
    Cmp(Rank(a), Rank(b))
  }

  function CmpPendingRic(a: PendEvent, b: PendEvent): int {
    Lex(CmpKind(a.kind, b.kind), CmpRicGenId(a.ric, b.ric))
  }

  function EqPending(a: PendEvent, b: PendEvent): bool {
    a.kind == b.kind && EqRicGenId(a.ric, b.ric)
  }

  /** The comparator of the xApp's table looks at the kind only. */
  function CmpPendingXapp(a: PendEvent, b: PendEvent): int {
    CmpKind(a.kind, b.kind)
  }

  function CmpXappRicId(a: XappRicId, b: XappRicId): int {
    Lex(Cmp(a.xapp, b.xapp), CmpRicGenId(a.ric, b.ric))
  }

  function EqXappRicId(a: XappRicId, b: XappRicId): bool {
    a.xapp == b.xapp && EqRicGenId(a.ric, b.ric)
  }

  /** sctp_info_t: the address, and a part that no comparison looks at. */
  datatype SctpInfo = SctpInfo(port: U16, addr: U32, family: U16, sri: int)

  function CmpSctpInfo(a: SctpInfo, b: SctpInfo): int {
    Lex(Cmp(a.port, b.port), Lex(Cmp(a.addr, b.addr), Cmp(a.family, b.family)))
  }

  /** eq_sock_addr of the near-RIC. */
  function EqSockAddr(a: SctpInfo, b: SctpInfo): bool {
    a.family == b.family && a.addr == b.addr && a.port == b.port
  }

  // ---------------------------------------------------------------- total orders

  // Which of two keys comes first in its table.

  predicate RicBefore(a: RicGenId, b: RicGenId) {
    a.func < b.func || (a.func == b.func && (a.inst < b.inst || (a.inst == b.inst && a.req < b.req)))
  }

  predicate KindBefore(a: ReqKind, b: ReqKind) {
    (a == Subscribe && b != Subscribe) || (a == Delete && b == Control)
  }

  predicate PendingBefore(a: PendEvent, b: PendEvent) {
    KindBefore(a.kind, b.kind) || (a.kind == b.kind && RicBefore(a.ric, b.ric))
  }

  predicate XappBefore(a: XappRicId, b: XappRicId) {
    a.xapp < b.xapp || (a.xapp == b.xapp && RicBefore(a.ric, b.ric))
  }

  predicate SockBefore(a: SctpInfo, b: SctpInfo) {
    a.port < b.port || (a.port == b.port && (a.addr < b.addr || (a.addr == b.addr && a.family < b.family)))
  }

  lemma RicGenIdOrder()
    ensures Order(CmpRicGenId, EqRicGenId)
    ensures forall a, b :: EqRicGenId(a, b) <==> a == b
    ensures forall a, b :: CmpRicGenId(a, b) == 1 <==> RicBefore(a, b)
  {
    forall a, b, c ensures Chain(CmpRicGenId, a, b, c) {}
  }

  lemma PendingRicOrder()
    ensures Order(CmpPendingRic, EqPending)
    ensures forall a, b :: EqPending(a, b) <==> a == b
    ensures forall a, b :: CmpPendingRic(a, b) == 1 <==> PendingBefore(a, b)
  {
    RicGenIdOrder();
    forall a, b, c ensures Chain(CmpPendingRic, a, b, c) {
      assert Chain(CmpRicGenId, a.ric, b.ric, c.ric);
    }
  }

  lemma XappRicIdOrder()
    ensures Order(CmpXappRicId, EqXappRicId)
    ensures forall a, b :: EqXappRicId(a, b) <==> a == b
    ensures forall a, b :: CmpXappRicId(a, b) == 1 <==> XappBefore(a, b)
  {
    RicGenIdOrder();
    forall a, b, c ensures Chain(CmpXappRicId, a, b, c) {
      assert Chain(CmpRicGenId, a.ric, b.ric, c.ric);
    }
  }

  lemma SctpInfoOrder()
    ensures Order(CmpSctpInfo, EqSockAddr)
    ensures forall a, b :: CmpSctpInfo(a, b) == 1 <==> SockBefore(a, b)
  {
    forall a, b, c ensures Chain(CmpSctpInfo, a, b, c) {}
  }

  /** The xApp's comparator is no order for the paired equality: it merges all
      ids of one kind, which the agreement above does not allow. */
  lemma CoarseIsNoOrder()
    ensures !Order(CmpPendingXapp, EqPending)
    ensures forall a, b :: CmpPendingXapp(a, b) == 0 <==> a.kind == b.kind
  {
    var a, b := PendEvent(Subscribe, RicGenId(1, 0, 142)), PendEvent(Subscribe, RicGenId(2, 0, 142));
    assert CmpPendingXapp(a, b) == 0 && !EqPending(a, b);
  }

  // Any table of one of the four keys that is built by insertions, extractions and
  // rotations: the index finds what the scan finds.

  lemma PendingTableAgrees<V(!new)>(trees: seq<Tree<PendEvent, V>>, ops: seq<Op<PendEvent, V>>, n: nat, key: PendEvent)
    requires Builds(trees, ops, CmpPendingRic, EqPending) && n < |trees|
    ensures Descend(trees[n], CmpPendingRic, key) == Scan(Inorder(trees[n]), EqPending, key)
  {
    PendingRicOrder();
    BuiltIndexAgrees(trees, ops, CmpPendingRic, EqPending, n, key);
  }

  lemma XappRicIdTableAgrees<V(!new)>(trees: seq<Tree<XappRicId, V>>, ops: seq<Op<XappRicId, V>>, n: nat,
                                      key: XappRicId)
    requires Builds(trees, ops, CmpXappRicId, EqXappRicId) && n < |trees|
    ensures Descend(trees[n], CmpXappRicId, key) == Scan(Inorder(trees[n]), EqXappRicId, key)
  {
    XappRicIdOrder();
    BuiltIndexAgrees(trees, ops, CmpXappRicId, EqXappRicId, n, key);
  }

  lemma SctpInfoTableAgrees<V(!new)>(trees: seq<Tree<SctpInfo, V>>, ops: seq<Op<SctpInfo, V>>, n: nat, key: SctpInfo)
    requires Builds(trees, ops, CmpSctpInfo, EqSockAddr) && n < |trees|
    ensures Descend(trees[n], CmpSctpInfo, key) == Scan(Inorder(trees[n]), EqSockAddr, key)
  {
    SctpInfoOrder();
    BuiltIndexAgrees(trees, ops, CmpSctpInfo, EqSockAddr, n, key);
  }

  lemma RicGenIdTableAgrees<V(!new)>(trees: seq<Tree<RicGenId, V>>, ops: seq<Op<RicGenId, V>>, n: nat, key: RicGenId)
    requires Builds(trees, ops, CmpRicGenId, EqRicGenId) && n < |trees|
    ensures Descend(trees[n], CmpRicGenId, key) == Scan(Inorder(trees[n]), EqRicGenId, key)
  {
    RicGenIdOrder();
    BuiltIndexAgrees(trees, ops, CmpRicGenId, EqRicGenId, n, key);
  }

  // ---------------------------------------------------------------- E2 node ids

  function TypeRank(t: NodeType): int {
    match t
    case ENB => 0 case NgENB => 1 case GNB => 2
    case ENBCu => 3 case NgENBCu => 4 case GNBCu => 5
    case ENBDu => 6 case GNBDu => 7
    case MbmsSta => 8
  }

  predicate Monolithic(t: NodeType) {
    t == ENB || t == NgENB || t == GNB
  }

  predicate Split(t: NodeType) {
    t == ENBCu || t == NgENBCu || t == GNBCu || t == ENBDu || t == GNBDu
  }

  function CmpPlmn(a: Plmn, b: Plmn): int {
    Lex(CmpUp(a.mcc, b.mcc), Lex(CmpUp(a.mnc, b.mnc), CmpUp(a.digits, b.digits)))
  }

  function CmpPlmnNb(a: NodeId, b: NodeId): int {
    Lex(CmpPlmn(a.plmn, b.plmn), CmpUp(a.nb, b.nb))
  }

  /** The C code dereferences the CU/DU id of both nodes in the second case. */
  function CmpNode(a: NodeId, b: NodeId): int
    requires Split(a.typ) && Split(b.typ) ==> a.cuDu.Some? && b.cuDu.Some?
  {
    if Monolithic(a.typ) && Monolithic(b.typ) then
      Lex(CmpUp(TypeRank(a.typ), TypeRank(b.typ)), CmpPlmnNb(a, b))
    else if Split(a.typ) && Split(b.typ) then
      Lex(CmpUp(TypeRank(a.typ), TypeRank(b.typ)), Lex(CmpPlmnNb(a, b), CmpUp(a.cuDu.value, b.cuDu.value)))
    else
      CmpPlmnNb(a, b)
  }

  function EqNode(a: NodeId, b: NodeId): bool {
    if Monolithic(a.typ) && Monolithic(b.typ) then
      a.typ == b.typ && a.plmn == b.plmn && a.nb == b.nb
    else if Split(a.typ) && Split(b.typ) then
      a.cuDu.Some? && b.cuDu.Some? && a.typ == b.typ && a.plmn == b.plmn && a.nb == b.nb && a.cuDu == b.cuDu
    else
      a.plmn == b.plmn && a.nb == b.nb
  }

  /** Ids of these types; a split node carries its CU/DU id. */
  predicate Among(types: set<NodeType>, a: NodeId) {
    a.typ in types && (Split(a.typ) ==> a.cuDu.Some?)
  }

  /** The comparator is a total order on these ids, with the equality as its zero. */
  ghost predicate NodeOrder(types: set<NodeType>) {
    && (forall a, b | Among(types, a) && Among(types, b) ::
          && (CmpNode(a, b) == 0 <==> EqNode(a, b))
          && (CmpNode(a, b) == 1 <==> CmpNode(b, a) == -1))
    && (forall a, b, c | Among(types, a) && Among(types, b) && Among(types, c) :: NodeChain(a, b, c))
  }

  ghost predicate NodeChain(a: NodeId, b: NodeId, c: NodeId)
    requires Split(a.typ) ==> a.cuDu.Some?
    requires Split(b.typ) ==> b.cuDu.Some?
    requires Split(c.typ) ==> c.cuDu.Some?
  {
    CmpNode(a, b) >= 0 && CmpNode(b, c) >= 0 ==> CmpNode(a, c) >= 0
  }

  /** Only monolithic nodes, only CUs and DUs, or one monolithic type besides MBMS stations. */
  ghost predicate OneFamily(types: set<NodeType>) {
    || (forall t | t in types :: Monolithic(t))
    || (forall t | t in types :: Split(t))
    || (forall t, u | t in types && u in types :: !Split(t) && (Monolithic(t) && Monolithic(u) ==> t == u))
  }

  lemma PlmnNbChain(a: NodeId, b: NodeId, c: NodeId)
    ensures CmpPlmnNb(a, b) >= 0 && CmpPlmnNb(b, c) >= 0 ==> CmpPlmnNb(a, c) >= 0
    ensures CmpPlmnNb(a, b) >= 0 && CmpPlmnNb(b, c) >= 0 && CmpPlmnNb(a, c) == 0 ==>
            CmpPlmnNb(a, b) == 0 && CmpPlmnNb(b, c) == 0
  {
  }

  lemma SameFamilyChain(types: set<NodeType>, a: NodeId, b: NodeId, c: NodeId)
    requires OneFamily(types) && Among(types, a) && Among(types, b) && Among(types, c)
    ensures NodeChain(a, b, c)
  {
    PlmnNbChain(a, b, c);
  }

  predicate PlmnBefore(a: Plmn, b: Plmn) {
    a.mcc > b.mcc || (a.mcc == b.mcc && (a.mnc > b.mnc || (a.mnc == b.mnc && a.digits > b.digits)))
  }

  /** The larger id comes first, by type, plmn, nb_id and CU/DU id in one family. */
  predicate NodeBefore(a: NodeId, b: NodeId)
    requires Split(a.typ) && Split(b.typ) ==> a.cuDu.Some? && b.cuDu.Some?
  {
    if TypeRank(a.typ) != TypeRank(b.typ) && Split(a.typ) == Split(b.typ) && Monolithic(a.typ) == Monolithic(b.typ) then
      TypeRank(a.typ) > TypeRank(b.typ)
    else
      || PlmnBefore(a.plmn, b.plmn)
      || (a.plmn == b.plmn
          && (a.nb > b.nb || (a.nb == b.nb && Split(a.typ) && Split(b.typ) && a.cuDu.value > b.cuDu.value)))
  }

  lemma NodeDirection(a: NodeId, b: NodeId)
    requires Split(a.typ) && Split(b.typ) ==> a.cuDu.Some? && b.cuDu.Some?
    ensures CmpNode(a, b) == 1 <==> NodeBefore(a, b)
  {
  }

  /** Ids of two classes that share plmn and nb_id are equal to a third one but
      not to each other, or run in a circle. */
  lemma MixedBreaks(types: set<NodeType>, t: NodeType, u: NodeType, m: NodeType)
    returns (a: NodeId, b: NodeId, c: NodeId)
    requires t in types && u in types && m in types && m == MbmsSta
    requires Monolithic(t) && Monolithic(u) && TypeRank(t) < TypeRank(u)
    ensures Among(types, a) && Among(types, b) && Among(types, c) && !NodeChain(a, b, c)
  {
    var p := Plmn(1, 1, 2);
    a, b, c := NodeId(t, p, 1, None), NodeId(m, p, 0, None), NodeId(u, p, 0, None);
  }

  lemma SplitBreaks(types: set<NodeType>, s: NodeType, m: NodeType) returns (a: NodeId, b: NodeId, c: NodeId)
    requires s in types && m in types && Split(s) && !Split(m)
    ensures Among(types, a) && Among(types, b) && Among(types, c) && !NodeChain(a, b, c)
  {
    var p := Plmn(1, 1, 2);
    a, b, c := NodeId(s, p, 0, Some(1)), NodeId(m, p, 0, None), NodeId(s, p, 0, Some(2));
  }

  lemma BrokenFamily(types: set<NodeType>)
    requires !OneFamily(types)
    ensures !NodeOrder(types)
  {
    if s :| s in types && Split(s) {
      var m :| m in types && !Split(m);
      var a, b, c := SplitBreaks(types, s, m);
    } else {
      var m :| m in types && !Monolithic(m);
      var t, u :| t in types && u in types && Monolithic(t) && Monolithic(u) && t != u;
      if TypeRank(t) < TypeRank(u) {
        var a, b, c := MixedBreaks(types, t, u, m);
      } else {
        var a, b, c := MixedBreaks(types, u, t, m);
      }
    }
  }

  /** The node comparator orders the ids of these types exactly when they are of one family. */
  lemma NodeOrderIffOneFamily(types: set<NodeType>)
    ensures NodeOrder(types) <==> OneFamily(types)
  {
    if OneFamily(types) {
      forall a, b, c | Among(types, a) && Among(types, b) && Among(types, c) ensures NodeChain(a, b, c) {
        SameFamilyChain(types, a, b, c);
      }
    } else {
      BrokenFamily(types);
    }
  }
}
