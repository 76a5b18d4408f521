// The listeners of the RAN functions at the near-RIC, and the publication of an
// indication, which walks the list of the first key of the table.
module PubSub {
  import opened E2ap

  datatype Listener = Stdout | Redis | Influx

  /** pub_sub in the order of its keys. */
  type Subs = seq<(U16, seq<Listener>)>

  const DEFAULT := [Stdout, Redis, Influx]

  ghost predicate Ascending(s: Subs) {
    forall i, j | 0 <= i < j < |s| :: s[i].0 < s[j].0
  }

  function IndexOf(s: Subs, f: U16): (i: nat)
    ensures i <= |s| && (i < |s| ==> s[i].0 == f)
    ensures forall j | 0 <= j < i :: s[j].0 != f
  {
    if s == [] || s[0].0 == f then 0
    else
      var i := IndexOf(s[1..], f);
      assert forall j | 1 <= j < i + 1 :: s[j] == s[1..][j - 1];
      1 + i
  }

  function PlaceOf(s: Subs, f: U16): (i: nat)
    ensures i <= |s|
    ensures forall j | 0 <= j < i :: s[j].0 <= f
    ensures i < |s| ==> f < s[i].0
  {
    if s == [] || f < s[0].0 then 0
    else
      var i := PlaceOf(s[1..], f);
      assert forall j | 1 <= j < i + 1 :: s[j] == s[1..][j - 1];
      1 + i
  }

  /** The listener goes to the end of its function's list. */
  function Registered(s: Subs, f: U16, l: Listener): Subs {
    var i := IndexOf(s, f);
    if i < |s| then s[i := (f, s[i].1 + [l])]
    else var p := PlaceOf(s, f); s[..p] + [(f, [l])] + s[p..]
  }

  /** Every loaded function has the default listeners, in the order of the plugins. */
  function Loaded(plugins: seq<U16>): Subs {
    seq(|plugins|, i requires 0 <= i < |plugins| => (plugins[i], DEFAULT))
  }

  /** Every function has these three listeners, in this order. */
  ghost predicate AllDefault(s: Subs) {
    forall e | e in s :: e.1 == [Stdout, Redis, Influx]
  }

  /** The listeners that are called: those of the first key, whatever was indicated. */
  function Called(s: Subs, f: U16): Option<seq<Listener>> {
    if IndexOf(s, f) == |s| then None else Some(s[0].1)
  }

  function ListenersOf(s: Subs, f: U16): Option<seq<Listener>> {
    var i := IndexOf(s, f);
    if i == |s| then None else Some(s[i].1)
  }

  // ---------------------------------------------------------------- any sequence of registrations

  type Registrations = seq<(U16, Listener)>

  function Built(rs: Registrations): Subs {
    if rs == [] then [] else Registered(Built(rs[..|rs| - 1]), rs[|rs| - 1].0, rs[|rs| - 1].1)
  }

  /** The listeners that were registered for a function, in order. */
  function Wanted(rs: Registrations, f: U16): seq<Listener> {
    if rs == [] then []
    else Wanted(rs[..|rs| - 1], f) + (if rs[|rs| - 1].0 == f then [rs[|rs| - 1].1] else [])
  }

  /** The table holds exactly the registered functions with their listeners. */
  ghost predicate Holds(s: Subs, rs: Registrations) {
    && Ascending(s) && Lists(s, rs)
    && (forall f | Wanted(rs, f) != [] :: IndexOf(s, f) < |s|)
  }

  lemma RegisteredOther(s: Subs, f: U16, l: Listener, g: U16)
    requires Ascending(s) && g != f && IndexOf(s, g) < |s|
    ensures IndexOf(Registered(s, f, l), g) < |Registered(s, f, l)|
  {
    var t := Registered(s, f, l);
    var i, j := IndexOf(s, f), IndexOf(s, g);
    if i == |s| {
      var p := PlaceOf(s, f);
      assert t[if j < p then j else j + 1] == s[j];
    } else {
      assert t[j] == s[j];
    }
  }

  /** The entries agree with what was registered. */
  ghost predicate Lists(s: Subs, rs: Registrations) {
    forall e | e in s :: e.1 == Wanted(rs, e.0) && e.1 != []
  }

  lemma NewFunction(s: Subs, f: U16, l: Listener)
    requires Ascending(s) && IndexOf(s, f) == |s|
    ensures Ascending(Registered(s, f, l))
    ensures forall e :: e in Registered(s, f, l) <==> e in s || e == (f, [l])
  {
    var p := PlaceOf(s, f);
    forall j | 0 <= j < |s| ensures if j < p then s[j].0 < f else f < s[j].0 {
      assert s[j].0 != f;
      assert j > p ==> s[p].0 < s[j].0;
    }
    SpliceAscending(s, p, (f, [l]));
  }

  lemma SpliceAscending(s: Subs, p: nat, e: (U16, seq<Listener>))
    requires Ascending(s) && p <= |s| && forall j | 0 <= j < |s| :: if j < p then s[j].0 < e.0 else e.0 < s[j].0
    ensures Ascending(s[..p] + [e] + s[p..])
    ensures forall d :: d in s[..p] + [e] + s[p..] <==> d in s || d == e
  {
    assert s == s[..p] + s[p..];
  }

  lemma OldFunction(s: Subs, f: U16, l: Listener)
    requires Ascending(s) && IndexOf(s, f) < |s|
    ensures Ascending(Registered(s, f, l))
    ensures forall e | e in Registered(s, f, l) :: (e in s && e.0 != f) || e == (f, s[IndexOf(s, f)].1 + [l])
  {
  }

  lemma RegisteredLists(s: Subs, rs: Registrations, f: U16, l: Listener)
    requires Ascending(s) && Lists(s, rs) && (IndexOf(s, f) == |s| ==> Wanted(rs, f) == [])
    ensures Ascending(Registered(s, f, l)) && Lists(Registered(s, f, l), rs + [(f, l)])
  {
    assert (rs + [(f, l)])[..|rs|] == rs;
    if IndexOf(s, f) == |s| {
      NewFunction(s, f, l);
    } else {
      OldFunction(s, f, l);
      assert s[IndexOf(s, f)] in s;
    }
  }

  lemma RegisteredHolds(s: Subs, rs: Registrations, f: U16, l: Listener)
    requires Holds(s, rs)
    ensures Holds(Registered(s, f, l), rs + [(f, l)])
  {
    RegisteredLists(s, rs, f, l);
    var t, qs := Registered(s, f, l), rs + [(f, l)];
    assert qs[..|rs|] == rs;
    forall g | Wanted(qs, g) != [] ensures IndexOf(t, g) < |t| {
      if g != f {
        RegisteredOther(s, f, l, g);
      } else {
        RegisteredSelf(s, f, l);
      }
    }
  }

  lemma RegisteredSelf(s: Subs, f: U16, l: Listener)
    ensures IndexOf(Registered(s, f, l), f) < |Registered(s, f, l)|
  {
    var t, i := Registered(s, f, l), IndexOf(s, f);
    assert t[if i == |s| then PlaceOf(s, f) else i].0 == f;
  }

  lemma {:induction false} BuiltHolds(rs: Registrations)
    ensures Holds(Built(rs), rs)
  {
    if rs != [] {
      BuiltHolds(rs[..|rs| - 1]);
      RegisteredHolds(Built(rs[..|rs| - 1]), rs[..|rs| - 1], rs[|rs| - 1].0, rs[|rs| - 1].1);
      assert rs[..|rs| - 1] + [rs[|rs| - 1]] == rs;
    }
  }

  /** After any registrations, publishing calls for every registered function the
      listeners that were registered for it if and only if all functions have been
      given the same listeners in the same order. */
  lemma PublishesRightIff(rs: Registrations)
    ensures (forall f | Wanted(rs, f) != [] :: Called(Built(rs), f) == Some(Wanted(rs, f)))
            <==> (forall f, g | Wanted(rs, f) != [] && Wanted(rs, g) != [] :: Wanted(rs, f) == Wanted(rs, g))
  {
    BuiltHolds(rs);
    if rs != [] {
      var first := CalledFirst(rs);
      forall f | Wanted(rs, f) != [] ensures Called(Built(rs), f) == Some(Wanted(rs, first)) {
        assert IndexOf(Built(rs), f) < |Built(rs)|;
      }
    }
  }

  /** The function whose listeners are called is a registered one. */
  lemma CalledFirst(rs: Registrations) returns (first: U16)
    requires Holds(Built(rs), rs) && rs != []
    ensures Built(rs) != [] && Built(rs)[0] == (first, Wanted(rs, first)) && Wanted(rs, first) != []
  {
    var f := rs[|rs| - 1].0;
    assert Wanted(rs, f) != [];
    assert IndexOf(Built(rs), f) < |Built(rs)|;
    first := Built(rs)[0].0;
    assert Built(rs)[0] in Built(rs);
  }

  /** The listeners that are called are those of the least registered function. */
  lemma LeastIsCalled(rs: Registrations, f: U16, least: U16)
    requires Wanted(rs, f) != [] && Wanted(rs, least) != []
    requires forall g: U16 | g < least :: Wanted(rs, g) == []
    ensures Called(Built(rs), f) == Some(Wanted(rs, least))
  {
    BuiltHolds(rs);
    assert IndexOf(Built(rs), f) < |Built(rs)|;
    var i, first := IndexOf(Built(rs), least), Built(rs)[0].0;
    assert Built(rs)[0] in Built(rs) && Built(rs)[i] in Built(rs);
    assert i > 0 ==> first < least;
  }

  /** With two functions of different listeners the wrong ones are called. */
  lemma CalledCanBeWrong()
    ensures exists s: Subs, f :: Ascending(s) && Called(s, f).Some? && Called(s, f) != ListenersOf(s, f)
  {
    var s: Subs := [(142, [Stdout]), (143, [Redis])];
    assert s[1..] == [(143, [Redis])];
    assert IndexOf(s, 143) == 1;
    assert Ascending(s) && Called(s, 143).Some? && Called(s, 143) != ListenersOf(s, 143);
  }

  /** After the default loading, exactly the listeners of the indicated function
      are called, once each and in order. */
  lemma DefaultPublishes(plugins: seq<U16>, f: U16)
    requires f in plugins
    ensures Called(Loaded(plugins), f) == ListenersOf(Loaded(plugins), f) == Some([Stdout, Redis, Influx])
  {
    var i :| 0 <= i < |plugins| && plugins[i] == f;
    assert Loaded(plugins)[i].0 == f;
  }

  lemma RegisterLast(s: Subs, f: U16, l: Listener, ls: seq<Listener>)
    requires forall j | 0 <= j < |s| :: s[j].0 < f
    ensures Registered(s, f, l) == s + [(f, [l])]
    ensures Registered(s + [(f, ls)], f, l) == s + [(f, ls + [l])]
  {
    assert PlaceOf(s, f) == |s|;
    var t := s + [(f, ls)];
    assert t[|s|].0 == f;
    assert forall j | 0 <= j < |s| :: t[j].0 < f;
    assert IndexOf(t, f) == |s|;
  }

  class Publisher {
    var subs: Subs

    constructor ()
      ensures subs == []
    {
      subs := [];
    }

    /** register_listeners_for_ran_func_id. */
    method Register(f: U16, l: Listener)
      modifies this
      ensures subs == Registered(old(subs), f, l)
    {
      var i := 0;
      while i < |subs| && subs[i].0 != f
        invariant 0 <= i <= IndexOf(subs, f)
      {
        i := i + 1;
      }
      if i == |subs| {
        var at := 0;
        while at < |subs| && subs[at].0 <= f
          invariant 0 <= at <= PlaceOf(subs, f)
        {
          at := at + 1;
        }
        assert at == PlaceOf(subs, f);
        subs := subs[..at] + [(f, [l])] + subs[at..];
      } else {
        subs := subs[i := (f, subs[i].1 + [l])];
      }
    }

    method LoadOne(f: U16)
      requires forall j | 0 <= j < |subs| :: subs[j].0 < f
      modifies this
      ensures subs == old(subs) + [(f, DEFAULT)]
    {
      ghost var was := subs;
      RegisterLast(was, f, Stdout, []);
      Register(f, Stdout);
      RegisterLast(was, f, Redis, [Stdout]);
      Register(f, Redis);
      assert [Stdout] + [Redis] == [Stdout, Redis] && [Stdout, Redis] + [Influx] == DEFAULT;
      RegisterLast(was, f, Influx, [Stdout, Redis]);
      Register(f, Influx);
    }

    /** load_default_pub_sub_ric: three registrations for each plugin, in key order. */
    method LoadDefault(plugins: seq<U16>)
      requires subs == [] && forall i, j | 0 <= i < j < |plugins| :: plugins[i] < plugins[j]
      modifies this
      ensures subs == Loaded(plugins) && Ascending(subs)
      ensures |subs| == |plugins| && forall i | 0 <= i < |subs| :: subs[i] == (plugins[i], [Stdout, Redis, Influx])
    {
      var i := 0;
      while i < |plugins|
        invariant 0 <= i <= |plugins| && subs == Loaded(plugins[..i])
      {
        LoadOne(plugins[i]);
        assert plugins[..i + 1][..i] == plugins[..i];
        assert Loaded(plugins[..i + 1]) == Loaded(plugins[..i]) + [(plugins[i], DEFAULT)];
        i := i + 1;
      }
      assert plugins[..|plugins|] == plugins;
    }

    /** publish_ind_msg; `called` records the calls of the listeners. */
    method Publish(f: U16) returns (called: seq<Listener>)
      requires IndexOf(subs, f) < |subs|
      ensures called == subs[0].1
    {
      var arr := subs[0].1;
      called := [];
      for i := 0 to |arr|
        invariant called == arr[..i]
      {
        called := called + [arr[i]];
      }
      assert arr[..|arr|] == arr;
    }
  }
}
