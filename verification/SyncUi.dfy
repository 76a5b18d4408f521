// The condition variable that a blocking call of an xApp waits on.
module SyncUi {
  import opened E2ap

  datatype Holder = Nobody | Caller | Signaller

  /** The caller is outside, has just locked, is at the loop test, sleeps in the
      wait, has left the loop, or has unlocked and is about to check msg_ack. */
  datatype Pc = Outside | Entered | Testing | Sleeping | Leaving | Checking

  datatype Sync = Sync(flag: bool, ack: bool, holder: Holder, pc: Pc)

  datatype Event =
    | CallLock | CallReset | CallTest
    | CallWakes       // signalled or spuriously; the mutex is taken again
    | CallTimesOut
    | CallUnlock | CallReturn
    | SignalLock | SignalSet | SignalUnlock

  datatype Outcome = Blocked | Aborts | Goes(s: Sync)

  const INIT := Sync(false, false, Nobody, Outside)

  function Step(s: Sync, e: Event): Outcome {
    match e
    case CallLock =>
      if s.pc == Outside && s.holder == Nobody then Goes(s.(pc := Entered, holder := Caller)) else Blocked
    case CallReset =>
      if s.pc == Entered then Goes(s.(pc := Testing, flag := false, ack := false)) else Blocked
    case CallTest =>
      if s.pc != Testing then Blocked
      else if s.flag then Goes(s.(pc := Leaving))
      else Goes(s.(pc := Sleeping, holder := Nobody))
    case CallWakes =>
      if s.pc == Sleeping && s.holder == Nobody then Goes(s.(pc := Testing, holder := Caller)) else Blocked
    case CallTimesOut =>
      // the loop is left with ETIMEDOUT, which the next assertion refuses
      if s.pc == Sleeping && s.holder == Nobody then Aborts else Blocked
    case CallUnlock =>
      if s.pc == Leaving then Goes(s.(pc := Checking, holder := Nobody)) else Blocked
    case CallReturn =>
      if s.pc != Checking then Blocked else if s.ack then Goes(s.(pc := Outside)) else Aborts
    case SignalLock =>
      if s.holder == Nobody then Goes(s.(holder := Signaller)) else Blocked
    case SignalSet =>
      if s.holder == Signaller then Goes(s.(flag := true, ack := true)) else Blocked
    case SignalUnlock =>
      if s.holder == Signaller then Goes(s.(holder := Nobody)) else Blocked
  }

  function Exec(events: seq<Event>): Outcome {
    if events == [] then Goes(INIT)
    else
      match Exec(events[..|events| - 1])
      case Goes(s) => Step(s, events[|events| - 1])
      case o => o
  }

  /** Position after the last reset, or 0. */
  function SinceReset(events: seq<Event>): (n: nat)
    ensures n <= |events|
  {
    if events == [] then 0
    else if events[|events| - 1] == CallReset then |events|
    else SinceReset(events[..|events| - 1])
  }

  ghost predicate SignalledSince(events: seq<Event>, n: nat) {
    exists j :: n <= j < |events| && events[j] == SignalSet
  }

  lemma SignalledSnoc(events: seq<Event>, n: nat)
    requires events != [] && n < |events|
    ensures SignalledSince(events, n) <==>
            SignalledSince(events[..|events| - 1], n) || events[|events| - 1] == SignalSet
  {
    var front := events[..|events| - 1];
    if j :| n <= j < |events| && events[j] == SignalSet {
      if j < |front| {
        assert front[j] == SignalSet;
      }
    }
    if j :| n <= j < |front| && front[j] == SignalSet {
      assert events[j] == SignalSet;
    }
  }

  /** Who holds the mutex is told by the program counter. */
  predicate Consistent(s: Sync) {
    && (s.holder == Caller <==> s.pc == Entered || s.pc == Testing || s.pc == Leaving)
    && s.flag == s.ack
    && (s.pc == Leaving || s.pc == Checking ==> s.flag)
  }

  /** The flag says exactly that a signal has run since the last reset, under
      every interleaving and any number of spurious wake-ups. */
  lemma {:induction false} FlagMeaning(events: seq<Event>, s: Sync)
    requires Exec(events) == Goes(s)
    ensures Consistent(s)
    ensures s.flag <==> SignalledSince(events, SinceReset(events))
  {
    if events != [] {
      var front := events[..|events| - 1];
      FlagMeaning(front, Exec(front).s);
      if events[|events| - 1] != CallReset {
        SignalledSnoc(events, SinceReset(front));
      }
    }
  }

  /** A call returns normally only if a signal ran after this call's reset. */
  lemma ReturnMeansSignalled(events: seq<Event>, s: Sync)
    requires Exec(events + [CallReturn]) == Goes(s)
    ensures SignalledSince(events, SinceReset(events))
  {
    assert (events + [CallReturn])[..|events|] == events;
    FlagMeaning(events, Exec(events).s);
  }

  /** The check of msg_ack behind the loop never fails. */
  lemma AckHolds(events: seq<Event>)
    requires Exec(events).Goes?
    ensures Step(Exec(events).s, CallReturn) != Aborts
  {
    FlagMeaning(events, Exec(events).s);
  }

  /** A run fails only where the caller sleeps and its deadline comes. */
  lemma OnlyTimeoutFails(events: seq<Event>, e: Event)
    requires Exec(events).Goes?
    ensures Exec(events + [e]) == Aborts <==>
              e == CallTimesOut && Exec(events).s.pc == Sleeping && Exec(events).s.holder == Nobody
  {
    assert (events + [e])[..|events|] == events;
    FlagMeaning(events, Exec(events).s);
  }

  /** At the loop test the call goes on exactly if it was signalled since its reset. */
  lemma TestDecides(events: seq<Event>, s: Sync)
    requires Exec(events) == Goes(s) && s.pc == Testing
    ensures Step(s, CallTest) == Goes(s.(pc := Leaving)) <==> SignalledSince(events, SinceReset(events))
  {
    FlagMeaning(events, s);
  }

  /** A signal that comes before the reset is lost: the call sleeps, and only a
      further signal can end the wait normally. */
  lemma EarlySignalIsLost()
    ensures Exec([SignalLock, SignalSet, SignalUnlock, CallLock, CallReset, CallTest])
            == Goes(Sync(false, false, Nobody, Sleeping))
  {
    var e := [SignalLock, SignalSet, SignalUnlock, CallLock, CallReset, CallTest];
    assert e[..5][..4] == e[..4] && e[..4][..3] == e[..3] && e[..3][..2] == e[..2] && e[..2][..1] == e[..1]
           && e[..1][..0] == [];
    assert Exec(e[..1]) == Goes(INIT.(holder := Signaller));
    assert Exec(e[..2]) == Goes(Sync(true, true, Signaller, Outside));
    assert Exec(e[..3]) == Goes(Sync(true, true, Nobody, Outside));
    assert Exec(e[..4]) == Goes(Sync(true, true, Caller, Entered));
    assert Exec(e[..5]) == Goes(Sync(false, false, Caller, Testing));
  }

  lemma Then(events: seq<Event>, e: Event, s: Sync, t: Sync)
    requires Exec(events) == Goes(s) && Step(s, e) == Goes(t)
    ensures Exec(events + [e]) == Goes(t)
  {
    assert (events + [e])[..|events|] == events;
  }

  /** A caller that sleeps with its signal given, and the mutex free, returns. */
  lemma SignalledReturns(events: seq<Event>, s: Sync)
    requires Exec(events) == Goes(s) && s.pc == Sleeping && s.holder == Nobody
    requires SignalledSince(events, SinceReset(events))
    ensures Exec(events + [CallWakes] + [CallTest] + [CallUnlock] + [CallReturn])
            == Goes(Sync(true, true, Nobody, Outside))
  {
    FlagMeaning(events, s);
    Then(events, CallWakes, s, Sync(true, true, Caller, Testing));
    Then(events + [CallWakes], CallTest, Sync(true, true, Caller, Testing), Sync(true, true, Caller, Leaving));
    Then(events + [CallWakes] + [CallTest], CallUnlock, Sync(true, true, Caller, Leaving),
         Sync(true, true, Nobody, Checking));
    Then(events + [CallWakes] + [CallTest] + [CallUnlock], CallReturn, Sync(true, true, Nobody, Checking),
         Sync(true, true, Nobody, Outside));
  }

  /** From the outside a caller comes to sleep, and a signal can be given to it. */
  lemma CallerSleeps(events: seq<Event>, s: Sync)
    requires Exec(events) == Goes(s) && s.pc == Outside && s.holder == Nobody
    ensures Exec(events + [CallLock] + [CallReset] + [CallTest]) == Goes(Sync(false, false, Nobody, Sleeping))
    ensures Exec(events + [CallLock] + [CallReset] + [CallTest] + [SignalLock] + [SignalSet] + [SignalUnlock])
            == Goes(Sync(true, true, Nobody, Sleeping))
  {
    var e := events + [CallLock];
    Then(events, CallLock, s, s.(pc := Entered, holder := Caller));
    Then(e, CallReset, s.(pc := Entered, holder := Caller), Sync(false, false, Caller, Testing));
    Then(e + [CallReset], CallTest, Sync(false, false, Caller, Testing), Sync(false, false, Nobody, Sleeping));
    var f := e + [CallReset] + [CallTest];
    Then(f, SignalLock, Sync(false, false, Nobody, Sleeping), Sync(false, false, Signaller, Sleeping));
    Then(f + [SignalLock], SignalSet, Sync(false, false, Signaller, Sleeping), Sync(true, true, Signaller, Sleeping));
    Then(f + [SignalLock] + [SignalSet], SignalUnlock, Sync(true, true, Signaller, Sleeping),
         Sync(true, true, Nobody, Sleeping));
  }

  // ---------------------------------------------------------------- the object

  /** What happens while the caller sleeps. */
  datatype Wake = Wake(signals: nat, timeout: bool)

  /** The wake-up at which the loop is left: the first with a signal or at the deadline. */
  ghost predicate Decides(wakes: seq<Wake>, i: nat) {
    && i < |wakes| && (wakes[i].signals > 0 || wakes[i].timeout)
    && forall j | 0 <= j < i :: wakes[j].signals == 0 && !wakes[j].timeout
  }

  class SyncObj {
    var flag: bool
    var ack: bool

    constructor ()
      ensures !flag && !ack
    {
      flag, ack := false, false;
    }

    /** signal_sync_ui, by the event loop. */
    method Signal()
      modifies this
      ensures flag && ack
    {
      flag := true;
      ack := true;
    }

    /** cond_wait_sync_ui; `wakes` is what the scheduler and the event loop do. It
        returns None when it is still asleep and Some(false) on a timeout. */
    method CondWait(wakes: seq<Wake>) returns (r: Option<bool>)
      modifies this
      ensures r == Some(true) <==> exists i: nat :: Decides(wakes, i) && wakes[i].signals > 0 && !wakes[i].timeout
      ensures r == Some(false) <==> exists i: nat :: Decides(wakes, i) && wakes[i].timeout
      ensures r == None <==> forall i | 0 <= i < |wakes| :: wakes[i].signals == 0 && !wakes[i].timeout
      ensures flag == ack && (r == Some(true) ==> ack)
    {
      flag := false;
      ack := false;
      var rc := true;
      var n := 0;
      while !flag && rc && n < |wakes|
        invariant n <= |wakes| && flag == ack
        invariant rc && !flag ==> forall i | 0 <= i < n :: wakes[i].signals == 0 && !wakes[i].timeout
        invariant !rc || flag ==> n > 0 && Decides(wakes, n - 1)
        invariant !rc || flag ==> (flag <==> wakes[n - 1].signals > 0) && (rc <==> !wakes[n - 1].timeout)
      {
        for k := 0 to wakes[n].signals
          invariant flag == ack && (flag <==> k > 0)
        {
          Signal();
        }
        rc := !wakes[n].timeout;
        n := n + 1;
      }
      if flag || !rc {
        assert Decides(wakes, n - 1);
      }
      r := if !rc then Some(false) else if flag then Some(true) else None;
    }
  }
}
