/** Runs of PortOwnership that are met: a close that nobody hinders, owners one after another, owners that
    get the port by waiting for each other, and the waits that never end. */
module PortHandover {
  import opened Wrappers
  import opened PortOwnership

  lemma Steps(s: State, e: Event, r: State)
    requires Next(s, e).Some?
    requires var n := Next(s, e).value; n.ids == r.ids && n.ports == r.ports && n.threads == r.threads
    ensures Next(s, e) == Some(r)
  {
  }

  lemma FirstOwner(who: string)
    ensures Run(State([], [], [Idle, Idle]), [AddIdentifier, OpenEnter(0, 0, who, 0, true)]) == Some(Held(0, who))
  {
    var s, es := State([], [], [Idle, Idle]), [AddIdentifier, OpenEnter(0, 0, who, 0, true)];
    var registered := State([Unowned], [], [Idle, Idle]);
    Steps(s, es[0], registered);
    assert [] + [PortOwned] == [PortOwned];
    Steps(registered, es[1], Held(0, who));
    assert Run(registered, es[1..]) == Run(Held(0, who), []);
  }

  lemma OwnerAndWaiter(who: string) returns (s: State, es: seq<Event>)
    ensures Init(s)
    ensures Run(s, es) == Some(State([Identifier(false, Some(who), Some(0), [PortOwned, OwnershipRequested])],
                                     [Port(true, false, 0, 0)], [Idle, Waiting(0, who, 0, false)]))
  {
    var owned, calls := Held(0, who), [OpenEnter(1, 0, who, 0, true), TakeSync(1), StartWait(1)];
    var asked := Identifier(false, Some(who), Some(0), [PortOwned, OwnershipRequested]);
    var s1 := owned.(threads := [Idle, WantsSync(0, who, 0)]);
    var s2 := State([asked], [Port(true, false, 0, 0)], [Idle, Asking(0, who, 0)]);
    var s3 := s2.(threads := [Idle, Waiting(0, who, 0, false)]);
    assert [PortOwned] + [OwnershipRequested] == asked.fired;
    Steps(owned, calls[0], s1);
    Steps(s1, calls[1], s2);
    Steps(s2, calls[2], s3);
    assert Run(s2, calls[2..]) == Run(s3, []);
    assert Run(s1, calls[1..]) == Run(s2, calls[2..]);
    s, es := State([], [], [Idle, Idle]), [AddIdentifier, OpenEnter(0, 0, who, 0, true)];
    FirstOwner(who);
    InTwoParts(s, es, owned, calls);
    es := es + calls;
  }

  /** Such a wait is reached: one thread owns the open port, another opens it with timeout 0. */
  lemma UntimedWaitReached(who: string) returns (s: State, es: seq<Event>)
    ensures Init(s) && Run(s, es).Some? && Inv(Run(s, es).value) && Unheard(Run(s, es).value, 1)
    ensures var r := Run(s, es).value;
      r.threads == [Idle, Waiting(0, who, 0, false)]
      && |r.ids| == |r.ports| == 1 && r.ids[0].commport == Some(0) && r.ports[0].fdOpen
  {
    s, es := OwnerAndWaiter(who);
    InvRun(s, es);
  }

  // ---------- A close that nobody hinders ----------

  function CloseCalls(t: nat, port: nat, id: nat): seq<Event> {
    [CloseEnter(t, port), Lookup(t, Some(id)), Lookup(t, Some(id))] + [Release(t), FinishClose(t)]
  }

  /** Whatever else goes on, a close of an open port completes when Sync and the identifier's monitor are free:
      the port is closed for good and its identifier, and no other, has no owner and no port any more. */
  lemma CloseCompletes(s: State, t: nat, p: nat)
    requires Inv(s) && t < |s.threads| && s.threads[t].Idle? && p < |s.ports| && s.ports[p].fdOpen && Unclosed(s, p)
    requires SyncFree(s) && MonitorFree(s, s.ports[p].home)
    ensures var id := s.ports[p].home;
      && id < |s.ids|
      && Run(s, CloseCalls(t, p, id))
         == Some(State(s.ids[id := Identifier(true, None, None, s.ids[id].fired + [PortUnowned])],
                       s.ports[p := Port(false, false, 1, id)], s.threads))
  {
    var id := s.ports[p].home;
    assert PortOk(s, p);
    var a := State(s.ids, s.ports[p := Port(true, true, 1, id)], s.threads[t := FoundTwice(p, id)]);
    ClosesToRelease(s, t, p, id);
    StillFree(s, a, t, id);
    ReleasesUnheard(a, t, p, id, s.threads);
    assert a.ports[p := Port(false, false, 1, id)] == s.ports[p := Port(false, false, 1, id)];
    InTwoParts(s, [CloseEnter(t, p), Lookup(t, Some(id)), Lookup(t, Some(id))], a, [Release(t), FinishClose(t)]);
  }

  lemma StillFree(s: State, a: State, t: nat, id: nat)
    requires t < |s.threads| == |a.threads| && a.threads == s.threads[t := a.threads[t]] && a.threads[t].FoundTwice?
    requires SyncFree(s) && MonitorFree(s, id)
    ensures SyncFree(a) && MonitorFree(a, id)
  {
    forall u | 0 <= u < |a.threads| ensures !HoldsSync(a.threads[u]) && !HoldsMonitor(a.threads[u], id) {
      assert u != t ==> !HoldsSync(s.threads[u]) && !HoldsMonitor(s.threads[u], id);
    }
  }

  lemma InTwoParts(s: State, es: seq<Event>, a: State, more: seq<Event>)
    requires Run(s, es) == Some(a)
    ensures Run(s, es + more) == Run(a, more)
  {
    RunAppend(s, es, more);
  }

  lemma ClosesToRelease(s: State, t: nat, p: nat, id: nat)
    requires t < |s.threads| && s.threads[t].Idle? && p < |s.ports| && Unclosed(s, p) && SyncFree(s)
    requires s.ports[p] == Port(true, false, 0, id) && id < |s.ids| && s.ids[id].commport == Some(p)
    ensures Run(s, [CloseEnter(t, p), Lookup(t, Some(id)), Lookup(t, Some(id))])
         == Some(State(s.ids, s.ports[p := Port(true, true, 1, id)], s.threads[t := FoundTwice(p, id)]))
  {
    var es := [CloseEnter(t, p), Lookup(t, Some(id)), Lookup(t, Some(id))];
    var s1 := State(s.ids, s.ports[p := Port(true, true, 0, id)], s.threads[t := Closing(p)]);
    var s2 := State(s.ids, s.ports[p := Port(true, true, 1, id)], s.threads[t := FoundOnce(p, id)]);
    var s3 := s2.(threads := s.threads[t := FoundTwice(p, id)]);
    Steps(s, es[0], s1);
    Steps(s1, es[1], s2);
    Steps(s2, es[2], s3);
    assert Run(s2, es[2..]) == Run(s3, []);
    assert Run(s1, es[1..]) == Run(s2, es[2..]);
  }

  lemma ReleasesUnheard(s: State, t: nat, p: nat, id: nat, threads: seq<Pc>)
    requires t < |threads| && threads[t].Idle? && s.threads == threads[t := FoundTwice(p, id)]
    requires p < |s.ports| && s.ports[p] == Port(true, true, 1, id) && id < |s.ids|
    requires SyncFree(s) && MonitorFree(s, id)
    ensures Run(s, [Release(t), FinishClose(t)])
         == Some(State(s.ids[id := Identifier(true, None, None, s.ids[id].fired + [PortUnowned])],
                       s.ports[p := Port(false, false, 1, id)], threads))
  {
    var es := [Release(t), FinishClose(t)];
    var vacant := s.ids[id := Identifier(true, None, None, s.ids[id].fired + [PortUnowned])];
    var s1 := State(vacant, s.ports, threads[t := Released(p)]);
    var s2 := State(vacant, s.ports[p := Port(false, false, 1, id)], threads);
    assert Notified(s.threads, id) == s.threads by {
      assert forall u | 0 <= u < |s.threads| :: !HoldsSync(s.threads[u]);
    }
    Steps(s, es[0], s1);
    Steps(s1, es[1], s2);
    assert Run(s1, es[1..]) == Run(s2, []);
  }

  /** A close of a port that has been closed ends at once; the first such leaves its mark, in closeLock. */
  lemma CloseAgainEndsAtOnce(s: State, t: nat, p: nat)
    requires t < |s.threads| && s.threads[t].Idle? && p < |s.ports| && Unclosed(s, p) && !s.ports[p].fdOpen
    ensures Next(s, CloseEnter(t, p)) == Some(s.(ports := s.ports[p := s.ports[p].(closeLock := true)]))
  {
    assert s.ports[p].closeLock ==> s.ports[p] == s.ports[p].(closeLock := true);
    assert s.ports == s.ports[p := s.ports[p]];
  }

  // ---------- Owners in turn ----------

  function Turns(n: nat): seq<Fired> {
    if n == 0 then [] else Turns(n - 1) + [PortOwned, PortUnowned]
  }

  /** One identifier after `n` owners, each of whose ports is closed for good. */
  function AfterOwners(n: nat): State {
    State([Identifier(true, None, None, Turns(n))], seq(n, _ => Port(false, false, 1, 0)), [Idle])
  }

  /** The next owner has opened the identifier: a new port and an event more. */
  function WithOwner(n: nat, who: string): State {
    State([Identifier(false, Some(who), Some(n), Turns(n) + [PortOwned])],
          seq(n, _ => Port(false, false, 1, 0)) + [Port(true, false, 0, 0)], [Idle])
  }

  lemma OwnerOpens(n: nat, who: string)
    ensures Run(AfterOwners(n), [OpenEnter(0, 0, who, 0, true)]) == Some(WithOwner(n, who))
  {
    Steps(AfterOwners(n), OpenEnter(0, 0, who, 0, true), WithOwner(n, who));
    assert Run(WithOwner(n, who), []) == Some(WithOwner(n, who));
  }

  lemma OwnerCloses(n: nat, who: string)
    requires Inv(WithOwner(n, who))
    ensures Run(WithOwner(n, who), CloseCalls(0, n, 0)) == Some(AfterOwners(n + 1))
  {
    var s := WithOwner(n, who);
    CloseCompletes(s, 0, n);
    assert Turns(n) + [PortOwned] + [PortUnowned] == Turns(n + 1);
    assert s.ids[0 := Identifier(true, None, None, Turns(n + 1))] == AfterOwners(n + 1).ids;
    assert s.ports[n := Port(false, false, 1, 0)] == AfterOwners(n + 1).ports;
  }

  lemma {:induction false} RunAppend(s: State, es: seq<Event>, more: seq<Event>)
    requires Run(s, es).Some?
    ensures Run(s, es + more) == Run(Run(s, es).value, more)
    decreases |es|
  {
    if es == [] {
      assert es + more == more;
    } else {
      assert (es + more)[1..] == es[1..] + more;
      RunAppend(Next(s, es[0]).value, es[1..], more);
    }
  }

  /** Whoever they are, any number of owners can have the port one after another, each with a port of
      its own and one PORT_OWNED and one PORT_UNOWNED event. */
  lemma {:induction false} OwnersInTurn(who: seq<string>) returns (s: State, es: seq<Event>)
    ensures Init(s) && Run(s, es) == Some(AfterOwners(|who|))
  {
    if who == [] {
      s, es := State([], [], [Idle]), [AddIdentifier];
      Steps(s, AddIdentifier, AfterOwners(0));
      assert Run(AfterOwners(0), []) == Some(AfterOwners(0));
    } else {
      var n := |who| - 1;
      s, es := OwnersInTurn(who[..n]);
      OwnerOpens(n, who[n]);
      RunAppend(s, es, [OpenEnter(0, 0, who[n], 0, true)]);
      es := es + [OpenEnter(0, 0, who[n], 0, true)];
      InvRun(s, es);
      OwnerCloses(n, who[n]);
      RunAppend(s, es, CloseCalls(0, n, 0));
      es := es + CloseCalls(0, n, 0);
    }
  }

  // ---------- Owners that wait for each other ----------

  function Handed(n: nat): seq<Fired> {
    if n == 0 then [PortOwned] else Handed(n - 1) + [OwnershipRequested] + [PortUnowned] + [PortOwned]
  }

  /** The identifier with its owner number `n`, the ports of those before closed for good. */
  function Held(n: nat, who: string): State {
    State([Identifier(false, Some(who), Some(n), Handed(n))],
          seq(n, _ => Port(false, false, 1, 0)) + [Port(true, false, 0, 0)], [Idle, Idle])
  }

  function HandOverCalls(n: nat, who: string, timeout: nat): seq<Event> {
    [CloseEnter(0, n), Lookup(0, Some(0)), Lookup(0, Some(0))]
    + [OpenEnter(1, 0, who, timeout, true), TakeSync(1), StartWait(1)]
    + [Release(0), FinishClose(0), WakeUp(1, false, true)]
  }

  /** Between a close that has made its lookups and its release, another thread calls open and waits. */
  function WaitsForClose(n: nat, was: string, who: string, timeout: nat): State {
    var s := Held(n, was);
    State([s.ids[0].(fired := Handed(n) + [OwnershipRequested])], s.ports[n := Port(true, true, 1, 0)],
          [FoundTwice(n, 0), Waiting(0, who, timeout, false)])
  }

  lemma ClosesUpToRelease(n: nat, was: string)
    ensures var s := Held(n, was);
      Run(s, [CloseEnter(0, n), Lookup(0, Some(0)), Lookup(0, Some(0))])
        == Some(State(s.ids, s.ports[n := Port(true, true, 1, 0)], [FoundTwice(n, 0), Idle]))
  {
    var s, es := Held(n, was), [CloseEnter(0, n), Lookup(0, Some(0)), Lookup(0, Some(0))];
    var s1 := State(s.ids, s.ports[n := Port(true, true, 0, 0)], [Closing(n), Idle]);
    var s2 := State(s.ids, s.ports[n := Port(true, true, 1, 0)], [FoundOnce(n, 0), Idle]);
    var s3 := s2.(threads := [FoundTwice(n, 0), Idle]);
    Steps(s, es[0], s1);
    Steps(s1, es[1], s2);
    Steps(s2, es[2], s3);
    assert Run(s2, es[2..]) == Run(s3, []);
    assert Run(s1, es[1..]) == Run(s2, es[2..]);
  }

  lemma OpensAndWaits(n: nat, was: string, who: string, timeout: nat)
    ensures var s := Held(n, was);
      Run(State(s.ids, s.ports[n := Port(true, true, 1, 0)], [FoundTwice(n, 0), Idle]),
          [OpenEnter(1, 0, who, timeout, true), TakeSync(1), StartWait(1)])
        == Some(WaitsForClose(n, was, who, timeout))
  {
    var held, es := Held(n, was), [OpenEnter(1, 0, who, timeout, true), TakeSync(1), StartWait(1)];
    var s := State(held.ids, held.ports[n := Port(true, true, 1, 0)], [FoundTwice(n, 0), Idle]);
    var s1 := s.(threads := [FoundTwice(n, 0), WantsSync(0, who, timeout)]);
    var s3 := WaitsForClose(n, was, who, timeout);
    var s2 := s3.(threads := [FoundTwice(n, 0), Asking(0, who, timeout)]);
    Steps(s, es[0], s1);
    Steps(s1, es[1], s2);
    Steps(s2, es[2], s3);
    assert Run(s2, es[2..]) == Run(s3, []);
    assert Run(s1, es[1..]) == Run(s2, es[2..]);
  }

  lemma ReleasesToWaiter(n: nat, was: string, who: string, timeout: nat)
    ensures Run(WaitsForClose(n, was, who, timeout), [Release(0), FinishClose(0), WakeUp(1, false, true)])
         == Some(Held(n + 1, who))
  {
    var s, es := WaitsForClose(n, was, who, timeout), [Release(0), FinishClose(0), WakeUp(1, false, true)];
    var vacant := Identifier(true, None, None, Handed(n) + [OwnershipRequested] + [PortUnowned]);
    var s1 := State([vacant], s.ports, [Released(n), Waiting(0, who, timeout, true)]);
    var s2 := State([vacant], s.ports[n := Port(false, false, 1, 0)], [Idle, Waiting(0, who, timeout, true)]);
    Steps(s, es[0], s1);
    Steps(s1, es[1], s2);
    Steps(s2, es[2], Held(n + 1, who));
    assert Run(s2, es[2..]) == Run(Held(n + 1, who), []);
    assert Run(s1, es[1..]) == Run(s2, es[2..]);
  }

  lemma HandsOver(n: nat, was: string, who: string, timeout: nat)
    ensures Run(Held(n, was), HandOverCalls(n, who, timeout)) == Some(Held(n + 1, who))
  {
    var close := [CloseEnter(0, n), Lookup(0, Some(0)), Lookup(0, Some(0))];
    var open := [OpenEnter(1, 0, who, timeout, true), TakeSync(1), StartWait(1)];
    ClosesUpToRelease(n, was);
    OpensAndWaits(n, was, who, timeout);
    ReleasesToWaiter(n, was, who, timeout);
    RunAppend(Held(n, was), close, open);
    RunAppend(Held(n, was), close + open, [Release(0), FinishClose(0), WakeUp(1, false, true)]);
  }

  /** Whoever they are, any number of owners can get the port one after another by waiting in open, timed or
      not, for the close of the one before, each with a port of its own. */
  lemma {:induction false} OwnersHandOver(who: seq<string>, timeout: nat) returns (s: State, es: seq<Event>)
    requires who != []
    ensures Init(s) && Run(s, es) == Some(Held(|who| - 1, who[|who| - 1]))
  {
    var n := |who| - 1;
    if n == 0 {
      s, es := State([], [], [Idle, Idle]), [AddIdentifier, OpenEnter(0, 0, who[0], 0, true)];
      FirstOwner(who[0]);
    } else {
      s, es := OwnersHandOver(who[..n], timeout);
      HandsOver(n - 1, who[n - 1], who[n], timeout);
      RunAppend(s, es, HandOverCalls(n - 1, who[n], timeout));
      es := es + HandOverCalls(n - 1, who[n], timeout);
    }
  }

  /** The owner's listener has closed the port on the request, before the requesting thread waits. */
  function ClosedOnRequest(n: nat, pc: Pc): (r: State)
    ensures |r.ids| == 1 && r.ids[0].available
  {
    State([Identifier(true, None, None, Handed(n) + [OwnershipRequested] + [PortUnowned])],
          seq(n, _ => Port(false, false, 1, 0)) + [Port(false, false, 1, 0)], [Idle, pc])
  }

  lemma ListenerGivesUp(n: nat, was: string, who: string, timeout: nat)
    ensures Run(Held(n, was), [OpenEnter(1, 0, who, timeout, true), TakeSync(1), ListenerCloses(1), StartWait(1)])
         == Some(ClosedOnRequest(n, Waiting(0, who, timeout, false)))
  {
    var s, es := Held(n, was), [OpenEnter(1, 0, who, timeout, true), TakeSync(1), ListenerCloses(1), StartWait(1)];
    var s1 := s.(threads := [Idle, WantsSync(0, who, timeout)]);
    var s2 := State([s.ids[0].(fired := Handed(n) + [OwnershipRequested])], s.ports, [Idle, Asking(0, who, timeout)]);
    var s3 := ClosedOnRequest(n, Asking(0, who, timeout));
    var s4 := ClosedOnRequest(n, Waiting(0, who, timeout, false));
    Steps(s, es[0], s1);
    Steps(s1, es[1], s2);
    Steps(s2, es[2], s3);
    Steps(s3, es[3], s4);
    assert Run(s3, es[3..]) == Run(s4, []);
    assert Run(s2, es[2..]) == Run(s3, es[3..]);
    assert Run(s1, es[1..]) == Run(s2, es[2..]);
  }

  /** An owner whose listener closes the port when it is asked to hands it over to a timed wait, which however
      runs out its time: the notification came before it. */
  lemma ListenerHandsOver(n: nat, was: string, who: string, timeout: nat)
    requires timeout > 0
    ensures Run(Held(n, was), [OpenEnter(1, 0, who, timeout, true), TakeSync(1), ListenerCloses(1), StartWait(1)]
                              + [WakeUp(1, false, true)]) == Some(Held(n + 1, who))
  {
    var s := ClosedOnRequest(n, Waiting(0, who, timeout, false));
    ListenerGivesUp(n, was, who, timeout);
    Steps(s, WakeUp(1, false, true), Held(n + 1, who));
    assert Run(s, [WakeUp(1, false, true)]) == Run(Held(n + 1, who), []);
    InTwoParts(Held(n, was), [OpenEnter(1, 0, who, timeout, true), TakeSync(1), ListenerCloses(1), StartWait(1)],
               s, [WakeUp(1, false, true)]);
  }

  /** An untimed wait misses it: it is reached unheard, so that UntimedWaitNeverEnds, with the identifier available. */
  lemma UntimedWaitMissesRelease(was: string, who: string) returns (s: State, es: seq<Event>)
    ensures var waits := Waiting(0, who, 0, false);
      Init(s) && Run(s, es) == Some(ClosedOnRequest(0, waits)) && Inv(ClosedOnRequest(0, waits))
      && Unheard(ClosedOnRequest(0, waits), 1)
  {
    s, es := OwnersHandOver([was], 0);
    var calls := [OpenEnter(1, 0, who, 0, true), TakeSync(1), ListenerCloses(1), StartWait(1)];
    ListenerGivesUp(0, was, who, 0);
    InTwoParts(s, es, Held(0, was), calls);
    es := es + calls;
    InvRun(s, es);
  }

  /** The deadlock is reached when the owner itself, say, opens the port once more. */
  lemma DeadlockReached(who: string) returns (s: State, es: seq<Event>)
    ensures Init(s) && Run(s, es).Some? && Inv(Run(s, es).value) && Deadlocked(Run(s, es).value, 1)
  {
    s, es := OwnerAndWaiter(who);
    var a := Run(s, es).value;
    var again := OpenEnter(0, 0, who, 0, true);
    var b := At(a, 0, WantsSync(0, who, 0));
    Steps(a, again, b);
    assert Run(a, [again]) == Run(b, []);
    RunAppend(s, es, [again]);
    es := es + [again];
    assert b.threads[0].WantsSync? && b.threads[0].id == b.threads[1].id;
    InvRun(s, es);
  }
}
