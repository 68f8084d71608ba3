/** Port ownership across threads: CommPortIdentifier.open, the wait in it, and
    the close chain RXTXPort.close, CommPort.close, internalClosePort.

    A step is what a thread does between two points where it may block: entering
    an identifier's monitor, taking the class-wide Sync, waking from the wait.
    The wait in open releases the identifier's monitor but not Sync. */
module PortOwnership {
  import opened Wrappers

  /** The calls of fireOwnershipEvent. */
  datatype Fired = PortOwned | PortUnowned | OwnershipRequested

  datatype Identifier = Identifier(available: bool, owner: Option<string>, commport: Option<nat>, fired: seq<Fired>)

  /** An RXTXPort: whether its fd is positive and its closeLock; for the record, how often it
      reached super.close and the identifier it was opened for. */
  datatype Port = Port(fdOpen: bool, closeLock: bool, superCloses: nat, home: nat)

  datatype Pc =
    | Idle
    | WantsSync(id: nat, who: string, timeout: int)
    | Asking(id: nat, who: string, timeout: int)
    | Waiting(id: nat, who: string, timeout: int, notified: bool)
    | Closing(port: nat)
    | FoundOnce(port: nat, id: nat)
    | FoundTwice(port: nat, id: nat)
    | Released(port: nat)

  datatype State = State(ids: seq<Identifier>, ports: seq<Port>, threads: seq<Pc>)

  /** `granted`: the driver returns a port, always a new one. `early`: the wait ends before its time, by an
      interrupt or by a spurious wake-up, which Java allows. A wait with a negative timeout throws. */
  datatype Event =
    | AddIdentifier
    | OpenEnter(t: nat, id: nat, who: string, timeout: int, granted: bool)
    | TakeSync(t: nat)
    | ListenerCloses(t: nat)
    | StartWait(t: nat)
    | WakeUp(t: nat, early: bool, granted: bool)
    | CloseEnter(t: nat, port: nat)
    | Lookup(t: nat, found: Option<nat>)
    | Release(t: nat)
    | FinishClose(t: nat)

  const Unowned := Identifier(true, None, None, [])

  predicate HoldsSync(pc: Pc) {
    pc.Asking? || pc.Waiting?
  }

  predicate HoldsMonitor(pc: Pc, id: nat) {
    (pc.WantsSync? || pc.Asking?) && pc.id == id
  }

  predicate Closes(pc: Pc, port: nat) {
    (pc.Closing? || pc.FoundOnce? || pc.FoundTwice? || pc.Released?) && pc.port == port
  }

  predicate SyncFree(s: State) {
    forall t | 0 <= t < |s.threads| :: !HoldsSync(s.threads[t])
  }

  predicate MonitorFree(s: State, id: nat) {
    forall t | 0 <= t < |s.threads| :: !HoldsMonitor(s.threads[t], id)
  }

  function At(s: State, t: nat, pc: Pc): State
    requires t < |s.threads|
  {
    s.(threads := s.threads[t := pc])
  }

  /** open gives the identifier an owner and a port. */
  function Granted(me: Identifier, who: string, port: nat): Identifier {
    Identifier(false, Some(who), Some(port), me.fired + [PortOwned])
  }

  /** internalClosePort takes both away. */
  function Vacated(me: Identifier): Identifier {
    Identifier(true, None, None, me.fired + [PortUnowned])
  }

  /** The end of open, once Available holds. */
  function Opened(s: State, id: nat, who: string, granted: bool): State
    requires id < |s.ids|
  {
    var me := s.ids[id];
    if me.commport.Some? then
      s.(ids := s.ids[id := Granted(me, who, me.commport.value)])
    else if granted then
      s.(ids := s.ids[id := Granted(me, who, |s.ports|)],
         ports := s.ports + [Port(true, false, 0, id)])
    else s
  }

  function Notified(threads: seq<Pc>, id: nat): seq<Pc> {
    seq(|threads|, t requires 0 <= t < |threads| =>
      if threads[t].Waiting? && threads[t].id == id then threads[t].(notified := true) else threads[t])
  }

  /** internalClosePort, with the waiters of the identifier notified. */
  function Closed(s: State, id: nat): State
    requires id < |s.ids|
  {
    s.(ids := s.ids[id := Vacated(s.ids[id])],
       threads := Notified(s.threads, id))
  }

  /** A port that has been through close. */
  function Shut(me: Port): Port {
    me.(fdOpen := false, superCloses := me.superCloses + 1)
  }

  predicate NoneHas(s: State, port: nat) {
    forall i | 0 <= i < |s.ids| :: s.ids[i].commport != Some(port)
  }

  function Next(s: State, e: Event): Option<State> {
    if e.AddIdentifier? then Some(s.(ids := s.ids + [Unowned])) else
    if e.t >= |s.threads| then None else
    var t, pc := e.t, s.threads[e.t];
    match e
    case OpenEnter(_, id, who, timeout, granted) =>
      if !pc.Idle? || id >= |s.ids| || !MonitorFree(s, id) then None
      else if s.ids[id].available then Some(Opened(s, id, who, granted))
      else Some(At(s, t, WantsSync(id, who, timeout)))
    case TakeSync(_) =>
      if !pc.WantsSync? || pc.id >= |s.ids| || !SyncFree(s) then None
      else Some(At(s.(ids := s.ids[pc.id := s.ids[pc.id].(fired := s.ids[pc.id].fired + [OwnershipRequested])]),
                   t, Asking(pc.id, pc.who, pc.timeout)))
    case ListenerCloses(_) =>
      if !pc.Asking? || pc.id >= |s.ids| || s.ids[pc.id].commport.None? then None else
      var p := s.ids[pc.id].commport.value;
      if p >= |s.ports| || !s.ports[p].fdOpen || s.ports[p].closeLock then None
      else Some(Closed(s, pc.id).(ports := s.ports[p := Shut(s.ports[p])]))
    case StartWait(_) =>
      if !pc.Asking? then None
      else Some(At(s, t, if pc.timeout < 0 then Idle else Waiting(pc.id, pc.who, pc.timeout, false)))
    case WakeUp(_, early, granted) =>
      if !pc.Waiting? || pc.id >= |s.ids| || !MonitorFree(s, pc.id) then None
      else if !pc.notified && pc.timeout == 0 && !early then None
      else if !s.ids[pc.id].available then Some(At(s, t, Idle))
      else Some(At(Opened(s, pc.id, pc.who, granted), t, Idle))
    case CloseEnter(_, p) =>
      if !pc.Idle? || p >= |s.ports| || (exists u | 0 <= u < |s.threads| :: Closes(s.threads[u], p)) then None
      else if s.ports[p].closeLock then Some(s)
      else
        var locked := s.(ports := s.ports[p := s.ports[p].(closeLock := true)]);
        if s.ports[p].fdOpen then Some(At(locked, t, Closing(p))) else Some(locked)
    case Lookup(_, found) =>
      if !(pc.Closing? || pc.FoundOnce?) || pc.port >= |s.ports| || !SyncFree(s) then None
      else if found.None? && !NoneHas(s, pc.port) then None
      else if found.Some? && !(found.value < |s.ids| && s.ids[found.value].commport == Some(pc.port)) then None
      else
        var c := s.ports[pc.port];
        var counted := if pc.Closing? then s.(ports := s.ports[pc.port := c.(superCloses := c.superCloses + 1)]) else s;
        Some(At(counted, t, if found.None? then Released(pc.port)
                            else if pc.Closing? then FoundOnce(pc.port, found.value)
                            else FoundTwice(pc.port, found.value)))
    case Release(_) =>
      if !pc.FoundTwice? || pc.id >= |s.ids| || !MonitorFree(s, pc.id) then None
      else Some(At(Closed(s, pc.id), t, Released(pc.port)))
    case FinishClose(_) =>
      if !pc.Released? || pc.port >= |s.ports| then None
      else Some(At(s.(ports := s.ports[pc.port := s.ports[pc.port].(fdOpen := false, closeLock := false)]), t, Idle))
  }

  function Run(s: State, es: seq<Event>): Option<State>
    decreases |es|
  {
    if es == [] then Some(s) else
    var r := Next(s, es[0]);
    if r.None? then None else Run(r.value, es[1..])
  }

  /** Any number of threads, nothing registered. */
  ghost predicate Init(s: State) {
    s.ids == [] && s.ports == [] && forall t | 0 <= t < |s.threads| :: s.threads[t].Idle?
  }

  /** PORT_OWNED and PORT_UNOWNED alternate, a request comes only while owned. */
  predicate Alternates(fired: seq<Fired>, owned: bool)
    decreases |fired|
  {
    if fired == [] then !owned else
    var before := fired[..|fired| - 1];
    match fired[|fired| - 1]
    case PortOwned => owned && Alternates(before, false)
    case PortUnowned => !owned && Alternates(before, true)
    case OwnershipRequested => owned && Alternates(before, true)
  }

  ghost predicate IdentifierOk(me: Identifier) {
    && (me.available <==> me.commport.None?)
    && (me.available <==> me.owner.None?)
    && Alternates(me.fired, !me.available)
  }

  /** What holds at every point of every run. */
  ghost predicate Consistent(s: State) {
    && (forall i | 0 <= i < |s.ids| :: IdentifierOk(s.ids[i]))
    && (forall i, j | 0 <= i < j < |s.ids| && s.ids[i].commport.Some? :: s.ids[i].commport != s.ids[j].commport)
    && (forall p | 0 <= p < |s.ports| :: s.ports[p].superCloses <= 1)
    && (forall t | 0 <= t < |s.threads| && s.threads[t].Waiting? :: s.threads[t].timeout >= 0)
  }

  ghost predicate Owned(s: State, p: nat) {
    p < |s.ports| && s.ports[p].home < |s.ids| && s.ids[s.ports[p].home].commport == Some(p)
  }

  /** A commport is an existing port, opened for the identifier that has it. */
  ghost predicate Homed(s: State, i: nat)
    requires i < |s.ids|
  {
    s.ids[i].commport.Some? ==>
      s.ids[i].commport.value < |s.ports| && s.ports[s.ids[i].commport.value].home == i
  }

  ghost predicate PcOk(s: State, pc: Pc) {
    match pc
    case Idle => true
    case WantsSync(id, _, _) => id < |s.ids| && !s.ids[id].available
    case Asking(id, _, _) => id < |s.ids|
    case Waiting(id, _, timeout, _) => id < |s.ids| && timeout >= 0
    case Closing(p) => Owned(s, p) && s.ports[p].fdOpen && s.ports[p].closeLock && s.ports[p].superCloses == 0
    case FoundOnce(p, id) =>
      Owned(s, p) && s.ports[p].fdOpen && s.ports[p].closeLock && s.ports[p].superCloses == 1 && s.ports[p].home == id
    case FoundTwice(p, id) =>
      Owned(s, p) && s.ports[p].fdOpen && s.ports[p].closeLock && s.ports[p].superCloses == 1 && s.ports[p].home == id
    case Released(p) =>
      !Owned(s, p) && p < |s.ports| && s.ports[p].fdOpen && s.ports[p].closeLock && s.ports[p].superCloses == 1
  }

  ghost predicate Unclosed(s: State, p: nat) {
    forall t | 0 <= t < |s.threads| :: !Closes(s.threads[t], p)
  }

  /** A port nobody is closing is open, uncounted and its identifier's, or closed, counted and no one's. */
  ghost predicate PortOk(s: State, p: nat)
    requires p < |s.ports|
  {
    var me := s.ports[p];
    && me.superCloses <= 1
    && (Unclosed(s, p) ==>
          if me.fdOpen then !me.closeLock && me.superCloses == 0 && Owned(s, p)
          else me.superCloses == 1 && !Owned(s, p))
  }

  ghost predicate Exclusive(threads: seq<Pc>) {
    && (forall t, u, p | 0 <= t < |threads| && 0 <= u < |threads|
                         && Closes(threads[t], p) && Closes(threads[u], p) :: t == u)
    && (forall t, u | 0 <= t < |threads| && 0 <= u < |threads|
                      && HoldsSync(threads[t]) && HoldsSync(threads[u]) :: t == u)
    && (forall t, u, i | 0 <= t < |threads| && 0 <= u < |threads|
                         && HoldsMonitor(threads[t], i) && HoldsMonitor(threads[u], i) :: t == u)
  }

  ghost predicate Inv(s: State) {
    && (forall i | 0 <= i < |s.ids| :: IdentifierOk(s.ids[i]) && Homed(s, i))
    && (forall t | 0 <= t < |s.threads| :: PcOk(s, s.threads[t]))
    && (forall p | 0 <= p < |s.ports| :: PortOk(s, p))
    && Exclusive(s.threads)
  }

  lemma InvConsistent(s: State)
    requires Inv(s)
    ensures Consistent(s)
  {
    forall i, j | 0 <= i < j < |s.ids| && s.ids[i].commport.Some? ensures s.ids[i].commport != s.ids[j].commport {
      assert Homed(s, i) && Homed(s, j);
    }
    forall p | 0 <= p < |s.ports| ensures s.ports[p].superCloses <= 1 {
      assert PortOk(s, p);
    }
    forall t | 0 <= t < |s.threads| && s.threads[t].Waiting? ensures s.threads[t].timeout >= 0 {
      assert PcOk(s, s.threads[t]);
    }
  }

  ghost predicate SameClosing(from: Pc, to: Pc) {
    forall p :: Closes(from, p) <==> Closes(to, p)
  }

  /** A thread moves on: it closes what it closed before, and any lock it now holds was its own or free. */
  lemma InvMoved(s: State, t: nat, pc: Pc)
    requires Inv(s) && t < |s.threads| && PcOk(s, pc)
    requires SameClosing(s.threads[t], pc)
    requires HoldsSync(pc) ==> HoldsSync(s.threads[t]) || SyncFree(s)
    requires forall i | HoldsMonitor(pc, i) :: HoldsMonitor(s.threads[t], i) || MonitorFree(s, i)
    ensures Inv(At(s, t, pc))
  {
    var r := At(s, t, pc);
    forall p | 0 <= p < |r.ports| ensures PortOk(r, p) {
      assert PortOk(s, p);
      if Unclosed(r, p) {
        forall u | 0 <= u < |s.threads| ensures !Closes(s.threads[u], p) {
          assert !Closes(r.threads[u], p);
        }
      }
    }
    forall u | 0 <= u < |r.threads| ensures PcOk(r, r.threads[u]) {
      assert u != t ==> PcOk(s, s.threads[u]);
    }
    forall i | 0 <= i < |r.ids| ensures IdentifierOk(r.ids[i]) && Homed(r, i) {
      assert Homed(s, i);
    }
  }

  lemma AlternatesOn(fired: seq<Fired>, f: Fired, owned: bool)
    ensures Alternates(fired + [f], owned)
       <==> match f case PortOwned => owned && Alternates(fired, false)
                    case PortUnowned => !owned && Alternates(fired, true)
                    case OwnershipRequested => owned && Alternates(fired, true)
  {
    assert (fired + [f])[..|fired|] == fired;
  }

  lemma InvRequested(s: State, id: nat)
    requires Inv(s) && id < |s.ids| && !s.ids[id].available
    ensures Inv(s.(ids := s.ids[id := s.ids[id].(fired := s.ids[id].fired + [OwnershipRequested])]))
  {
    var r := s.(ids := s.ids[id := s.ids[id].(fired := s.ids[id].fired + [OwnershipRequested])]);
    AlternatesOn(s.ids[id].fired, OwnershipRequested, true);
    forall i | 0 <= i < |r.ids| ensures IdentifierOk(r.ids[i]) && Homed(r, i) {
      assert IdentifierOk(s.ids[i]) && Homed(s, i);
    }
    forall p | 0 <= p < |r.ports| ensures PortOk(r, p) {
      assert PortOk(s, p) && (Owned(r, p) <==> Owned(s, p));
      assert Unclosed(r, p) <==> Unclosed(s, p);
    }
    forall u | 0 <= u < |r.threads| ensures PcOk(r, r.threads[u]) {
      assert PcOk(s, s.threads[u]);
    }
  }

  lemma InvOpened(s: State, id: nat, who: string, granted: bool)
    requires Inv(s) && id < |s.ids| && s.ids[id].available
    ensures Inv(Opened(s, id, who, granted))
  {
    var r := Opened(s, id, who, granted);
    assert IdentifierOk(s.ids[id]);
    if granted {
      AlternatesOn(s.ids[id].fired, PortOwned, true);
      forall i | 0 <= i < |r.ids| ensures IdentifierOk(r.ids[i]) && Homed(r, i) {
        assert IdentifierOk(s.ids[i]) && Homed(s, i);
      }
      forall u | 0 <= u < |r.threads| ensures PcOk(r, r.threads[u]) {
        assert PcOk(s, s.threads[u]);
      }
      forall p | 0 <= p < |r.ports| ensures PortOk(r, p) {
        if p < |s.ports| {
          assert PortOk(s, p) && (Owned(r, p) <==> Owned(s, p));
          assert Unclosed(r, p) <==> Unclosed(s, p);
        }
      }
    }
  }

  lemma NotifiedKeeps(threads: seq<Pc>, id: nat)
    requires Exclusive(threads)
    ensures Exclusive(Notified(threads, id))
  {
    var to := Notified(threads, id);
    forall t | 0 <= t < |threads|
      ensures SameClosing(threads[t], to[t]) && (HoldsSync(to[t]) <==> HoldsSync(threads[t]))
      ensures forall i :: HoldsMonitor(to[t], i) <==> HoldsMonitor(threads[t], i)
    {
    }
  }

  /** internalClosePort by the thread that closes port `p`, the identifier's own. */
  lemma InvReleased(s: State, t: nat, p: nat, id: nat)
    requires Inv(s) && t < |s.threads| && s.threads[t] == FoundTwice(p, id) && MonitorFree(s, id) && id < |s.ids|
    ensures Inv(At(Closed(s, id), t, Released(p)))
  {
    var r := At(Closed(s, id), t, Released(p));
    var mid := Notified(s.threads, id);
    assert PcOk(s, s.threads[t]) && IdentifierOk(s.ids[id]);
    AlternatesOn(s.ids[id].fired, PortUnowned, false);
    NotifiedKeeps(s.threads, id);
    forall u | 0 <= u < |r.threads|
      ensures PcOk(r, r.threads[u]) && (u != t ==> r.threads[u] == mid[u]) && SameClosing(s.threads[u], r.threads[u])
    {
      assert PcOk(s, s.threads[u]);
      assert Closes(s.threads[t], p);
    }
    forall i | 0 <= i < |r.ids| ensures IdentifierOk(r.ids[i]) && Homed(r, i) {
      assert IdentifierOk(s.ids[i]) && Homed(s, i);
    }
    forall q | 0 <= q < |r.ports| ensures PortOk(r, q) {
      assert PortOk(s, q);
      if Unclosed(r, q) {
        assert q != p by { assert Closes(r.threads[t], p); }
        forall u | 0 <= u < |s.threads| ensures !Closes(s.threads[u], q) {
          assert !Closes(r.threads[u], q);
        }
        assert Owned(r, q) <==> Owned(s, q);
      }
    }
  }

  /** An ownership listener closes the port while open asks for it. */
  lemma InvListenerCloses(s: State, t: nat, id: nat, p: nat)
    requires Inv(s) && t < |s.threads| && s.threads[t].Asking? && s.threads[t].id == id && id < |s.ids|
    requires s.ids[id].commport == Some(p) && p < |s.ports| && s.ports[p].fdOpen && !s.ports[p].closeLock
    ensures Inv(Closed(s, id).(ports := s.ports[p := Shut(s.ports[p])]))
  {
    var r := Closed(s, id).(ports := s.ports[p := Shut(s.ports[p])]);
    assert IdentifierOk(s.ids[id]) && Homed(s, id) && PortOk(s, p);
    AlternatesOn(s.ids[id].fired, PortUnowned, false);
    NotifiedKeeps(s.threads, id);
    forall u | 0 <= u < |s.threads| ensures !Closes(s.threads[u], p) && SameClosing(s.threads[u], r.threads[u]) {
      assert PcOk(s, s.threads[u]);
    }
    assert Unclosed(s, p);
    forall u | 0 <= u < |r.threads| ensures PcOk(r, r.threads[u]) {
      assert PcOk(s, s.threads[u]);
      assert HoldsMonitor(s.threads[t], id);
      assert HoldsMonitor(s.threads[u], id) ==> u == t;
    }
    forall i | 0 <= i < |r.ids| ensures IdentifierOk(r.ids[i]) && Homed(r, i) {
      assert IdentifierOk(s.ids[i]) && Homed(s, i);
    }
    forall q | 0 <= q < |r.ports| ensures PortOk(r, q) {
      assert PortOk(s, q);
      if Unclosed(r, q) {
        forall u | 0 <= u < |s.threads| ensures !Closes(s.threads[u], q) {
          assert !Closes(r.threads[u], q);
        }
        assert q != p ==> (Owned(r, q) <==> Owned(s, q));
      }
    }
  }

  /** A change of one port's flags and the step of the thread that makes it. */
  lemma InvPortStep(s: State, t: nat, p: nat, flags: Port, pc: Pc)
    requires Inv(s) && t < |s.threads| && p < |s.ports| && flags.home == s.ports[p].home && flags.superCloses <= 1
    requires forall u | 0 <= u < |s.threads| && u != t :: !Closes(s.threads[u], p)
    requires forall q :: (Closes(pc, q) || Closes(s.threads[t], q)) ==> q == p
    requires !HoldsSync(pc) && (forall i :: !HoldsMonitor(pc, i))
    requires PcOk(s.(ports := s.ports[p := flags]), pc)
    requires !Closes(pc, p) ==> if flags.fdOpen then !flags.closeLock && flags.superCloses == 0 && Owned(s, p)
                                else flags.superCloses == 1 && !Owned(s, p)
    ensures Inv(At(s.(ports := s.ports[p := flags]), t, pc))
  {
    var r := At(s.(ports := s.ports[p := flags]), t, pc);
    forall u | 0 <= u < |r.threads| ensures PcOk(r, r.threads[u]) {
      assert u != t ==> PcOk(s, s.threads[u]) && !Closes(s.threads[u], p);
    }
    forall i | 0 <= i < |r.ids| ensures IdentifierOk(r.ids[i]) && Homed(r, i) {
      assert Homed(s, i);
    }
    forall q | 0 <= q < |r.ports| ensures PortOk(r, q) {
      assert PortOk(s, q) && (Owned(r, q) <==> Owned(s, q));
      if Unclosed(r, q) {
        assert !Closes(r.threads[t], q);
        forall u | 0 <= u < |s.threads| && q != p ensures !Closes(s.threads[u], q) {
          assert !Closes(r.threads[u], q);
        }
      }
    }
  }

  lemma InvAddIdentifier(s: State)
    requires Inv(s)
    ensures Inv(s.(ids := s.ids + [Unowned]))
  {
    var r := s.(ids := s.ids + [Unowned]);
    forall i | 0 <= i < |r.ids| ensures IdentifierOk(r.ids[i]) && Homed(r, i) {
      assert i < |s.ids| ==> IdentifierOk(s.ids[i]) && Homed(s, i);
    }
    forall u | 0 <= u < |r.threads| ensures PcOk(r, r.threads[u]) {
      assert PcOk(s, s.threads[u]);
    }
    forall p | 0 <= p < |r.ports| ensures PortOk(r, p) {
      assert PortOk(s, p) && (Owned(r, p) <==> Owned(s, p));
      assert Unclosed(r, p) <==> Unclosed(s, p);
    }
  }

  lemma InvOpenSide(s: State, e: Event)
    requires Inv(s) && Next(s, e).Some?
    requires e.OpenEnter? || e.TakeSync? || e.StartWait? || e.WakeUp?
    ensures Inv(Next(s, e).value)
  {
    var t, pc := e.t, s.threads[e.t];
    assert PcOk(s, pc);
    match e
    case OpenEnter(_, id, who, timeout, granted) =>
      if s.ids[id].available {
        InvOpened(s, id, who, granted);
      } else {
        InvMoved(s, t, WantsSync(id, who, timeout));
      }
    case TakeSync(_) =>
      InvRequested(s, pc.id);
      InvMoved(s.(ids := s.ids[pc.id := s.ids[pc.id].(fired := s.ids[pc.id].fired + [OwnershipRequested])]),
               t, Asking(pc.id, pc.who, pc.timeout));
    case StartWait(_) =>
      InvMoved(s, t, if pc.timeout < 0 then Idle else Waiting(pc.id, pc.who, pc.timeout, false));
    case WakeUp(_, early, granted) =>
      if s.ids[pc.id].available {
        InvOpened(s, pc.id, pc.who, granted);
        InvMoved(Opened(s, pc.id, pc.who, granted), t, Idle);
      } else {
        InvMoved(s, t, Idle);
      }
  }

  lemma InvCloseEnter(s: State, e: Event)
    requires Inv(s) && e.CloseEnter? && Next(s, e).Some?
    ensures Inv(Next(s, e).value)
  {
    var p := e.port;
    if !s.ports[p].closeLock {
      assert PortOk(s, p) && Unclosed(s, p);
      var pc := if s.ports[p].fdOpen then Closing(p) else Idle;
      InvPortStep(s, e.t, p, s.ports[p].(closeLock := true), pc);
      assert !s.ports[p].fdOpen ==> s.threads[e.t := Idle] == s.threads;
    }
  }

  lemma InvLookup(s: State, e: Event)
    requires Inv(s) && e.Lookup? && Next(s, e).Some?
    ensures Inv(Next(s, e).value)
    ensures s.threads[e.t].port < |s.ports| && e.found == Some(s.ports[s.threads[e.t].port].home)
  {
    var t, pc := e.t, s.threads[e.t];
    var p := pc.port;
    assert PcOk(s, pc) && Closes(pc, p);
    var id := s.ports[p].home;
    assert s.ids[id].commport == Some(p);
    if e.found.Some? {
      assert Homed(s, e.found.value);
    }
    assert e.found == Some(id);
    if pc.Closing? {
      InvPortStep(s, t, p, s.ports[p].(superCloses := 1), FoundOnce(p, id));
    } else {
      InvMoved(s, t, FoundTwice(p, id));
    }
  }

  lemma InvNext(s: State, e: Event)
    requires Inv(s) && Next(s, e).Some?
    ensures Inv(Next(s, e).value)
  {
    match e
    case AddIdentifier => InvAddIdentifier(s);
    case OpenEnter(_, _, _, _, _) => InvOpenSide(s, e);
    case TakeSync(_) => InvOpenSide(s, e);
    case StartWait(_) => InvOpenSide(s, e);
    case WakeUp(_, _, _) => InvOpenSide(s, e);
    case ListenerCloses(t) =>
      InvListenerCloses(s, t, s.threads[t].id, s.ids[s.threads[t].id].commport.value);
    case CloseEnter(_, _) => InvCloseEnter(s, e);
    case Lookup(_, _) => InvLookup(s, e);
    case Release(t) =>
      InvReleased(s, t, s.threads[t].port, s.threads[t].id);
    case FinishClose(t) =>
      var p := s.threads[t].port;
      assert PcOk(s, s.threads[t]) && Closes(s.threads[t], p);
      InvPortStep(s, t, p, s.ports[p].(fdOpen := false, closeLock := false), Idle);
  }

  lemma {:induction false} InvRun(s: State, es: seq<Event>)
    requires Inv(s) && Run(s, es).Some?
    ensures Inv(Run(s, es).value)
    decreases |es|
  {
    if es != [] {
      InvNext(s, es[0]);
      InvRun(Next(s, es[0]).value, es[1..]);
    }
  }

  // ---------- The results ----------

  /** In every run: an identifier is available exactly when it has no port and no owner, ports are
      never shared, no port reaches super.close twice, the ownership events alternate, and no thread waits
      with a negative timeout. */
  lemma OwnershipConsistent(s: State, es: seq<Event>)
    requires Init(s) && Run(s, es).Some?
    ensures Consistent(Run(s, es).value)
  {
    InvRun(s, es);
    InvConsistent(Run(s, es).value);
  }

  /** The identifier a close releases still has the very port being closed, however long ago it was
      looked up; the release changes no other identifier. */
  lemma CloseReleasesItsOwnPort(s: State, es: seq<Event>, a: State, t: nat)
    requires Init(s) && Run(s, es) == Some(a) && Next(a, Release(t)).Some?
    ensures var id, b := a.threads[t].id, Next(a, Release(t)).value;
      && a.ids[id].commport == Some(a.threads[t].port) && !a.ids[id].available
      && b.ids[id].available && b.ids[id].commport == None && b.ids[id].owner == None
      && |b.ids| == |a.ids| && forall i | 0 <= i < |a.ids| && i != id :: b.ids[i] == a.ids[i]
  {
    InvRun(s, es);
    assert PcOk(a, a.threads[t]) && IdentifierOk(a.ids[a.threads[t].id]);
  }

  // ---------- What a call of open comes to ----------

  /** The call leaves everything as it was but for the identifier, which `who` now owns with a new open port. */
  ghost predicate Grants(s: State, r: State, id: nat, who: string) {
    && id < |s.ids| == |r.ids| && r.threads == s.threads
    && (forall i | 0 <= i < |s.ids| && i != id :: r.ids[i] == s.ids[i])
    && !r.ids[id].available && r.ids[id].owner == Some(who)
    && r.ids[id].fired == s.ids[id].fired + [PortOwned]
    && |r.ports| == |s.ports| + 1 && (forall p | 0 <= p < |s.ports| :: r.ports[p] == s.ports[p])
    && r.ids[id].commport == Some(|s.ports|)
    && var port := r.ports[|s.ports|];
    port.fdOpen && !port.closeLock && port.superCloses == 0 && port.home == id
  }

  /** A call of open on an available identifier gets the port exactly when the driver returns one; on one that
      is owned it goes on to ask for it. */
  lemma OpenGrantsExactly(s: State, t: nat, id: nat, who: string, timeout: int, granted: bool)
    requires Inv(s) && Next(s, OpenEnter(t, id, who, timeout, granted)).Some?
    ensures var r := Next(s, OpenEnter(t, id, who, timeout, granted)).value;
      if !s.ids[id].available then r == At(s, t, WantsSync(id, who, timeout))
      else if granted then Grants(s, r, id, who) else r == s
  {
    assert IdentifierOk(s.ids[id]);
  }

  /** A wait that has ended, in time or early, gets the port exactly when the identifier is available by then
      and the driver returns one; otherwise the call ends and changes nothing. */
  lemma WakeUpGrantsExactly(s: State, t: nat, early: bool, granted: bool)
    requires Inv(s) && Next(s, WakeUp(t, early, granted)).Some?
    ensures var pc, r := s.threads[t], Next(s, WakeUp(t, early, granted)).value;
      if s.ids[pc.id].available && granted then Grants(At(s, t, Idle), r, pc.id, pc.who) else r == At(s, t, Idle)
  {
    assert IdentifierOk(s.ids[s.threads[t].id]);
  }

  /** A thread that has asked for the port waits, or with a negative timeout is thrown out of the call, unowning. */
  lemma AskedThenWaitsExactly(s: State, t: nat)
    requires t < |s.threads| && s.threads[t].Asking?
    ensures var r := Next(s, StartWait(t));
      && r.Some? && r.value.ids == s.ids && r.value.ports == s.ports && |r.value.threads| == |s.threads|
      && (r.value.threads[t].Waiting? <==> s.threads[t].timeout >= 0)
      && (r.value.threads[t].Idle? <==> s.threads[t].timeout < 0)
  {
  }

  // ---------- The wait holds Sync ----------

  /** Some close is past both its lookups of the identifier and can enter its monitor. */
  ghost predicate ReleaseUnderWay(s: State, id: nat) {
    MonitorFree(s, id) && exists u :: 0 <= u < |s.threads| && s.threads[u].FoundTwice? && s.threads[u].id == id
  }

  ghost predicate Unheard(s: State, t: nat) {
    t < |s.threads| && s.threads[t].Waiting? && !s.threads[t].notified && !ReleaseUnderWay(s, s.threads[t].id)
  }

  predicate Wakes(e: Event, t: nat) {
    e.WakeUp? && e.t == t
  }

  ghost predicate NoCloseAdvanced(s: State, r: State) {
    |s.ports| <= |r.ports| && forall p | 0 <= p < |s.ports| :: r.ports[p].superCloses == s.ports[p].superCloses
  }

  /** While a thread waits no lookup and no request can be made, so no new release comes under way. */
  lemma UnheardNext(s: State, e: Event, t: nat)
    requires Inv(s) && Unheard(s, t) && Next(s, e).Some? && !Wakes(e, t)
    ensures Unheard(Next(s, e).value, t) && Next(s, e).value.threads[t] == s.threads[t]
    ensures NoCloseAdvanced(s, Next(s, e).value)
  {
    var r := Next(s, e).value;
    var id := s.threads[t].id;
    assert HoldsSync(s.threads[t]) && !SyncFree(s);
    assert PcOk(s, s.threads[t]);
    if !e.AddIdentifier? {
      assert e.t != t;
      assert !HoldsSync(s.threads[e.t]);
    }
    assert !ReleaseUnderWay(r, id) by {
      if !MonitorFree(s, id) {
        var m :| 0 <= m < |s.threads| && HoldsMonitor(s.threads[m], id);
        assert HoldsMonitor(r.threads[m], id);
      } else {
        forall u | 0 <= u < |r.threads| && r.threads[u].FoundTwice? ensures r.threads[u].id != id {
          assert s.threads[u] == r.threads[u];
        }
      }
    }
  }

  lemma {:induction false} UnheardRun(s: State, es: seq<Event>, t: nat)
    requires Inv(s) && Unheard(s, t) && Run(s, es).Some?
    requires forall i | 0 <= i < |es| :: !Wakes(es[i], t)
    ensures Unheard(Run(s, es).value, t) && Run(s, es).value.threads[t] == s.threads[t]
    ensures NoCloseAdvanced(s, Run(s, es).value)
    decreases |es|
  {
    if es != [] {
      assert !Wakes(es[0], t);
      UnheardNext(s, es[0], t);
      InvNext(s, es[0]);
      UnheardRun(Next(s, es[0]).value, es[1..], t);
    }
  }

  /** A run in which thread `t` does not wake takes it to `pc`. */
  ghost predicate LeadsTo(s: State, es: seq<Event>, t: nat, pc: Pc) {
    && (forall i | 0 <= i < |es| :: !Wakes(es[i], t))
    && Run(s, es).Some? && t < |Run(s, es).value.threads| && Run(s, es).value.threads[t] == pc
  }

  /** A waiting opener can still be notified exactly when, as it stands, a close of that identifier is
      already past both its lookups: no close can begin one while the opener waits. */
  lemma NotifiedExactly(s: State, t: nat)
    requires Inv(s) && t < |s.threads| && s.threads[t].Waiting? && !s.threads[t].notified
    ensures (exists es :: LeadsTo(s, es, t, s.threads[t].(notified := true)))
       <==> ReleaseUnderWay(s, s.threads[t].id)
  {
    if ReleaseUnderWay(s, s.threads[t].id) {
      NotifiedByRelease(s, t);
    } else {
      forall es | LeadsTo(s, es, t, s.threads[t].(notified := true)) ensures false {
        UnheardRun(s, es, t);
      }
    }
  }

  lemma NotifiedByRelease(s: State, t: nat)
    requires Inv(s) && t < |s.threads| && s.threads[t].Waiting? && ReleaseUnderWay(s, s.threads[t].id)
    ensures exists es :: LeadsTo(s, es, t, s.threads[t].(notified := true))
  {
    var u, r := ReleaseNotifies(s, t);
    assert LeadsTo(s, [Release(u)], t, s.threads[t].(notified := true));
  }

  lemma ReleaseNotifies(s: State, t: nat) returns (u: nat, r: State)
    requires Inv(s) && t < |s.threads| && s.threads[t].Waiting? && ReleaseUnderWay(s, s.threads[t].id)
    ensures Run(s, [Release(u)]) == Some(r) && Inv(r) && |r.threads| == |s.threads|
    ensures r.threads[t] == s.threads[t].(notified := true)
    ensures s.threads[t].id < |r.ids| && r.ids[s.threads[t].id].available && MonitorFree(r, s.threads[t].id)
  {
    var id := s.threads[t].id;
    u :| u < |s.threads| && s.threads[u].FoundTwice? && s.threads[u].id == id;
    assert PcOk(s, s.threads[u]);
    r := Next(s, Release(u)).value;
    assert Run(s, [Release(u)]) == Run(r, []);
    InvNext(s, Release(u));
    forall v | 0 <= v < |r.threads| ensures !HoldsMonitor(r.threads[v], id) {
      assert !HoldsMonitor(s.threads[v], id);
    }
  }

  predicate WakesEarly(e: Event, t: nat) {
    e.WakeUp? && e.t == t && e.early
  }

  /** An untimed wait with no release under way never ends unless it ends early, and until then no
      port's close reaches super.close: the owner cannot give up what the waiter waits for. */
  lemma {:induction false} UntimedWaitNeverEnds(s: State, es: seq<Event>, t: nat)
    requires Inv(s) && Unheard(s, t) && s.threads[t].timeout == 0 && Run(s, es).Some?
    requires forall i | 0 <= i < |es| :: !WakesEarly(es[i], t)
    ensures Unheard(Run(s, es).value, t) && Run(s, es).value.threads[t] == s.threads[t]
    ensures NoCloseAdvanced(s, Run(s, es).value)
    decreases |es|
  {
    if es != [] {
      assert !WakesEarly(es[0], t);
      UnheardNext(s, es[0], t);
      InvNext(s, es[0]);
      UntimedWaitNeverEnds(Next(s, es[0]).value, es[1..], t);
    }
  }

  // ---------- A second opener ----------

  /** Another thread has entered open on the identifier that `t` waits for: it has the monitor the
      waiter needs to go on, and wants Sync, which the waiter holds. */
  ghost predicate Deadlocked(s: State, t: nat) {
    && t < |s.threads| && s.threads[t].Waiting?
    && exists u :: 0 <= u < |s.threads| && s.threads[u].WantsSync? && s.threads[u].id == s.threads[t].id
  }

  lemma DeadlockedNext(s: State, e: Event, t: nat)
    requires Deadlocked(s, t) && Next(s, e).Some?
    ensures Deadlocked(Next(s, e).value, t) && !Wakes(e, t)
  {
    var u :| 0 <= u < |s.threads| && s.threads[u].WantsSync? && s.threads[u].id == s.threads[t].id;
    assert HoldsMonitor(s.threads[u], s.threads[t].id) && HoldsSync(s.threads[t]);
    assert Next(s, e).value.threads[u] == s.threads[u];
  }

  /** Neither of the two moves again, in any run: not by a close, a timeout, an interrupt or a spurious wake-up. */
  lemma {:induction false} DeadlockIsForEver(s: State, es: seq<Event>, t: nat)
    requires Deadlocked(s, t) && Run(s, es).Some?
    ensures Deadlocked(Run(s, es).value, t) && forall i | 0 <= i < |es| :: !Wakes(es[i], t)
    decreases |es|
  {
    if es != [] {
      DeadlockedNext(s, es[0], t);
      DeadlockIsForEver(Next(s, es[0]).value, es[1..], t);
    }
  }

  /** Some run takes the thread out of its wait; `early` allows it to end early. */
  ghost predicate CanWake(s: State, t: nat, early: bool) {
    exists es, granted :: CanWakeBy(s, es, t, early, granted)
  }

  ghost predicate CanWakeBy(s: State, es: seq<Event>, t: nat, early: bool, granted: bool) {
    Run(s, es).Some? && Next(Run(s, es).value, WakeUp(t, early, granted)).Some?
  }

  /** A wait can end at all, if only by an interrupt or a spurious wake-up, exactly when no second thread has
      called open on the identifier meanwhile. */
  lemma WaitEndsExactly(s: State, t: nat)
    requires Inv(s) && t < |s.threads| && s.threads[t].Waiting?
    ensures CanWake(s, t, true) <==> !Deadlocked(s, t)
  {
    var id := s.threads[t].id;
    if Deadlocked(s, t) {
      forall es, granted | CanWakeBy(s, es, t, true, granted) ensures false {
        DeadlockIsForEver(s, es, t);
        DeadlockedNext(Run(s, es).value, WakeUp(t, true, granted), t);
      }
    } else {
      MonitorFreeOfOpeners(s, t);
      assert PcOk(s, s.threads[t]);
      assert Run(s, []) == Some(s);
      assert CanWakeBy(s, [], t, true, false);
    }
  }

  lemma MonitorFreeOfOpeners(s: State, t: nat)
    requires Inv(s) && t < |s.threads| && s.threads[t].Waiting? && !Deadlocked(s, t)
    ensures MonitorFree(s, s.threads[t].id)
  {
    forall u | 0 <= u < |s.threads| ensures !HoldsMonitor(s.threads[u], s.threads[t].id) {
      assert HoldsSync(s.threads[t]);
      assert s.threads[u].Asking? ==> HoldsSync(s.threads[u]);
    }
  }

  /** The notification or the timeout ends the wait, in some run, exactly when no second thread has called
      open and the wait is timed, or notified, or a close is past its lookups. */
  lemma WaitEndsInTimeExactly(s: State, t: nat)
    requires Inv(s) && t < |s.threads| && s.threads[t].Waiting?
    ensures CanWakeInTime(s, t)
       <==> !Deadlocked(s, t)
            && (s.threads[t].timeout != 0 || s.threads[t].notified || ReleaseUnderWay(s, s.threads[t].id))
  {
    if Deadlocked(s, t) {
      forall es, granted | CanWakeInTimeBy(s, es, t, granted) ensures false {
        DeadlockIsForEver(s, es, t);
        DeadlockedNext(Run(s, es).value, WakeUp(t, false, granted), t);
      }
    } else if s.threads[t].timeout != 0 || s.threads[t].notified {
      MonitorFreeOfOpeners(s, t);
      assert PcOk(s, s.threads[t]) && Run(s, []) == Some(s);
      assert CanWakeInTimeBy(s, [], t, false);
    } else if ReleaseUnderWay(s, s.threads[t].id) {
      WakesAfterRelease(s, t);
    } else {
      forall es, granted | CanWakeInTimeBy(s, es, t, granted) ensures false {
        UntimedWaitNeverEnds(s, es, t);
      }
    }
  }

  /** Without ending early before, either. */
  ghost predicate CanWakeInTimeBy(s: State, es: seq<Event>, t: nat, granted: bool) {
    (forall i | 0 <= i < |es| :: !WakesEarly(es[i], t)) && CanWakeBy(s, es, t, false, granted)
  }

  ghost predicate CanWakeInTime(s: State, t: nat) {
    exists es, granted :: CanWakeInTimeBy(s, es, t, granted)
  }

  lemma WakesAfterRelease(s: State, t: nat)
    requires Inv(s) && t < |s.threads| && s.threads[t].Waiting? && ReleaseUnderWay(s, s.threads[t].id)
    ensures CanWakeInTime(s, t)
  {
    var u, r := ReleaseNotifies(s, t);
    assert CanWakeInTimeBy(s, [Release(u)], t, false);
  }

  /** No close of the identifier the thread waits for is past its lookups, and it is not available. */
  ghost predicate ShutOut(s: State, t: nat) {
    && t < |s.threads| && s.threads[t].Waiting? && s.threads[t].id < |s.ids| && !s.ids[s.threads[t].id].available
    && forall u | 0 <= u < |s.threads| && s.threads[u].FoundTwice? :: s.threads[u].id != s.threads[t].id
  }

  lemma ShutOutNext(s: State, e: Event, t: nat)
    requires Inv(s) && ShutOut(s, t) && Next(s, e).Some? && !Wakes(e, t)
    ensures ShutOut(Next(s, e).value, t)
  {
    assert HoldsSync(s.threads[t]) && !SyncFree(s);
    if !e.AddIdentifier? {
      assert e.t != t && !HoldsSync(s.threads[e.t]);
    }
  }

  lemma {:induction false} ShutOutRun(s: State, es: seq<Event>, t: nat)
    requires Inv(s) && ShutOut(s, t) && Run(s, es).Some?
    requires forall i | 0 <= i < |es| :: !Wakes(es[i], t)
    ensures Inv(Run(s, es).value) && ShutOut(Run(s, es).value, t)
    decreases |es|
  {
    if es != [] {
      assert !Wakes(es[0], t);
      ShutOutNext(s, es[0], t);
      InvNext(s, es[0]);
      ShutOutRun(Next(s, es[0]).value, es[1..], t);
    }
  }

  /** The run, in which the thread does not wake, leads to a state where it wakes in time and gets the port. */
  ghost predicate TakesBy(s: State, es: seq<Event>, t: nat) {
    && t < |s.threads| && s.threads[t].Waiting?
    && (forall i | 0 <= i < |es| :: !Wakes(es[i], t))
    && Run(s, es).Some? && t < |Run(s, es).value.threads|
    && var a := Run(s, es).value;
    Next(a, WakeUp(t, false, true)).Some?
    && Grants(At(a, t, Idle), Next(a, WakeUp(t, false, true)).value, s.threads[t].id, s.threads[t].who)
  }

  /** A waiting opener can still get the port, in some run, exactly when no second thread has called open
      meanwhile and a close is past its lookups, or the identifier is available already and the wait is timed
      or notified. */
  lemma WaiterTakesExactly(s: State, t: nat)
    requires Inv(s) && t < |s.threads| && s.threads[t].Waiting?
    ensures (exists es :: TakesBy(s, es, t))
       <==> !Deadlocked(s, t)
            && (ReleaseUnderWay(s, s.threads[t].id)
                || (s.ids[s.threads[t].id].available && (s.threads[t].timeout != 0 || s.threads[t].notified)))
  {
    assert PcOk(s, s.threads[t]);
    var may := s.threads[t].timeout != 0 || s.threads[t].notified;
    if Deadlocked(s, t) {
      forall es | TakesBy(s, es, t) ensures false {
        DeadlockIsForEver(s, es, t);
        DeadlockedNext(Run(s, es).value, WakeUp(t, false, true), t);
      }
    } else if ReleaseUnderWay(s, s.threads[t].id) {
      TakesAfterRelease(s, t);
    } else if s.ids[s.threads[t].id].available && may {
      MonitorFreeOfOpeners(s, t);
      assert Run(s, []) == Some(s);
      WakeUpGrantsExactly(s, t, false, true);
      assert TakesBy(s, [], t);
    } else {
      forall es | TakesBy(s, es, t) ensures false {
        NeverTakes(s, es, t);
      }
    }
  }

  lemma NeverTakes(s: State, es: seq<Event>, t: nat)
    requires Inv(s) && t < |s.threads| && s.threads[t].Waiting? && s.threads[t].id < |s.ids|
    requires !Deadlocked(s, t) && !ReleaseUnderWay(s, s.threads[t].id)
    requires !s.ids[s.threads[t].id].available || (s.threads[t].timeout == 0 && !s.threads[t].notified)
    ensures !TakesBy(s, es, t)
  {
    if TakesBy(s, es, t) {
      var a := Run(s, es).value;
      if !s.ids[s.threads[t].id].available {
        MonitorFreeOfOpeners(s, t);
        ShutOutRun(s, es, t);
        WakeUpGrantsExactly(a, t, false, true);
      } else {
        UnheardRun(s, es, t);
      }
      assert false;
    }
  }

  lemma TakesAfterRelease(s: State, t: nat)
    requires Inv(s) && t < |s.threads| && s.threads[t].Waiting? && ReleaseUnderWay(s, s.threads[t].id)
    ensures exists es :: TakesBy(s, es, t)
  {
    var u, r := ReleaseNotifies(s, t);
    WakeUpGrantsExactly(r, t, false, true);
    assert TakesBy(s, [Release(u)], t);
  }
}
