/** The life of a port's monitor thread: the RXTXPort constructor, addEventListener,
    removeEventListener, the notifyOn methods and close on one side, the monitor
    thread's run, native event loop and sendEvent on the other.

    The calls come one after another from outside the monitor thread, and the two
    sides interleave. Every field the monitor thread reads or writes is a step of
    its own. A step of the calling side touches at most one thing the monitor
    thread may read or write at that point; where no monitor thread lives, or it
    only waits, the rest of a call is one step. */
module MonitorLifecycle {
  import opened Wrappers

  /** A monitor thread: started, in eventLoop before it unlocks MonitorThreadLock, looping, inside
      sendEvent past its tests of fd, listener, monThread, interruption and listener again, with the
      listener read for the call, in serialEvent, leaving, gone. */
  datatype Pc =
    | New | Starting | Looping
    | FdOpen | HasListener | HasThread | Uninterrupted | Listened | Fetched(lsnr: nat) | Calling(lsnr: nat)
    | Leaving | Dead

  datatype Thread = Thread(pc: Pc, closing: bool)

  /** Where the calling side stands; `close` says removeEventListener runs inside close. */
  datatype App =
    | Idle
    | Constructing
    | Adding
    | AwaitingLock(close: bool)
    | Interrupting(close: bool)
    | Signalling(close: bool)
    | AwaitingCloseLock(close: bool)
    | Joining(close: bool)
    | Cleaning(close: bool)
    | Finishing
    | NotifyAwaiting
    | NotifySetting

  /** `lock`, `monCloseLock`, `alive` and `interrupted` are MonitorThreadLock, MonitorThreadCloseLock,
      MonitorThreadAlive and monThreadisInterrupted. `delivered` records the serialEvent calls. */
  datatype State = State(
    fdOpen: bool, closeLock: bool, lock: bool, monCloseLock: bool, alive: bool, interrupted: bool,
    listener: Option<nat>, monThread: Option<nat>, threads: seq<Thread>, app: App, delivered: seq<nat>)

  datatype Event =
    | ReturnReady
    | Add(lsnr: nat)
    | Remove
    | PassLock
    | Interrupt
    | Signal
    | PassCloseLock
    | Join
    | Clean
    | Close
    | Finish
    | Notify
    | TakeLock
    | SetFlag
    | Begin(m: nat)
    | Bail(m: nat)
    | Ready(m: nat)
    | TestFd(m: nat)
    | TestSet(m: nat)
    | TestThread(m: nat)
    | Unsubscribed(m: nat)
    | TestInterrupted(m: nat)
    | TestListener(m: nat)
    | Fetch(m: nat)
    | Deliver(m: nat)
    | Return(m: nat)
    | Leave(m: nat)
    | Die(m: nat)

  /** In the constructor, once the port is open and its monitor thread started. */
  const Constructed :=
    State(true, false, true, true, false, true, None, Some(0), [Thread(New, false)], Constructing, [])

  function With(s: State, m: nat, pc: Pc): State
    requires m < |s.threads|
  {
    s.(threads := s.threads[m := s.threads[m].(pc := pc)])
  }

  function Started(s: State): State {
    s.(lock := true, monThread := Some(|s.threads|), threads := s.threads + [Thread(New, false)], app := Adding)
  }

  /** removeEventListener returns, to its caller or to close. */
  function Removed(s: State, close: bool): State {
    s.(monThread := None, listener := None, app := if close then Finishing else Idle)
  }

  predicate MonitorRuns(s: State) {
    s.monThread.Some? && s.monThread.value < |s.threads| && s.threads[s.monThread.value].pc != Dead
  }

  /** addEventListener, close, the notifyOn calls and the return to the caller. They deliver nothing,
      and only addEventListener sets a listener. */
  function CallNext(s: State, e: Event): (r: Option<State>)
    ensures r.Some? ==> r.value.delivered == s.delivered
    ensures r.Some? ==> e.Add? || r.value.listener == s.listener
  {
    match e
    case ReturnReady =>
      if (s.app.Constructing? || s.app.Adding?) && !s.lock then Some(s.(alive := true, app := Idle)) else None
    case Add(l) =>
      if !s.app.Idle? then None
      else if s.listener.Some? then Some(s)
      else if s.alive then Some(s.(listener := Some(l)))
      else Some(Started(s.(listener := Some(l))))
    case Remove => if s.app.Idle? then Some(s.(app := AwaitingLock(false))) else None
    case Close =>
      if !s.app.Idle? then None
      else if s.closeLock then Some(s)
      else if !s.fdOpen then Some(s.(closeLock := true))
      else Some(s.(closeLock := true, app := if s.interrupted then Finishing else AwaitingLock(true)))
    case Finish => if s.app.Finishing? then Some(s.(fdOpen := false, closeLock := false, app := Idle)) else None
    case Notify => if s.app.Idle? then Some(s.(app := NotifyAwaiting)) else None
    case TakeLock => if s.app.NotifyAwaiting? && !s.lock then Some(s.(lock := true, app := NotifySetting)) else None
    case SetFlag =>
      // With monThread null the flag assignment throws and the lock is never given back.
      if s.app.NotifySetting? then Some(s.(lock := s.monThread.None?, app := Idle)) else None
    case _ => None
  }

  predicate ByRemoval(e: Event) {
    e.PassLock? || e.Interrupt? || e.Signal? || e.PassCloseLock? || e.Join? || e.Clean?
  }

  /** removeEventListener, once it waits for the lock. It delivers nothing and sets no listener. */
  function RemovalNext(s: State, e: Event): (r: Option<State>)
    requires ByRemoval(e)
    ensures r.Some? ==> r.value.delivered == s.delivered
    ensures r.Some? && r.value.listener.Some? ==> r.value.listener == s.listener
  {
    match e
    case PassLock =>
      if !s.app.AwaitingLock? || s.lock then None
      else if s.interrupted then Some(Removed(s, s.app.close))
      else if MonitorRuns(s) then Some(s.(interrupted := true, app := Interrupting(s.app.close)))
      else Some(s.(app := Cleaning(s.app.close)))
    case Interrupt =>
      if s.app.Interrupting? then Some(s.(monCloseLock := true, app := Signalling(s.app.close))) else None
    case Signal =>
      if !s.app.Signalling? || !MonitorRuns(s) then None
      else
        var m := s.monThread.value;
        Some(s.(threads := s.threads[m := s.threads[m].(closing := true)], app := AwaitingCloseLock(s.app.close)))
    case PassCloseLock =>
      if s.app.AwaitingCloseLock? && !s.monCloseLock then Some(s.(app := Joining(s.app.close))) else None
    case Join => if s.app.Joining? && !MonitorRuns(s) then Some(s.(app := Cleaning(s.app.close))) else None
    case Clean => if s.app.Cleaning? then Some(Removed(s, s.app.close).(lock := false, alive := false)) else None
  }

  predicate ByMonitor(e: Event) {
    BySending(e) || e.Begin? || e.Bail? || e.Ready? || e.Leave? || e.Die?
  }

  predicate BySending(e: Event) {
    || e.TestFd? || e.TestSet? || e.TestThread? || e.Unsubscribed? || e.TestInterrupted? || e.TestListener?
    || e.Fetch? || e.Deliver? || e.Return?
  }

  /** Where a step of sendEvent takes the thread that stands at `pc`. It reads the listener for the call, and
      calls what it read, whatever the field holds by then. */
  function SendPc(s: State, e: Event, pc: Pc): Option<Pc>
    requires BySending(e)
  {
    match e
    case TestFd(_) => if pc.Looping? then Some(if s.fdOpen then FdOpen else Looping) else None
    case TestSet(_) => if pc.FdOpen? then Some(if s.listener.Some? then HasListener else Looping) else None
    case TestThread(_) => if pc.HasListener? then Some(if s.monThread.Some? then HasThread else Looping) else None
    case Unsubscribed(_) => if pc.HasThread? then Some(Looping) else None
    case TestInterrupted(_) => if pc.HasThread? then Some(if s.interrupted then Looping else Uninterrupted) else None
    case TestListener(_) => if pc.Uninterrupted? then Some(if s.listener.Some? then Listened else Looping) else None
    case Fetch(_) => if pc.Listened? && s.listener.Some? then Some(Fetched(s.listener.value)) else None
    case Deliver(_) => if pc.Fetched? then Some(Calling(pc.lsnr)) else None
    case Return(_) => if pc.Calling? then Some(Looping) else None
  }

  /** sendEvent. It leaves the listener and the calling side alone. */
  function SendNext(s: State, e: Event): (r: Option<State>)
    requires BySending(e)
    ensures r.Some? ==> r.value.listener == s.listener && r.value.app == s.app
    ensures r.Some? && !e.Deliver? ==> r.value.delivered == s.delivered
  {
    if e.m >= |s.threads| then None else
    var to := SendPc(s, e, s.threads[e.m].pc);
    if to.None? then None
    else if e.Deliver? then Some(With(s, e.m, to.value).(delivered := s.delivered + [to.value.lsnr]))
    else Some(With(s, e.m, to.value))
  }

  /** The monitor thread outside sendEvent: run and the native loop. It delivers nothing. */
  function LoopNext(s: State, e: Event): (r: Option<State>)
    requires ByMonitor(e) && !BySending(e)
    ensures r.Some? ==> r.value.listener == s.listener && r.value.delivered == s.delivered && r.value.app == s.app
  {
    if e.m >= |s.threads| then None else
    var m, me := e.m, s.threads[e.m];
    match e
    case Begin(_) => if me.pc.New? then Some(With(s, m, Starting).(interrupted := false)) else None
    case Bail(_) => if me.pc.Starting? then Some(With(s, m, Dead)) else None
    case Ready(_) => if me.pc.Starting? then Some(With(s, m, Looping).(lock := false)) else None
    case Leave(_) => if me.pc.Looping? && me.closing then Some(With(s, m, Leaving).(monCloseLock := false)) else None
    case Die(_) => if me.pc.Leaving? then Some(With(s, m, Dead)) else None
  }

  function Next(s: State, e: Event): Option<State> {
    if BySending(e) then SendNext(s, e)
    else if ByMonitor(e) then LoopNext(s, e)
    else if ByRemoval(e) then RemovalNext(s, e)
    else CallNext(s, e)
  }

  function Run(s: State, es: seq<Event>): Option<State>
    decreases |es|
  {
    if es == [] then Some(s) else
    var r := Next(s, es[0]);
    if r.None? then None else Run(r.value, es[1..])
  }

  // ---------- The invariant ----------

  predicate InLoop(pc: Pc) {
    || pc.Looping? || pc.FdOpen? || pc.HasListener? || pc.HasThread? || pc.Uninterrupted? || pc.Listened?
    || pc.Fetched? || pc.Calling?
  }

  ghost predicate AllDead(s: State) {
    forall m | 0 <= m < |s.threads| :: s.threads[m].pc.Dead?
  }

  /** Every thread but the current one is gone; the current one is the last started. */
  ghost predicate OnlyCurrent(s: State) {
    && |s.threads| > 0
    && s.monThread == Some(|s.threads| - 1)
    && forall m | 0 <= m < |s.threads| - 1 :: s.threads[m].pc.Dead?
  }

  function Current(s: State): Thread
    requires |s.threads| > 0
  {
    s.threads[|s.threads| - 1]
  }

  /** Between calls, and while a call still waits for the lock. */
  ghost predicate Rested(s: State) {
    if s.alive then !s.interrupted && OnlyCurrent(s) && InLoop(Current(s).pc) && !Current(s).closing
    else s.interrupted && AllDead(s) && s.monThread.None? && s.listener.None?
  }

  ghost predicate BeingStarted(s: State) {
    && !s.alive && OnlyCurrent(s) && !Current(s).closing
    && (Current(s).pc.New? ==> s.lock && s.interrupted)
    && (Current(s).pc.Starting? || Current(s).pc.Dead? ==> s.lock)
    && (InLoop(Current(s).pc) || Current(s).pc.Starting? ==> !s.interrupted)
    && !Current(s).pc.Leaving?
  }

  ghost predicate BeingStopped(s: State) {
    s.alive && s.interrupted && OnlyCurrent(s)
  }

  /** What a thread in sendEvent knows of the listener. */
  predicate Knows(pc: Pc, listener: Option<nat>) {
    && (pc.HasListener? || pc.HasThread? || pc.Uninterrupted? || pc.Listened? ==> listener.Some?)
    && (pc.Fetched? || pc.Calling? ==> listener == Some(pc.lsnr))
  }

  ghost predicate Inv(s: State) {
    && (forall m | 0 <= m < |s.threads| :: Knows(s.threads[m].pc, s.listener))
    && (forall m | 0 <= m < |s.threads| && s.threads[m].pc.Leaving? :: s.threads[m].closing)
    && match s.app
       case Idle => Rested(s)
       case NotifyAwaiting => Rested(s)
       case NotifySetting => Rested(s)
       case AwaitingLock(_) => Rested(s)
       case Constructing => BeingStarted(s)
       case Adding => BeingStarted(s)
       case Interrupting(_) => BeingStopped(s) && InLoop(Current(s).pc) && !Current(s).closing
       case Signalling(_) => BeingStopped(s) && InLoop(Current(s).pc) && !Current(s).closing && s.monCloseLock
       case AwaitingCloseLock(_) =>
         && BeingStopped(s) && Current(s).closing
         && if s.monCloseLock then InLoop(Current(s).pc) else Current(s).pc.Leaving? || Current(s).pc.Dead?
       case Joining(_) => BeingStopped(s) && (Current(s).pc.Leaving? || Current(s).pc.Dead?)
       case Cleaning(_) => BeingStopped(s) && AllDead(s)
       case Finishing => Rested(s) && !s.alive
  }

  lemma InvStopping(s: State, e: Event)
    requires e.Interrupt? || e.Signal? || e.PassCloseLock? || e.Join?
    requires Inv(s) && RemovalNext(s, e).Some?
    ensures Inv(RemovalNext(s, e).value)
  {
  }

  lemma InvRemoving(s: State, e: Event)
    requires e.PassLock? || e.Clean?
    requires Inv(s) && RemovalNext(s, e).Some?
    ensures Inv(RemovalNext(s, e).value)
  {
  }

  lemma InvStarting(s: State, e: Event)
    requires e.ReturnReady? || e.Add?
    requires Inv(s) && CallNext(s, e).Some?
    ensures Inv(CallNext(s, e).value)
  {
  }

  lemma InvCall(s: State, e: Event)
    requires e.Remove? || e.Close? || e.Finish? || e.Notify? || e.TakeLock? || e.SetFlag?
    requires Inv(s) && CallNext(s, e).Some?
    ensures Inv(CallNext(s, e).value)
  {
  }

  lemma InvLoops(s: State, m: nat, pc: Pc, delivered: seq<nat>)
    requires Inv(s) && m < |s.threads| && InLoop(s.threads[m].pc) && InLoop(pc)
    requires Knows(pc, s.listener)
    ensures Inv(With(s, m, pc).(delivered := delivered))
  {
    var r := With(s, m, pc).(delivered := delivered);
    assert m == |s.threads| - 1;
    assert OnlyCurrent(r) && InLoop(Current(r).pc) && Current(r).closing == Current(s).closing;
  }

  /** A step in sendEvent moves the thread within the loop, and can only add a delivery. */
  lemma SendMoves(s: State, e: Event) returns (pc: Pc, delivered: seq<nat>)
    requires BySending(e) && SendNext(s, e).Some? && e.m < |s.threads| && Knows(s.threads[e.m].pc, s.listener)
    ensures InLoop(s.threads[e.m].pc) && InLoop(pc) && Knows(pc, s.listener)
    ensures SendNext(s, e) == Some(With(s, e.m, pc).(delivered := delivered))
  {
    var r := SendNext(s, e).value;
    pc, delivered := r.threads[e.m].pc, r.delivered;
  }

  lemma InvSending(s: State, e: Event)
    requires BySending(e) && Inv(s) && SendNext(s, e).Some?
    ensures Inv(SendNext(s, e).value)
  {
    var pc, delivered := SendMoves(s, e);
    InvLoops(s, e.m, pc, delivered);
  }

  lemma InvBeginning(s: State, e: Event)
    requires e.Begin? || e.Bail?
    requires Inv(s) && LoopNext(s, e).Some?
    ensures Inv(LoopNext(s, e).value)
  {
  }

  lemma InvReady(s: State, e: Event)
    requires e.Ready?
    requires Inv(s) && LoopNext(s, e).Some?
    ensures Inv(LoopNext(s, e).value)
  {
    var r := LoopNext(s, e).value;
    StartingIsStarted(s, e.m);
    assert BeingStarted(r);
  }

  lemma StartingIsStarted(s: State, m: nat)
    requires Inv(s) && m < |s.threads| && s.threads[m].pc.Starting?
    ensures (s.app.Constructing? || s.app.Adding?) && BeingStarted(s) && m == |s.threads| - 1
  {
  }

  lemma InvLeaving(s: State, e: Event)
    requires e.Leave? || e.Die?
    requires Inv(s) && LoopNext(s, e).Some?
    ensures Inv(LoopNext(s, e).value)
  {
  }

  lemma InvMonitorSide(s: State, e: Event)
    requires ByMonitor(e) && Inv(s) && Next(s, e).Some?
    ensures Inv(Next(s, e).value)
  {
    if BySending(e) {
      InvSending(s, e);
    } else if e.Leave? || e.Die? {
      InvLeaving(s, e);
    } else if e.Ready? {
      InvReady(s, e);
    } else {
      InvBeginning(s, e);
    }
  }

  lemma InvCallSide(s: State, e: Event)
    requires !ByMonitor(e) && Inv(s) && Next(s, e).Some?
    ensures Inv(Next(s, e).value)
  {
    if e.PassLock? || e.Clean? {
      InvRemoving(s, e);
    } else if ByRemoval(e) {
      InvStopping(s, e);
    } else if e.ReturnReady? || e.Add? {
      InvStarting(s, e);
    } else {
      InvCall(s, e);
    }
  }

  lemma InvNext(s: State, e: Event)
    requires Inv(s) && Next(s, e).Some?
    ensures Inv(Next(s, e).value)
  {
    if ByMonitor(e) {
      InvMonitorSide(s, e);
    } else {
      InvCallSide(s, e);
    }
  }

  lemma {:induction false} InvRun(s: State, es: seq<Event>)
    requires Inv(s) && Run(s, es).Some?
    ensures Inv(Run(s, es).value)
    decreases |es|
  {
    if es != [] {
      InvNext(s, es[0]);
      InvRun(Next(s, es[0]).value, es[1..]);
    }
  }

  // ---------- The results ----------

  ghost predicate Reachable(s: State) {
    exists es :: Run(Constructed, es) == Some(s)
  }

  lemma ReachableInv(s: State)
    requires Reachable(s)
    ensures Inv(s)
  {
    var es :| Run(Constructed, es) == Some(s);
    InvRun(Constructed, es);
  }

  /** At every point of every life of a port at most one monitor thread is alive. */
  lemma AtMostOneMonitor(s: State, m: nat, n: nat)
    requires Reachable(s) && m < |s.threads| && n < |s.threads|
    requires s.threads[m].pc != Dead && s.threads[n].pc != Dead
    ensures m == n && s.monThread == Some(m)
  {
    ReachableInv(s);
    LivingIsCurrent(s, m);
    LivingIsCurrent(s, n);
  }

  lemma LivingIsCurrent(s: State, m: nat)
    requires Inv(s) && m < |s.threads| && s.threads[m].pc != Dead
    ensures s.monThread == Some(m)
  {
    assert OnlyCurrent(s) || AllDead(s);
  }

  /** Between calls MonitorThreadAlive is the negation of monThreadisInterrupted, and both tell
      whether a monitor thread is alive; without one there is no listener. */
  lemma FlagsAgree(s: State)
    requires Reachable(s) && s.app.Idle?
    ensures s.alive <==> !s.interrupted
    ensures s.alive <==> exists m :: 0 <= m < |s.threads| && s.threads[m].pc != Dead
    ensures !s.alive ==> s.listener.None? && s.monThread.None?
  {
    ReachableInv(s);
    if s.alive {
      assert s.threads[|s.threads| - 1].pc != Dead;
    }
  }

  /** The step with which removeEventListener returns, to its caller or to close. */
  ghost predicate Removes(s: State, r: State) {
    (s.app.AwaitingLock? || s.app.Cleaning?) && (r.app.Idle? || r.app.Finishing?)
  }

  lemma OnlyRemovalReturns(s: State, e: Event)
    requires Next(s, e).Some? && Removes(s, Next(s, e).value)
    ensures (e.PassLock? || e.Clean?) && Next(s, e) == RemovalNext(s, e)
  {
  }

  lemma ReturnIsComplete(s: State, e: Event)
    requires Inv(s) && (e.PassLock? || e.Clean?) && RemovalNext(s, e).Some? && Removes(s, RemovalNext(s, e).value)
    ensures var r := RemovalNext(s, e).value;
      AllDead(r) && r.listener.None? && r.monThread.None? && r.interrupted && !r.alive
  {
  }

  /** removeEventListener returns only once every monitor thread is gone and the listener cleared. */
  lemma RemovalIsComplete(s: State, e: Event)
    requires Reachable(s) && Next(s, e).Some? && Removes(s, Next(s, e).value)
    ensures var r := Next(s, e).value;
      && AllDead(r) && r.listener.None? && r.monThread.None? && r.interrupted && !r.alive
      && r.delivered == s.delivered
  {
    ReachableInv(s);
    OnlyRemovalReturns(s, e);
    ReturnIsComplete(s, e);
  }

  /** A thread that is gone does nothing. */
  lemma NoneMoves(s: State, e: Event)
    requires AllDead(s) && ByMonitor(e)
    ensures Next(s, e).None?
  {
  }

  ghost predicate NoAdd(es: seq<Event>) {
    forall i | 0 <= i < |es| :: !es[i].Add?
  }

  /** Where every monitor thread is gone, none takes a step until a listener is added, so that nothing is
      delivered, whatever is called in between. */
  lemma {:induction false} SilentUntilAdd(s: State, es: seq<Event>)
    requires AllDead(s) && Run(s, es).Some? && NoAdd(es)
    ensures forall i | 0 <= i < |es| :: !ByMonitor(es[i])
    ensures AllDead(Run(s, es).value) && Run(s, es).value.delivered == s.delivered
    decreases |es|
  {
    if es != [] {
      assert !es[0].Add?;
      DeadStep(s, es[0]);
      SilentUntilAdd(Next(s, es[0]).value, es[1..]);
    }
  }

  lemma DeadStep(s: State, e: Event)
    requires AllDead(s) && Next(s, e).Some? && !e.Add?
    ensures !ByMonitor(e) && Next(s, e).value.threads == s.threads && Next(s, e).value.delivered == s.delivered
  {
    if ByMonitor(e) {
      NoneMoves(s, e);
    }
  }

  /** From the return of removeEventListener to the next addEventListener no serialEvent is running and none
      is called, whatever the two sides do in between. */
  lemma SilentAfterRemoval(s: State, e: Event, es: seq<Event>)
    requires Reachable(s) && Next(s, e).Some? && Removes(s, Next(s, e).value)
    requires Run(Next(s, e).value, es).Some? && NoAdd(es)
    ensures var end := Run(Next(s, e).value, es).value;
      AllDead(end) && end.delivered == s.delivered
  {
    RemovalIsComplete(s, e);
    SilentUntilAdd(Next(s, e).value, es);
  }

  /** No thread stands between reading the listener and calling it. */
  ghost predicate NoneFetched(s: State) {
    forall m | 0 <= m < |s.threads| :: !s.threads[m].pc.Fetched?
  }

  ghost predicate Silent(s: State, r: State) {
    r.listener.None? && NoneFetched(r) && r.delivered == s.delivered
  }

  lemma SilentSend(s: State, e: Event)
    requires s.listener.None? && NoneFetched(s) && BySending(e) && SendNext(s, e).Some?
    ensures Silent(s, SendNext(s, e).value)
  {
  }

  lemma SilentLoop(s: State, e: Event)
    requires s.listener.None? && NoneFetched(s) && ByMonitor(e) && !BySending(e) && LoopNext(s, e).Some?
    ensures Silent(s, LoopNext(s, e).value)
  {
  }

  lemma SilentRemove(s: State, e: Event)
    requires s.listener.None? && NoneFetched(s) && ByRemoval(e) && RemovalNext(s, e).Some?
    ensures Silent(s, RemovalNext(s, e).value)
  {
  }

  lemma SilentCall(s: State, e: Event)
    requires s.listener.None? && NoneFetched(s) && !e.Add? && CallNext(s, e).Some?
    ensures Silent(s, CallNext(s, e).value)
  {
  }

  lemma NoneFetchedStep(s: State, e: Event)
    requires s.listener.None? && NoneFetched(s) && Next(s, e).Some? && !e.Add?
    ensures Silent(s, Next(s, e).value)
  {
    if BySending(e) {
      SilentSend(s, e);
    } else if ByMonitor(e) {
      SilentLoop(s, e);
    } else if ByRemoval(e) {
      SilentRemove(s, e);
    } else {
      SilentCall(s, e);
    }
  }

  lemma {:induction false} NoneFetchedRun(s: State, es: seq<Event>)
    requires s.listener.None? && NoneFetched(s) && Run(s, es).Some? && NoAdd(es)
    ensures Run(s, es).value.delivered == s.delivered
    decreases |es|
  {
    if es != [] {
      assert !es[0].Add?;
      NoneFetchedStep(s, es[0]);
      NoneFetchedRun(Next(s, es[0]).value, es[1..]);
    }
  }

  /** Why the removal waits: clearing the listener alone brings silence exactly when no monitor thread has
      read it already. */
  lemma ClearedIsSilentExactly(s: State)
    requires s.listener.None?
    ensures (forall es | Run(s, es).Some? && NoAdd(es) :: Run(s, es).value.delivered == s.delivered) <==> NoneFetched(s)
  {
    if NoneFetched(s) {
      forall es | Run(s, es).Some? && NoAdd(es) ensures Run(s, es).value.delivered == s.delivered {
        NoneFetchedRun(s, es);
      }
    } else {
      var m :| 0 <= m < |s.threads| && s.threads[m].pc.Fetched?;
      var r := Next(s, Deliver(m)).value;
      assert Run(s, [Deliver(m)]) == Run(r, []);
      assert NoAdd([Deliver(m)]) && r.delivered != s.delivered;
    }
  }

  // ---------- A monitor thread that has been interrupted ----------

  /** removeEventListener has interrupted the monitor thread, and none is being started. */
  ghost predicate Interrupted(s: State) {
    s.interrupted && forall m | 0 <= m < |s.threads| :: !s.threads[m].pc.New? && !s.threads[m].pc.Starting?
  }

  /** The monitor thread is past its test of monThreadisInterrupted and comes to call a listener. */
  predicate PastTest(pc: Pc, listener: Option<nat>) {
    (pc.Uninterrupted? && listener.Some?) || pc.Listened? || pc.Fetched?
  }

  predicate CallDue(s: State) {
    |s.threads| > 0 && PastTest(Current(s).pc, s.listener)
  }

  function Due(s: State): nat {
    if CallDue(s) then 1 else 0
  }

  lemma DueMonitorStep(s: State, e: Event)
    requires Inv(s) && Interrupted(s) && ByMonitor(e) && Next(s, e).Some?
    ensures var r := Next(s, e).value; Interrupted(r) && |r.delivered| + Due(r) <= |s.delivered| + Due(s)
  {
    assert e.m < |s.threads| && s.threads[e.m].pc != Dead;
    LivingIsCurrent(s, e.m);
    assert e.m == |s.threads| - 1;
    if BySending(e) {
      DueSendStep(s, e);
    } else {
      DueLoopStep(s, e);
    }
  }

  lemma DueSendStep(s: State, e: Event)
    requires Interrupted(s) && BySending(e) && SendNext(s, e).Some? && e.m == |s.threads| - 1
    requires Knows(s.threads[e.m].pc, s.listener)
    ensures var r := SendNext(s, e).value; Interrupted(r) && |r.delivered| + Due(r) <= |s.delivered| + Due(s)
  {
    var m, r := e.m, SendNext(s, e).value;
    SendPays(s, e, s.threads[m].pc);
    assert r.threads == s.threads[m := s.threads[m].(pc := SendPc(s, e, s.threads[m].pc).value)];
  }

  /** A call is made by a thread that was due to, which then no longer is. */
  lemma SendPays(s: State, e: Event, pc: Pc)
    requires s.interrupted && BySending(e) && SendPc(s, e, pc).Some?
    ensures var to := SendPc(s, e, pc).value;
      && (PastTest(to, s.listener) ==> PastTest(pc, s.listener) && !e.Deliver?)
      && (e.Deliver? ==> PastTest(pc, s.listener))
  {
  }

  lemma DueLoopStep(s: State, e: Event)
    requires Interrupted(s) && ByMonitor(e) && !BySending(e) && LoopNext(s, e).Some? && e.m == |s.threads| - 1
    ensures var r := LoopNext(s, e).value; Interrupted(r) && |r.delivered| + Due(r) <= |s.delivered| + Due(s)
  {
  }

  lemma DueCallStep(s: State, e: Event)
    requires Interrupted(s) && !ByMonitor(e) && !e.Add? && Next(s, e).Some?
    ensures var r := Next(s, e).value; Interrupted(r) && |r.delivered| + Due(r) <= |s.delivered| + Due(s)
  {
    var r := Next(s, e).value;
    SamePlaces(s, e);
    assert |s.threads| > 0 ==> Current(r).pc == Current(s).pc;
  }

  lemma SamePlaces(s: State, e: Event)
    requires !ByMonitor(e) && !e.Add? && Next(s, e).Some?
    ensures var r := Next(s, e).value;
      && |r.threads| == |s.threads| && forall m | 0 <= m < |s.threads| :: r.threads[m].pc == s.threads[m].pc
    ensures s.interrupted ==> Next(s, e).value.interrupted
  {
    if ByRemoval(e) {
      RemovalKeepsPlaces(s, e);
    } else {
      assert CallNext(s, e).value.threads == s.threads;
    }
  }

  lemma RemovalKeepsPlaces(s: State, e: Event)
    requires ByRemoval(e) && RemovalNext(s, e).Some?
    ensures var r := RemovalNext(s, e).value;
      && |r.threads| == |s.threads| && (forall m | 0 <= m < |s.threads| :: r.threads[m].pc == s.threads[m].pc)
      && (s.interrupted ==> r.interrupted)
  {
    if e.Signal? {
      SignalKeepsPlaces(s);
    }
  }

  lemma SignalKeepsPlaces(s: State)
    requires RemovalNext(s, Event.Signal).Some?
    ensures var r := RemovalNext(s, Event.Signal).value;
      && |r.threads| == |s.threads| && (forall m | 0 <= m < |s.threads| :: r.threads[m].pc == s.threads[m].pc)
      && r.interrupted == s.interrupted
  {
    var m := s.monThread.value;
    assert RemovalNext(s, Event.Signal).value.threads == s.threads[m := s.threads[m].(closing := true)];
  }

  lemma {:induction false} DueRun(s: State, es: seq<Event>)
    requires Inv(s) && Interrupted(s) && Run(s, es).Some? && NoAdd(es)
    ensures |Run(s, es).value.delivered| <= |s.delivered| + Due(s)
    decreases |es|
  {
    if es != [] {
      assert !es[0].Add?;
      InvNext(s, es[0]);
      if ByMonitor(es[0]) {
        DueMonitorStep(s, es[0]);
      } else {
        DueCallStep(s, es[0]);
      }
      DueRun(Next(s, es[0]).value, es[1..]);
    }
  }

  /** Once it is interrupted the monitor thread delivers at most one event more, in any run before the next
      addEventListener, and can deliver one exactly when it is past its test of the interruption. */
  lemma InterruptedDeliversExactly(s: State)
    requires Reachable(s) && Interrupted(s)
    ensures forall es | Run(s, es).Some? && NoAdd(es) :: |Run(s, es).value.delivered| <= |s.delivered| + 1
    ensures (exists es :: Run(s, es).Some? && NoAdd(es) && |Run(s, es).value.delivered| == |s.delivered| + 1)
       <==> CallDue(s)
  {
    ReachableInv(s);
    forall es | Run(s, es).Some? && NoAdd(es)
      ensures |Run(s, es).value.delivered| <= |s.delivered| + Due(s)
    {
      DueRun(s, es);
    }
    if CallDue(s) {
      var es := DueDelivers(s);
    }
  }

  lemma DueDelivers(s: State) returns (es: seq<Event>)
    requires Inv(s) && CallDue(s)
    ensures Run(s, es).Some? && NoAdd(es) && |Run(s, es).value.delivered| == |s.delivered| + 1
  {
    var m, pc := |s.threads| - 1, Current(s).pc;
    assert Knows(s.threads[m].pc, s.listener);
    if pc.Fetched? {
      es := FetchedDelivers(s, m);
    } else if pc.Listened? {
      es := ListenedDelivers(s, m);
    } else {
      es := UninterruptedDelivers(s, m);
    }
  }

  lemma FetchedDelivers(s: State, m: nat) returns (es: seq<Event>)
    requires m < |s.threads| && s.threads[m].pc.Fetched?
    ensures Run(s, es).Some? && NoAdd(es) && |Run(s, es).value.delivered| == |s.delivered| + 1
  {
    es := [Deliver(m)];
    assert Run(s, es) == Run(SendNext(s, es[0]).value, []);
  }

  lemma ListenedDelivers(s: State, m: nat) returns (es: seq<Event>)
    requires m < |s.threads| && s.threads[m].pc.Listened? && s.listener.Some?
    ensures Run(s, es).Some? && NoAdd(es) && |Run(s, es).value.delivered| == |s.delivered| + 1
  {
    var rest := FetchedDelivers(With(s, m, Fetched(s.listener.value)), m);
    es := [Fetch(m)] + rest;
    assert es[1..] == rest && Next(s, es[0]) == SendNext(s, es[0]);
  }

  lemma UninterruptedDelivers(s: State, m: nat) returns (es: seq<Event>)
    requires m < |s.threads| && s.threads[m].pc.Uninterrupted? && s.listener.Some?
    ensures Run(s, es).Some? && NoAdd(es) && |Run(s, es).value.delivered| == |s.delivered| + 1
  {
    var rest := ListenedDelivers(With(s, m, Listened), m);
    es := [TestListener(m)] + rest;
    assert es[1..] == rest && Next(s, es[0]) == SendNext(s, es[0]);
  }

  // ---------- What a delivery finds ----------

  /** The listener a serialEvent call is made on is there from the first test on, when it is read, and is still the
      one that is set when it is called and while it runs. */
  lemma DeliveryFindsListener(s: State, m: nat)
    requires Reachable(s) && m < |s.threads|
    ensures var pc := s.threads[m].pc;
      && (pc.HasListener? || pc.HasThread? || pc.Uninterrupted? || pc.Listened? ==> s.listener.Some?)
      && (pc.Listened? ==> Next(s, Fetch(m)) == Some(With(s, m, Fetched(s.listener.value))))
      && (pc.Fetched? || pc.Calling? ==> s.listener == Some(pc.lsnr))
  {
    ReachableInv(s);
    assert Knows(s.threads[m].pc, s.listener);
  }

  /** The lock is held and no monitor thread is left to give it back. */
  ghost predicate Wedged(s: State) {
    s.lock && AllDead(s) && s.monThread.None? && !s.alive
    && (s.app.Idle? || s.app.AwaitingLock? || s.app.NotifyAwaiting? || s.app.Finishing?)
  }

  /** A notifyOn call gives MonitorThreadLock back exactly when there is a monitor thread: without one
      it throws with the lock held. */
  lemma NotifyKeepsLockExactly(s: State)
    requires Reachable(s) && s.app.NotifySetting?
    ensures Next(s, SetFlag).Some?
    ensures Next(s, SetFlag).value.lock <==> !s.alive
    ensures Wedged(Next(s, SetFlag).value) <==> !s.alive
  {
    ReachableInv(s);
    SetFlagKeepsLock(s);
  }

  lemma SetFlagKeepsLock(s: State)
    requires Rested(s) && s.app.NotifySetting?
    ensures var r := CallNext(s, SetFlag);
      r.Some? && (r.value.lock <==> !s.alive) && (Wedged(r.value) <==> !s.alive)
  {
  }

  lemma WedgedStep(s: State, e: Event)
    requires Wedged(s) && !e.Add? && Next(s, e).Some?
    ensures Wedged(Next(s, e).value) && !e.PassLock? && !e.TakeLock?
  {
    if ByMonitor(e) {
      NoneMoves(s, e);
    }
  }

  /** Then, until a listener is added, no removeEventListener and no notifyOn call gets past its wait. */
  lemma {:induction false} WedgedUntilAdd(s: State, es: seq<Event>)
    requires Wedged(s) && Run(s, es).Some? && NoAdd(es)
    ensures forall i | 0 <= i < |es| :: !es[i].PassLock? && !es[i].TakeLock?
    decreases |es|
  {
    if es != [] {
      assert !es[0].Add?;
      WedgedStep(s, es[0]);
      WedgedUntilAdd(Next(s, es[0]).value, es[1..]);
    }
  }

  // ---------- Adding a listener ----------

  /** addEventListener sets the listener exactly when none is set; where no monitor thread lives, and only there,
      it starts one and waits for it. */
  lemma AddSetsExactly(s: State, lsnr: nat)
    requires Reachable(s) && s.app.Idle?
    ensures Next(s, Add(lsnr)).Some?
    ensures var r := Next(s, Add(lsnr)).value;
      && r.delivered == s.delivered && r.fdOpen == s.fdOpen && r.interrupted == s.interrupted && r.alive == s.alive
      && r.listener == (if s.listener.Some? then s.listener else Some(lsnr))
      && if AllDead(s) then
           && r.app == Adding && r.lock
           && r.threads == s.threads + [Thread(New, false)] && r.monThread == Some(|s.threads|)
         else r == s.(listener := r.listener)
  {
    ReachableInv(s);
    FlagsAgree(s);
  }

  /** A native loop that ends before it is ready leaves the call that started it waiting: nothing moves any more. */
  lemma BailedHangs(s: State)
    requires Reachable(s) && (s.app.Constructing? || s.app.Adding?) && AllDead(s)
    ensures forall e :: Next(s, e).None?
  {
    ReachableInv(s);
    assert s.lock;
    forall e ensures Next(s, e).None? {
      if ByMonitor(e) {
        NoneMoves(s, e);
      } else {
        LockedCallWaits(s, e);
      }
    }
  }

  lemma LockedCallWaits(s: State, e: Event)
    requires (s.app.Constructing? || s.app.Adding?) && s.lock && !ByMonitor(e)
    ensures Next(s, e).None?
  {
    if ByRemoval(e) {
      assert RemovalNext(s, e).None?;
    } else {
      assert CallNext(s, e).None?;
    }
  }
}
