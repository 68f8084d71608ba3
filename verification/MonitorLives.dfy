/** Runs of MonitorLifecycle that are met: listeners added, given their events and removed one after another,
    the close of a port, and the ways a call comes to wait for ever. */
module MonitorLives {
  import opened Wrappers
  import opened MonitorLifecycle

  /** The threads of the lives gone by. */
  function Past(k: nat): seq<Thread> {
    seq(k, _ => Thread(Dead, true))
  }

  /** The port after `k` lives, its next monitor thread at `me`; MonitorThreadCloseLock is first cleared by the
      end of the first one. */
  function Living(k: nat, me: Thread, listener: Option<nat>, delivered: seq<nat>): State {
    State(true, false, false, k == 0, true, false, listener, Some(k), Past(k) + [me], Idle, delivered)
  }

  /** The port between calls with its monitor thread looping. */
  function Listening(k: nat, listener: Option<nat>, delivered: seq<nat>): State {
    Living(k, Thread(Looping, false), listener, delivered)
  }

  /** The port after removeEventListener. */
  function Deaf(k: nat, delivered: seq<nat>): State {
    State(true, false, false, false, false, true, None, None, Past(k), Idle, delivered)
  }

  function Startup(m: nat): seq<Event> {
    [Begin(m), Ready(m), ReturnReady]
  }

  function Testing(m: nat): seq<Event> {
    [TestFd(m), TestSet(m), TestThread(m), TestInterrupted(m), TestListener(m)]
  }

  function Delivery(m: nat): seq<Event> {
    [Fetch(m), Deliver(m), Return(m)]
  }

  /** removeEventListener, within close or not. */
  function Stop(close: bool): seq<Event> {
    [if close then Close else Remove, PassLock, Interrupt, Event.Signal]
  }

  function Goodbye(m: nat): seq<Event> {
    [Leave(m), PassCloseLock, Die(m), Join, Clean]
  }

  lemma {:induction false} RunAppend(s: State, es: seq<Event>, more: seq<Event>)
    requires Run(s, es).Some?
    ensures Run(s, es + more) == Run(Run(s, es).value, more)
    decreases |es|
  {
    if es == [] {
      assert es + more == more;
    } else {
      assert (es + more)[1..] == es[1..] + more;
      RunAppend(Next(s, es[0]).value, es[1..], more);
    }
  }

  lemma InTwoParts(s: State, es: seq<Event>, a: State, more: seq<Event>)
    requires Run(s, es) == Some(a)
    ensures Run(s, es + more) == Run(a, more)
  {
    RunAppend(s, es, more);
  }

  lemma Steps(s: State, e: Event, r: State)
    requires Next(s, e).Some?
    requires var n := Next(s, e).value;
      n.threads == r.threads && n.delivered == r.delivered && n == r.(threads := n.threads, delivered := n.delivered)
    ensures Next(s, e) == Some(r)
  {
  }

  /** A run goes on with one more step. */
  lemma Then(s: State, es: seq<Event>, a: State, e: Event, r: State)
    requires Run(s, es) == Some(a) && Next(a, e) == Some(r)
    ensures Run(s, es + [e]) == Some(r)
  {
    RunAppend(s, es, [e]);
    assert [e][1..] == [];
  }

  /** The monitor thread of the life after `k` others moves. */
  lemma MovesTo(s: State, k: nat, me: Thread, pc: Pc)
    requires s.threads == Past(k) + [me]
    ensures With(s, k, pc) == s.(threads := Past(k) + [me.(pc := pc)])
  {
    assert (Past(k) + [me])[k := me.(pc := pc)] == Past(k) + [me.(pc := pc)];
  }

  /** A monitor thread has just been started, by the constructor or by addEventListener. */
  function Born(k: nat, me: Pc, app: App, listener: Option<nat>, delivered: seq<nat>): State {
    Living(k, Thread(me, false), listener, delivered).(
      lock := !me.Looping?, alive := false, interrupted := me.New?, app := app)
  }

  lemma Begins(k: nat, app: App, listener: Option<nat>, delivered: seq<nat>)
    ensures Next(Born(k, New, app, listener, delivered), Begin(k)) == Some(Born(k, Starting, app, listener, delivered))
  {
    MovesTo(Born(k, New, app, listener, delivered), k, Thread(New, false), Starting);
  }

  lemma GetsReady(k: nat, app: App, listener: Option<nat>, delivered: seq<nat>)
    ensures Next(Born(k, Starting, app, listener, delivered), Ready(k))
         == Some(Born(k, Looping, app, listener, delivered))
  {
    MovesTo(Born(k, Starting, app, listener, delivered), k, Thread(Starting, false), Looping);
  }

  /** It gets ready, and the call that started it returns. */
  lemma StartsUp(k: nat, app: App, listener: Option<nat>, delivered: seq<nat>)
    requires app.Constructing? || app.Adding?
    ensures Run(Born(k, New, app, listener, delivered), Startup(k)) == Some(Listening(k, listener, delivered))
  {
    var s, end := Born(k, New, app, listener, delivered), Listening(k, listener, delivered);
    Begins(k, app, listener, delivered);
    GetsReady(k, app, listener, delivered);
    Then(s, [], s, Begin(k), Born(k, Starting, app, listener, delivered));
    Then(s, [] + [Begin(k)], Born(k, Starting, app, listener, delivered), Ready(k),
         Born(k, Looping, app, listener, delivered));
    Then(s, [] + [Begin(k)] + [Ready(k)], Born(k, Looping, app, listener, delivered), ReturnReady, end);
    assert [] + [Begin(k)] + [Ready(k)] + [ReturnReady] == Startup(k);
  }

  lemma PassesTests(k: nat, lsnr: nat, delivered: seq<nat>)
    ensures Run(Listening(k, Some(lsnr), delivered), Testing(k))
         == Some(Living(k, Thread(Listened, false), Some(lsnr), delivered))
  {
    var s := Listening(k, Some(lsnr), delivered);
    var s1 := Living(k, Thread(FdOpen, false), Some(lsnr), delivered);
    var s2 := Living(k, Thread(HasListener, false), Some(lsnr), delivered);
    var s3 := Living(k, Thread(HasThread, false), Some(lsnr), delivered);
    var s4 := Living(k, Thread(Uninterrupted, false), Some(lsnr), delivered);
    var s5 := Living(k, Thread(Listened, false), Some(lsnr), delivered);
    Steps(s, TestFd(k), s1);
    Steps(s1, TestSet(k), s2);
    Steps(s2, TestThread(k), s3);
    Steps(s3, TestInterrupted(k), s4);
    Steps(s4, TestListener(k), s5);
    assert Run(s4, Testing(k)[4..]) == Run(s5, []);
    assert Run(s3, Testing(k)[3..]) == Run(s4, Testing(k)[4..]);
    assert Run(s2, Testing(k)[2..]) == Run(s3, Testing(k)[3..]);
    assert Run(s1, Testing(k)[1..]) == Run(s2, Testing(k)[2..]);
  }

  lemma Calls(k: nat, lsnr: nat, delivered: seq<nat>)
    ensures Run(Living(k, Thread(Listened, false), Some(lsnr), delivered), Delivery(k))
         == Some(Listening(k, Some(lsnr), delivered + [lsnr]))
  {
    var s := Living(k, Thread(Listened, false), Some(lsnr), delivered);
    var s1 := Living(k, Thread(Fetched(lsnr), false), Some(lsnr), delivered);
    var s2 := Living(k, Thread(Calling(lsnr), false), Some(lsnr), delivered + [lsnr]);
    var s3 := Listening(k, Some(lsnr), delivered + [lsnr]);
    Steps(s, Fetch(k), s1);
    Steps(s1, Deliver(k), s2);
    Steps(s2, Return(k), s3);
    assert Run(s2, Delivery(k)[2..]) == Run(s3, []);
    assert Run(s1, Delivery(k)[1..]) == Run(s2, Delivery(k)[2..]);
  }

  lemma Delivers(k: nat, lsnr: nat, delivered: seq<nat>)
    ensures Run(Listening(k, Some(lsnr), delivered), Testing(k) + Delivery(k))
         == Some(Listening(k, Some(lsnr), delivered + [lsnr]))
  {
    PassesTests(k, lsnr, delivered);
    Calls(k, lsnr, delivered);
    InTwoParts(Listening(k, Some(lsnr), delivered), Testing(k),
               Living(k, Thread(Listened, false), Some(lsnr), delivered), Delivery(k));
  }

  function Copies(lsnr: nat, n: nat): seq<nat> {
    seq(n, _ => lsnr)
  }

  /** The monitor thread delivers any number of events. */
  lemma {:induction false} Hears(k: nat, lsnr: nat, delivered: seq<nat>, n: nat) returns (es: seq<Event>)
    ensures Run(Listening(k, Some(lsnr), delivered), es) == Some(Listening(k, Some(lsnr), delivered + Copies(lsnr, n)))
  {
    var s := Listening(k, Some(lsnr), delivered);
    if n == 0 {
      es := [];
      assert delivered + Copies(lsnr, 0) == delivered;
    } else {
      var before := delivered + Copies(lsnr, n - 1);
      es := Hears(k, lsnr, delivered, n - 1);
      Delivers(k, lsnr, before);
      InTwoParts(s, es, Listening(k, Some(lsnr), before), Testing(k) + Delivery(k));
      es := es + (Testing(k) + Delivery(k));
      OneMore(delivered, lsnr, n);
    }
  }

  lemma OneMore(delivered: seq<nat>, lsnr: nat, n: nat)
    requires n > 0
    ensures delivered + Copies(lsnr, n - 1) + [lsnr] == delivered + Copies(lsnr, n)
  {
  }

  /** removeEventListener has told the loop to close and waits. */
  function Stopping(k: nat, lsnr: nat, delivered: seq<nat>, close: bool): State {
    Living(k, Thread(Looping, true), Some(lsnr), delivered).(
      closeLock := close, monCloseLock := true, interrupted := true, app := AwaitingCloseLock(close))
  }

  lemma TakesLock(k: nat, lsnr: nat, delivered: seq<nat>, close: bool)
    ensures var s := Listening(k, Some(lsnr), delivered).(closeLock := close, app := AwaitingLock(close));
      && Next(Listening(k, Some(lsnr), delivered), if close then Close else Remove) == Some(s)
      && Next(s, PassLock) == Some(s.(interrupted := true, app := Interrupting(close)))
  {
  }

  lemma TellsLoop(k: nat, lsnr: nat, delivered: seq<nat>, close: bool)
    ensures var s := Listening(k, Some(lsnr), delivered).(
                       closeLock := close, interrupted := true, app := Interrupting(close));
      && Next(s, Interrupt) == Some(s.(monCloseLock := true, app := Signalling(close)))
      && Next(s.(monCloseLock := true, app := Signalling(close)), Event.Signal)
         == Some(Stopping(k, lsnr, delivered, close))
  {
    assert (Past(k) + [Thread(Looping, false)])[k := Thread(Looping, true)] == Past(k) + [Thread(Looping, true)];
  }

  lemma Stops(k: nat, lsnr: nat, delivered: seq<nat>, close: bool)
    ensures Run(Listening(k, Some(lsnr), delivered), Stop(close)) == Some(Stopping(k, lsnr, delivered, close))
  {
    var s, begin := Listening(k, Some(lsnr), delivered), if close then Close else Remove;
    var s1 := s.(closeLock := close, app := AwaitingLock(close));
    var s2 := s1.(interrupted := true, app := Interrupting(close));
    var s3 := s2.(monCloseLock := true, app := Signalling(close));
    TakesLock(k, lsnr, delivered, close);
    TellsLoop(k, lsnr, delivered, close);
    Then(s, [], s, begin, s1);
    Then(s, [] + [begin], s1, PassLock, s2);
    Then(s, [] + [begin] + [PassLock], s2, Interrupt, s3);
    Then(s, [] + [begin] + [PassLock] + [Interrupt], s3, Event.Signal, Stopping(k, lsnr, delivered, close));
    assert [] + [begin] + [PassLock] + [Interrupt] + [Event.Signal] == Stop(close);
  }

  lemma SaysGoodbye(k: nat, lsnr: nat, delivered: seq<nat>, close: bool)
    ensures Run(Stopping(k, lsnr, delivered, close), Goodbye(k))
         == Some(Deaf(k + 1, delivered).(closeLock := close, app := if close then Finishing else Idle))
  {
    var s, out := Stopping(k, lsnr, delivered, close), Deaf(k + 1, delivered).(
      closeLock := close, app := if close then Finishing else Idle);
    var s1, s2 := Ending(k, Leaving, AwaitingCloseLock(close), lsnr, delivered),
                  Ending(k, Leaving, Joining(close), lsnr, delivered);
    var s3, s4 := Ending(k, Dead, Joining(close), lsnr, delivered),
                  Ending(k, Dead, Cleaning(close), lsnr, delivered);
    LoopLeaves(k, lsnr, delivered, close);
    ThreadDies(k, lsnr, delivered, close);
    RemovalEnds(k, lsnr, delivered, close);
    Then(s, [], s, Leave(k), s1);
    Then(s, [] + [Leave(k)], s1, PassCloseLock, s2);
    Then(s, [] + [Leave(k)] + [PassCloseLock], s2, Die(k), s3);
    Then(s, [] + [Leave(k)] + [PassCloseLock] + [Die(k)], s3, Join, s4);
    Then(s, [] + [Leave(k)] + [PassCloseLock] + [Die(k)] + [Join], s4, Clean, out);
    assert [] + [Leave(k)] + [PassCloseLock] + [Die(k)] + [Join] + [Clean] == Goodbye(k);
  }

  /** The monitor thread has told that it is about to go, at `me`, and removeEventListener is at `app`. */
  function Ending(k: nat, me: Pc, app: App, lsnr: nat, delivered: seq<nat>): State
    requires app.AwaitingCloseLock? || app.Joining? || app.Cleaning?
  {
    Living(k, Thread(me, true), Some(lsnr), delivered).(
      closeLock := app.close, monCloseLock := false, interrupted := true, app := app)
  }

  lemma LoopLeaves(k: nat, lsnr: nat, delivered: seq<nat>, close: bool)
    ensures Next(Stopping(k, lsnr, delivered, close), Leave(k))
         == Some(Ending(k, Leaving, AwaitingCloseLock(close), lsnr, delivered))
    ensures Next(Ending(k, Leaving, AwaitingCloseLock(close), lsnr, delivered), PassCloseLock)
         == Some(Ending(k, Leaving, Joining(close), lsnr, delivered))
  {
    MovesTo(Stopping(k, lsnr, delivered, close), k, Thread(Looping, true), Leaving);
  }

  lemma ThreadDies(k: nat, lsnr: nat, delivered: seq<nat>, close: bool)
    ensures Next(Ending(k, Leaving, Joining(close), lsnr, delivered), Die(k))
         == Some(Ending(k, Dead, Joining(close), lsnr, delivered))
    ensures Next(Ending(k, Dead, Joining(close), lsnr, delivered), Join)
         == Some(Ending(k, Dead, Cleaning(close), lsnr, delivered))
  {
    MovesTo(Ending(k, Leaving, Joining(close), lsnr, delivered), k, Thread(Leaving, true), Dead);
  }

  lemma RemovalEnds(k: nat, lsnr: nat, delivered: seq<nat>, close: bool)
    ensures Next(Ending(k, Dead, Cleaning(close), lsnr, delivered), Clean)
         == Some(Deaf(k + 1, delivered).(closeLock := close, app := if close then Finishing else Idle))
  {
    assert Past(k) + [Thread(Dead, true)] == Past(k + 1);
  }

  /** A listener and how many events it is given before it is removed. */
  datatype Life = Life(lsnr: nat, events: nat)

  function DeliveredIn(lives: seq<Life>): seq<nat>
    decreases |lives|
  {
    if lives == [] then [] else
    var last := lives[|lives| - 1];
    DeliveredIn(lives[..|lives| - 1]) + Copies(last.lsnr, last.events)
  }

  lemma Subscribes(lsnr: nat) returns (es: seq<Event>)
    ensures Run(Constructed, es) == Some(Listening(0, Some(lsnr), []))
  {
    assert Constructed.threads == Past(0) + [Thread(New, false)];
    StartsUp(0, Constructing, None, []);
    var added := Listening(0, Some(lsnr), []);
    Steps(Listening(0, None, []), Add(lsnr), added);
    assert Run(Listening(0, None, []), [Add(lsnr)]) == Run(added, []);
    InTwoParts(Constructed, Startup(0), Listening(0, None, []), [Add(lsnr)]);
    es := Startup(0) + [Add(lsnr)];
  }

  lemma SubscribesAgain(k: nat, lsnr: nat, delivered: seq<nat>)
    requires k > 0
    ensures Run(Deaf(k, delivered), [Add(lsnr)] + Startup(k)) == Some(Listening(k, Some(lsnr), delivered))
  {
    var s := Deaf(k, delivered);
    var started := Born(k, New, Adding, Some(lsnr), delivered);
    Steps(s, Add(lsnr), started);
    assert Run(s, [Add(lsnr)]) == Run(started, []);
    StartsUp(k, Adding, Some(lsnr), delivered);
    InTwoParts(s, [Add(lsnr)], started, Startup(k));
  }

  /** Up to the last of the lives, its listener added and given its events. */
  lemma {:induction false} LivesUpToRemoval(lives: seq<Life>) returns (es: seq<Event>)
    requires lives != []
    ensures var n := |lives| - 1; Run(Constructed, es) == Some(Listening(n, Some(lives[n].lsnr), DeliveredIn(lives)))
    decreases |lives|, 0
  {
    var n := |lives| - 1;
    var life, before := lives[n], DeliveredIn(lives[..n]);
    if n == 0 {
      es := Subscribes(life.lsnr);
    } else {
      es := LivesComplete(lives[..n]);
      SubscribesAgain(n, life.lsnr, before);
      InTwoParts(Constructed, es, Deaf(n, before), [Add(life.lsnr)] + Startup(n));
      es := es + ([Add(life.lsnr)] + Startup(n));
    }
    var heard := Hears(n, life.lsnr, before, life.events);
    InTwoParts(Constructed, es, Listening(n, Some(life.lsnr), before), heard);
    es := es + heard;
  }

  /** For any listeners and counts some run adds them one after another, gives each its events and removes it,
      the first listened to by the constructor's thread and each other by a thread of its own. */
  lemma {:induction false} LivesComplete(lives: seq<Life>) returns (es: seq<Event>)
    requires lives != []
    ensures Run(Constructed, es) == Some(Deaf(|lives|, DeliveredIn(lives)))
    decreases |lives|, 2
  {
    es := RemovalRuns(lives, false);
  }

  lemma {:induction false} RemovalRuns(lives: seq<Life>, close: bool) returns (es: seq<Event>)
    requires lives != []
    ensures Run(Constructed, es)
         == Some(Deaf(|lives|, DeliveredIn(lives)).(closeLock := close, app := if close then Finishing else Idle))
    decreases |lives|, 1
  {
    var n, lsnr, out := |lives| - 1, lives[|lives| - 1].lsnr, DeliveredIn(lives);
    es := LivesUpToRemoval(lives);
    Stops(n, lsnr, out, close);
    SaysGoodbye(n, lsnr, out, close);
    InTwoParts(Constructed, es, Listening(n, Some(lsnr), out), Stop(close));
    InTwoParts(Constructed, es + Stop(close), Stopping(n, lsnr, out, close), Goodbye(n));
    es := es + Stop(close) + Goodbye(n);
  }

  /** The port closed, for good and with no thread left. */
  function ClosedPort(k: nat, delivered: seq<nat>): State {
    Deaf(k, delivered).(fdOpen := false)
  }

  /** And close does the same to the last of them and gives up the descriptor, whether the listener was removed
      before or not. */
  lemma CloseCompletes(lives: seq<Life>, removed: bool) returns (es: seq<Event>)
    requires lives != []
    ensures Run(Constructed, es) == Some(ClosedPort(|lives|, DeliveredIn(lives)))
  {
    var k, out := |lives|, DeliveredIn(lives);
    var finishing := Deaf(k, out).(closeLock := true, app := Finishing);
    DeafCloses(k, out);
    if removed {
      es := LivesComplete(lives);
      Then(Constructed, es, Deaf(k, out), Close, finishing);
      es := es + [Close];
    } else {
      es := RemovalRuns(lives, true);
    }
    Then(Constructed, es, finishing, Finish, ClosedPort(k, out));
    es := es + [Finish];
  }

  lemma DeafCloses(k: nat, delivered: seq<nat>)
    ensures var finishing := Deaf(k, delivered).(closeLock := true, app := Finishing);
      Next(Deaf(k, delivered), Close) == Some(finishing) && Next(finishing, Finish) == Some(ClosedPort(k, delivered))
  {
  }

  const NotifyCalls := [Notify, TakeLock, SetFlag]

  lemma DeafNotifies(k: nat, delivered: seq<nat>)
    ensures Run(Deaf(k, delivered), NotifyCalls) == Some(Deaf(k, delivered).(lock := true))
  {
    var s := Deaf(k, delivered);
    var s1 := s.(app := NotifyAwaiting);
    var s2 := s.(lock := true, app := NotifySetting);
    Steps(s, Notify, s1);
    Steps(s1, TakeLock, s2);
    Steps(s2, SetFlag, s.(lock := true));
    assert Run(s2, NotifyCalls[2..]) == Run(s.(lock := true), []);
    assert Run(s1, NotifyCalls[1..]) == Run(s2, NotifyCalls[2..]);
  }

  /** What a listener did not ask for is dropped; a notifyOn call with a monitor thread, a removal without one
      and a close of a closed port all end, and change nothing but for the mark the close leaves. */
  lemma IdleCallsComplete(k: nat, lsnr: nat, delivered: seq<nat>)
    ensures var s := Listening(k, Some(lsnr), delivered);
      && Run(s, [TestFd(k), TestSet(k), TestThread(k)] + [Unsubscribed(k)]) == Some(s)
      && Run(s, NotifyCalls) == Some(s)
    ensures Run(Deaf(k, delivered), [Remove, PassLock]) == Some(Deaf(k, delivered))
    ensures var s := ClosedPort(k, delivered).(closeLock := true);
      Next(ClosedPort(k, delivered), Close) == Some(s) && Next(s, Close) == Some(s)
  {
    DropsUnsubscribed(k, lsnr, delivered);
    ListeningNotifies(k, lsnr, delivered);
    RemovesAgain(k, delivered);
    ClosesAgain(k, delivered);
  }

  lemma RemovesAgain(k: nat, delivered: seq<nat>)
    ensures Run(Deaf(k, delivered), [Remove, PassLock]) == Some(Deaf(k, delivered))
  {
    var s, waits := Deaf(k, delivered), Deaf(k, delivered).(app := AwaitingLock(false));
    Then(s, [], s, Remove, waits);
    Then(s, [] + [Remove], waits, PassLock, s);
    assert [] + [Remove] + [PassLock] == [Remove, PassLock];
  }

  lemma ClosesAgain(k: nat, delivered: seq<nat>)
    ensures var s := ClosedPort(k, delivered).(closeLock := true);
      Next(ClosedPort(k, delivered), Close) == Some(s) && Next(s, Close) == Some(s)
  {
  }

  lemma DropsUnsubscribed(k: nat, lsnr: nat, delivered: seq<nat>)
    ensures var s := Listening(k, Some(lsnr), delivered);
      Run(s, [TestFd(k), TestSet(k), TestThread(k)] + [Unsubscribed(k)]) == Some(s)
  {
    var s := Listening(k, Some(lsnr), delivered);
    var s1 := Living(k, Thread(FdOpen, false), Some(lsnr), delivered);
    var s2 := Living(k, Thread(HasListener, false), Some(lsnr), delivered);
    var s3 := Living(k, Thread(HasThread, false), Some(lsnr), delivered);
    MovesTo(s, k, Thread(Looping, false), FdOpen);
    MovesTo(s1, k, Thread(FdOpen, false), HasListener);
    MovesTo(s2, k, Thread(HasListener, false), HasThread);
    MovesTo(s3, k, Thread(HasThread, false), Looping);
    Then(s, [], s, TestFd(k), s1);
    Then(s, [] + [TestFd(k)], s1, TestSet(k), s2);
    Then(s, [] + [TestFd(k)] + [TestSet(k)], s2, TestThread(k), s3);
    Then(s, [] + [TestFd(k)] + [TestSet(k)] + [TestThread(k)], s3, Unsubscribed(k), s);
    assert [] + [TestFd(k)] + [TestSet(k)] + [TestThread(k)] == [TestFd(k), TestSet(k), TestThread(k)];
  }

  lemma ListeningNotifies(k: nat, lsnr: nat, delivered: seq<nat>)
    ensures Run(Listening(k, Some(lsnr), delivered), NotifyCalls) == Some(Listening(k, Some(lsnr), delivered))
  {
    var s := Listening(k, Some(lsnr), delivered);
    var s1, s2 := s.(app := NotifyAwaiting), s.(lock := true, app := NotifySetting);
    Then(s, [], s, Notify, s1);
    Then(s, [] + [Notify], s1, TakeLock, s2);
    Then(s, [] + [Notify] + [TakeLock], s2, SetFlag, s);
    assert [] + [Notify] + [TakeLock] + [SetFlag] == NotifyCalls;
  }

  /** A notifyOn call after such lives leaves the port wedged. */
  lemma WedgeReached(lives: seq<Life>) returns (es: seq<Event>)
    requires lives != []
    ensures Run(Constructed, es).Some? && Wedged(Run(Constructed, es).value)
  {
    es := LivesComplete(lives);
    DeafNotifies(|lives|, DeliveredIn(lives));
    InTwoParts(Constructed, es, Deaf(|lives|, DeliveredIn(lives)), NotifyCalls);
    es := es + NotifyCalls;
  }

  lemma BailReached()
    ensures Run(Constructed, [Begin(0), Bail(0)]).Some?
    ensures var r := Run(Constructed, [Begin(0), Bail(0)]).value; r.app.Constructing? && AllDead(r)
  {
    var s1 := Constructed.(threads := [Thread(Starting, false)], interrupted := false);
    var s2 := s1.(threads := [Thread(Dead, false)]);
    Steps(Constructed, Begin(0), s1);
    Steps(s1, Bail(0), s2);
    assert Run(s1, [Bail(0)]) == Run(s2, []);
    assert [Begin(0), Bail(0)][1..] == [Bail(0)];
  }
}
