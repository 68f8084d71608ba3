/** Who tells the event loop that the output buffer is empty, on systems without
    TIOCSERGETLSR: writers set `writing`, drain_loop turns it into the
    output-buffer-empty flag once tcdrain returns, the event loop turns the flag
    into an event, and nativeDrain takes both back and sends its own event.

    Every read and every write of the two shared flags is a step of its own. */
module DrainProtocol {
  import opened Wrappers

  /** drain_loop: before its test of `writing`, past it, past raising the flag. */
  datatype Drainer = Draining | SawWriting | Raised
  /** The event loop: before its test of the flag, past it, past sending. */
  datatype Loop = Looking | SawFlag | Sent
  /** nativeDrain: outside, past its test of `writing`, past clearing it. */
  datatype Flusher = Outside | SawBusy | Unset

  /** What happened, in order: a write set `writing`, drain_loop raised the flag, the loop sent the event. */
  datatype Mark = Wrote | Raising | Sending

  datatype State = State(writing: bool, emptyFlag: bool, drainer: Drainer, loop: Loop, flusher: Flusher, log: seq<Mark>)

  datatype Event =
    | Write
    | TestWriting | Raise | ClearWriting
    | TestFlag | Send | ClearFlag
    | FlushTest | FlushWriting | FlushFlag
    | FinalizeThreads

  const Start := State(false, false, Draining, Looking, Outside, [])

  function Next(s: State, e: Event): Option<State> {
    match e
    case Write => Some(s.(writing := true, log := s.log + [Wrote]))
    case TestWriting =>
      if s.drainer.Draining? then Some(if s.writing then s.(drainer := SawWriting) else s) else None
    case Raise =>
      if s.drainer.SawWriting? then Some(s.(emptyFlag := true, drainer := Raised, log := s.log + [Raising])) else None
    case ClearWriting => if s.drainer.Raised? then Some(s.(writing := false, drainer := Draining)) else None
    case TestFlag => if s.loop.Looking? then Some(if s.emptyFlag then s.(loop := SawFlag) else s) else None
    case Send => if s.loop.SawFlag? then Some(s.(loop := Sent, log := s.log + [Sending])) else None
    case ClearFlag => if s.loop.Sent? then Some(s.(emptyFlag := false, loop := Looking)) else None
    case FlushTest => if s.flusher.Outside? then Some(if s.writing then s.(flusher := SawBusy) else s) else None
    case FlushWriting => if s.flusher.SawBusy? then Some(s.(writing := false, flusher := Unset)) else None
    case FlushFlag => if s.flusher.Unset? then Some(s.(emptyFlag := false, flusher := Outside)) else None
    case FinalizeThreads => if s.loop.Looking? then Some(s.(emptyFlag := false)) else None
  }

  function Run(s: State, es: seq<Event>): Option<State>
    decreases |es|
  {
    if es == [] then Some(s) else
    var r := Next(s, es[0]);
    if r.None? then None else Run(r.value, es[1..])
  }

  function Count(log: seq<Mark>, mark: Mark): nat {
    if log == [] then 0
    else Count(log[..|log| - 1], mark) + if log[|log| - 1] == mark then 1 else 0
  }

  /** A write not yet turned into a raise; a raise not yet turned into an event. */
  function RaiseDue(s: State): nat {
    if s.drainer.SawWriting? || (s.drainer.Draining? && s.writing) then 1 else 0
  }

  function SendDue(s: State): nat {
    if s.loop.SawFlag? || (s.loop.Looking? && s.emptyFlag) then 1 else 0
  }

  ghost predicate Inv(s: State) {
    && Count(s.log, Raising) + RaiseDue(s) <= Count(s.log, Wrote)
    && Count(s.log, Sending) + SendDue(s) <= Count(s.log, Raising)
  }

  lemma CountSnoc(log: seq<Mark>, m: Mark, mark: Mark)
    ensures Count(log + [m], mark) == Count(log, mark) + if m == mark then 1 else 0
  {
    assert (log + [m])[..|log|] == log;
  }

  lemma InvLogged(s: State, e: Event)
    requires Inv(s) && (e.Write? || e.Raise? || e.Send?) && Next(s, e).Some?
    ensures Inv(Next(s, e).value)
  {
    var m := if e.Write? then Wrote else if e.Raise? then Raising else Sending;
    assert Next(s, e).value.log == s.log + [m];
    CountSnoc(s.log, m, Wrote);
    CountSnoc(s.log, m, Raising);
    CountSnoc(s.log, m, Sending);
  }

  lemma InvSilent(s: State, e: Event)
    requires Inv(s) && !e.Write? && !e.Raise? && !e.Send? && Next(s, e).Some?
    ensures Inv(Next(s, e).value)
  {
    var r := Next(s, e).value;
    assert r.log == s.log;
    assert RaiseDue(r) <= RaiseDue(s) && SendDue(r) <= SendDue(s);
  }

  lemma InvNext(s: State, e: Event)
    requires Inv(s) && Next(s, e).Some?
    ensures Inv(Next(s, e).value)
  {
    if e.Write? || e.Raise? || e.Send? { InvLogged(s, e); } else { InvSilent(s, e); }
  }

  lemma {:induction false} InvRun(s: State, es: seq<Event>)
    requires Inv(s) && Run(s, es).Some?
    ensures Inv(Run(s, es).value)
    decreases |es|
  {
    if es != [] {
      InvNext(s, es[0]);
      InvRun(Next(s, es[0]).value, es[1..]);
    }
  }

  /** At every point of every interleaving the event loop has sent no more OUTPUT_BUFFER_EMPTY events
      than drain_loop raised flags, and those are no more than the writes that set `writing`. */
  lemma NoEventWithoutWrite(es: seq<Event>)
    requires Run(Start, es).Some?
    ensures var log := Run(Start, es).value.log;
      Count(log, Sending) <= Count(log, Raising) <= Count(log, Wrote)
  {
    InvRun(Start, es);
  }

  lemma {:induction false} RunAppend(s: State, es: seq<Event>, more: seq<Event>)
    requires Run(s, es).Some?
    ensures Run(s, es + more) == Run(Run(s, es).value, more)
    decreases |es|
  {
    if es == [] {
      assert es + more == more;
    } else {
      assert (es + more)[1..] == es[1..] + more;
      RunAppend(Next(s, es[0]).value, es[1..], more);
    }
  }

  const Round := [Write, TestWriting, Raise, ClearWriting, TestFlag, Send, ClearFlag]

  lemma OneRound(log: seq<Mark>)
    ensures Run(Start.(log := log), Round) == Some(Start.(log := log + [Wrote, Raising, Sending]))
  {
    var s1 := Start.(log := log + [Wrote], writing := true);
    var s2 := s1.(drainer := SawWriting);
    var s3 := s2.(emptyFlag := true, drainer := Raised, log := log + [Wrote, Raising]);
    var s4 := s3.(writing := false, drainer := Draining);
    var s5 := s4.(loop := SawFlag);
    var s6 := s5.(loop := Sent, log := log + [Wrote, Raising, Sending]);
    assert log + [Wrote] + [Raising] == log + [Wrote, Raising];
    assert log + [Wrote, Raising] + [Sending] == log + [Wrote, Raising, Sending];
    assert Run(s6, Round[6..]) == Run(s6.(emptyFlag := false, loop := Looking), []);
    assert Run(s5, Round[5..]) == Run(s6, Round[6..]);
    assert Run(s4, Round[4..]) == Run(s5, Round[5..]);
    assert Run(s3, Round[3..]) == Run(s4, Round[4..]);
    assert Run(s2, Round[2..]) == Run(s3, Round[3..]);
    assert Run(s1, Round[1..]) == Run(s2, Round[2..]);
  }

  function Rounds(n: nat): seq<Mark> {
    if n == 0 then [] else Rounds(n - 1) + [Wrote, Raising, Sending]
  }

  lemma {:induction false} RoundsCount(n: nat, mark: Mark)
    ensures Count(Rounds(n), mark) == n
  {
    if n > 0 {
      RoundsCount(n - 1, mark);
      var log := Rounds(n - 1);
      CountSnoc(log, Wrote, mark);
      CountSnoc(log + [Wrote], Raising, mark);
      CountSnoc(log + [Wrote] + [Raising], Sending, mark);
      assert log + [Wrote] + [Raising] + [Sending] == Rounds(n);
    }
  }

  /** The bounds are exact: for every n some run reports n writes with n events. */
  lemma {:induction false} EveryWriteCanBeReported(n: nat) returns (es: seq<Event>)
    ensures Run(Start, es) == Some(Start.(log := Rounds(n)))
    ensures forall mark :: Count(Rounds(n), mark) == n
  {
    forall mark ensures Count(Rounds(n), mark) == n {
      RoundsCount(n, mark);
    }
    if n == 0 {
      es := [];
    } else {
      es := EveryWriteCanBeReported(n - 1);
      OneRound(Rounds(n - 1));
      RunAppend(Start, es, Round);
      es := es + Round;
    }
  }

  // ---------- Which writes can be reported ----------

  ghost predicate NoWrite(es: seq<Event>) {
    forall i | 0 <= i < |es| :: !es[i].Write?
  }

  /** Since `from` marks the log has a raise and, after it, an event sent. */
  ghost predicate Reported(log: seq<Mark>, from: nat) {
    exists i, j :: from <= i < j < |log| && log[i] == Raising && log[j] == Sending
  }

  /** Some run without a further write reports a write that left the state `w`. */
  ghost predicate CanBeReported(w: State) {
    exists es :: NoWrite(es) && Run(w, es).Some? && Reported(Run(w, es).value.log, |w.log|)
  }

  /** No raise is under way or called for. */
  ghost predicate Spent(s: State) {
    s.drainer.Raised? || (s.drainer.Draining? && !s.writing)
  }

  lemma {:induction false} SpentUntilWrite(s: State, es: seq<Event>)
    requires Spent(s) && NoWrite(es) && Run(s, es).Some?
    ensures var r := Run(s, es).value;
      s.log <= r.log && forall i | |s.log| <= i < |r.log| :: r.log[i] != Raising
    decreases |es|
  {
    if es != [] {
      assert !es[0].Write?;
      var r := Next(s, es[0]).value;
      assert r.log == s.log || r.log == s.log + [Sending];
      SpentUntilWrite(r, es[1..]);
    }
  }

  lemma Steps(s: State, e: Event, r: State, es: seq<Event>, end: State)
    requires Next(s, e) == Some(r) && Run(r, es) == Some(end)
    ensures Run(s, [e] + es) == Some(end)
  {
    assert ([e] + es)[1..] == es;
  }

  /** The event loop finishes what it is about and comes back to its test of the flag. */
  lemma LoopComesRound(s: State) returns (es: seq<Event>, r: State)
    ensures NoWrite(es) && Run(s, es) == Some(r) && s.log <= r.log
    ensures r.loop.Looking? && r.drainer == s.drainer && r.writing == s.writing
  {
    match s.loop
    case Looking =>
      es, r := [], s;
    case Sent =>
      r := s.(emptyFlag := false, loop := Looking);
      es := [ClearFlag];
      Steps(s, ClearFlag, r, [], r);
    case SawFlag =>
      var mid := s.(loop := Sent, log := s.log + [Sending]);
      r := mid.(emptyFlag := false, loop := Looking);
      es := [Send] + [ClearFlag];
      Steps(mid, ClearFlag, r, [], r);
      Steps(s, Send, mid, [ClearFlag], r);
  }

  lemma RaisesAndSends(s: State) returns (es: seq<Event>, r: State)
    requires s.loop.Looking? && (s.drainer.SawWriting? || (s.drainer.Draining? && s.writing))
    ensures NoWrite(es) && Run(s, es) == Some(r) && r.log == s.log + [Raising, Sending]
  {
    var seen := s.(drainer := SawWriting);
    var raised := seen.(emptyFlag := true, drainer := Raised, log := s.log + [Raising]);
    var found := raised.(loop := SawFlag);
    r := found.(loop := Sent, log := s.log + [Raising] + [Sending]);
    es := [Raise] + ([TestFlag] + [Send]);
    Steps(found, Send, r, [], r);
    Steps(raised, TestFlag, found, [Send], r);
    Steps(seen, Raise, raised, [TestFlag] + [Send], r);
    if s.drainer.Draining? {
      Steps(s, TestWriting, seen, es, r);
      es := [TestWriting] + es;
    }
  }

  /** Whatever the state it falls in, a write can be reported without waiting for another one exactly
      when drain_loop does not stand between its two stores, of which the second wipes the write out. */
  lemma WriteReportedExactly(s: State)
    ensures CanBeReported(Next(s, Write).value) <==> !s.drainer.Raised?
  {
    var w := Next(s, Write).value;
    if s.drainer.Raised? {
      forall es | NoWrite(es) && Run(w, es).Some? ensures !Reported(Run(w, es).value.log, |w.log|) {
        SpentUntilWrite(w, es);
      }
    } else {
      var es, mid := LoopComesRound(w);
      var fs, r := RaisesAndSends(mid);
      RunAppend(w, es, fs);
      assert r.log[|mid.log|] == Raising && r.log[|mid.log| + 1] == Sending;
      assert NoWrite(es + fs) && Reported(Run(w, es + fs).value.log, |w.log|);
    }
  }

  const Overwritten := [Write, TestWriting, Raise, Write, ClearWriting, TestFlag, Send, ClearFlag]

  lemma OverwrittenRun()
    ensures Run(Start, Overwritten) == Some(Start.(log := [Wrote, Raising, Wrote, Sending]))
  {
    var s1 := Start.(log := [Wrote], writing := true);
    var s2 := s1.(drainer := SawWriting);
    var s3 := s2.(emptyFlag := true, drainer := Raised, log := [Wrote, Raising]);
    var s4 := s3.(log := [Wrote, Raising, Wrote]);
    var s5 := s4.(writing := false, drainer := Draining);
    var s6 := s5.(loop := SawFlag);
    var s7 := s6.(loop := Sent, log := [Wrote, Raising, Wrote, Sending]);
    assert [] + [Wrote] == [Wrote] && [Wrote] + [Raising] == [Wrote, Raising];
    assert [Wrote, Raising] + [Wrote] == [Wrote, Raising, Wrote];
    assert [Wrote, Raising, Wrote] + [Sending] == [Wrote, Raising, Wrote, Sending];
    assert Run(s7, Overwritten[7..]) == Run(s7.(emptyFlag := false, loop := Looking), []);
    assert Run(s6, Overwritten[6..]) == Run(s7, Overwritten[7..]);
    assert Run(s5, Overwritten[5..]) == Run(s6, Overwritten[6..]);
    assert Run(s4, Overwritten[4..]) == Run(s5, Overwritten[5..]);
    assert Run(s3, Overwritten[3..]) == Run(s4, Overwritten[4..]);
    assert Run(s2, Overwritten[2..]) == Run(s3, Overwritten[3..]);
    assert Run(s1, Overwritten[1..]) == Run(s2, Overwritten[2..]);
  }

  /** Such a write is met: a run ends with two writes, one raise and one event, and every run from
      there that makes no further write raises nothing more. */
  lemma WriteCanGoUnreported(es: seq<Event>)
    requires Run(Start, Overwritten + es).Some? && NoWrite(es)
    ensures Run(Start, Overwritten + es).value.log == [Wrote, Raising, Wrote, Sending]
  {
    OverwrittenRun();
    var s := Start.(log := [Wrote, Raising, Wrote, Sending]);
    RunAppend(Start, Overwritten, es);
    QuietUntilWrite(s, es);
  }

  ghost predicate Quiet(s: State) {
    !s.writing && !s.emptyFlag && s.drainer.Draining? && s.loop.Looking?
  }

  lemma {:induction false} QuietUntilWrite(s: State, es: seq<Event>)
    requires Quiet(s) && Run(s, es).Some? && NoWrite(es)
    ensures Run(s, es).value.log == s.log
    decreases |es|
  {
    if es != [] {
      assert !es[0].Write?;
      assert Quiet(Next(s, es[0]).value);
      QuietUntilWrite(Next(s, es[0]).value, es[1..]);
    }
  }

  // ---------- What takes a write back ----------

  const FlushCalls := [FlushTest, FlushWriting, FlushFlag]

  /** nativeDrain, while drain_loop and the event loop rest, takes a write and a raised flag back: nothing is raised
      or sent for them any more. Where no write is pending it changes nothing, and a raised flag stays. */
  lemma FlushTakesBackExactly(s: State)
    requires s.flusher.Outside? && s.drainer.Draining? && s.loop.Looking?
    ensures !s.writing ==> Next(s, FlushTest) == Some(s)
    ensures s.writing ==>
      && Run(s, FlushCalls) == Some(s.(writing := false, emptyFlag := false))
      && forall es | Run(s, FlushCalls + es).Some? && NoWrite(es) :: Run(s, FlushCalls + es).value.log == s.log
  {
    if s.writing {
      var busy := s.(flusher := SawBusy);
      var unset := s.(writing := false, flusher := Unset);
      var quiet := s.(writing := false, emptyFlag := false);
      assert Run(unset, FlushCalls[2..]) == Run(quiet, []);
      assert Run(busy, FlushCalls[1..]) == Run(unset, FlushCalls[2..]);
      forall es | Run(s, FlushCalls + es).Some? && NoWrite(es) ensures Run(s, FlushCalls + es).value.log == s.log {
        RunAppend(s, FlushCalls, es);
        QuietUntilWrite(quiet, es);
      }
    }
  }

  /** And so does the end of the threads take back a flag that the event loop has not looked at. */
  lemma FinalizeTakesFlagBack(s: State, es: seq<Event>)
    requires s.loop.Looking? && s.drainer.Draining? && !s.writing && NoWrite(es)
    requires Run(s, [FinalizeThreads] + es).Some?
    ensures Run(s, [FinalizeThreads] + es).value.log == s.log
  {
    var quiet := s.(emptyFlag := false);
    assert ([FinalizeThreads] + es)[1..] == es && Next(s, FinalizeThreads) == Some(quiet);
    QuietUntilWrite(quiet, es);
  }
}
