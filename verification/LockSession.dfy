/** What one thread's lock and unlock come to in LockProtocol when no other thread interferes, for every
    combination of failing system calls, and when a lock left behind can be had again. */
module LockSession {
  import opened Wrappers
  import opened LockProtocol
  import LockFiles

  /** No other thread is inside a fused stretch. */
  ghost predicate Quiet(cfg: Config, s: State, t: nat) {
    forall u: nat | u < |s.threads| && u != t :: !InSection(cfg, s.threads[u].pc)
  }

  lemma AloneMoves(cfg: Config, s: State, t: nat, from: Pc, e: Event, to: State, rest: seq<Event>, end: State)
    requires t < |s.threads| && Quiet(cfg, s, t)
    requires !e.Spawn? && !e.Die? && !e.Begin? && (e.WriteFails? ==> cfg.faults) && e.t == t
    requires Act(At(s, t, from), e) == Some(to) && Run(cfg, to, rest) == Some(end)
    ensures Run(cfg, At(s, t, from), [e] + rest) == Some(end)
  {
    assert Unblocked(cfg, At(s, t, from), e);
    assert ([e] + rest)[1..] == rest;
  }

  lemma AtAgain(s: State, t: nat, a: Pc, b: Pc)
    requires t < |s.threads|
    ensures At(At(s, t, a), t, b) == At(s, t, b)
  {
  }

  /** A call that fails ends the function. */
  lemma FailsAlone(cfg: Config, s: State, t: nat, from: Pc)
    requires t < |s.threads| && Quiet(cfg, s, t) && MayFail(from)
    ensures Run(cfg, At(s, t, from), [Refuse(t)]) == Some(At(s, t, Idle))
  {
    AtAgain(s, t, from, Idle);
    AloneMoves(cfg, s, t, from, Refuse(t), At(s, t, Idle), [], At(s, t, Idle));
    assert [Refuse(t)] + [] == [Refuse(t)];
  }

  // ---------- fhs_lock ----------

  /** The lock taken: a new file with the thread's pid stands under the name. */
  function Locked(s: State, t: nat, n: string): State
    requires t < |s.threads|
  {
    At(s.(dir := s.dir[n := |s.disk|], disk := s.disk + [Text(s.threads[t].pid)]), t, Holding(n, |s.disk|))
  }

  /** The name's file is judged to be a live process's; `junk` is what an empty one reads as. */
  predicate LiveLock(s: State, n: string, junk: int) {
    n in s.dir && ReadPid(s, s.dir[n], junk) in s.live
  }

  /** A failing call ends the check of the lock. */
  predicate JudgementFails(s: State, n: string, junk: int, f: LockFiles.Faults) {
    f.refused || (n in s.dir && (f.open || f.read || (!LiveLock(s, n, junk) && f.unlink)))
  }

  function CreateCalls(t: nat, f: LockFiles.Faults): seq<Event> {
    if f.create then [Refuse(t)] else [Create(t)] + [if f.write then WriteFails(t) else Write(t)]
  }

  /** The calls from the verdict on a file that is there. */
  function VerdictCalls(t: nat, live: bool, f: LockFiles.Faults): seq<Event> {
    if live then [if f.create then Refuse(t) else Create(t)]
    else if f.unlink then [Refuse(t)] else [Unlink(t)] + CreateCalls(t, f)
  }

  function JudgeCalls(t: nat, junk: int, live: bool, f: LockFiles.Faults): seq<Event> {
    if f.open then [Refuse(t)]
    else [Open(t)] + (if f.read then [Refuse(t)]
                      else [Read(t, junk)] + ([Kill(t)] + VerdictCalls(t, live, f)))
  }

  /** fhs_lock from an idle thread, with the system calls it makes when nothing interferes. */
  function LockCalls(s: State, t: nat, n: string, junk: int, f: LockFiles.Faults): seq<Event> {
    [Begin(t, n)] + (if f.refused then [Refuse(t)]
                     else [Stat(t)] + (if n !in s.dir then CreateCalls(t, f)
                                       else JudgeCalls(t, junk, LiveLock(s, n, junk), f)))
  }

  /** What they come to when the name is free. */
  function CreateEnd(s: State, t: nat, n: string, f: LockFiles.Faults): State
    requires t < |s.threads|
  {
    if f.create then At(s, t, Idle) else if f.write then At(Created(s, n), t, Idle) else Locked(s, t, n)
  }

  function LockEnd(s: State, t: nat, n: string, junk: int, f: LockFiles.Faults): State
    requires t < |s.threads|
  {
    if JudgementFails(s, n, junk, f) || LiveLock(s, n, junk) then At(s, t, Idle)
    else CreateEnd(Removed(s, n), t, n, f)
  }

  lemma CreateAlone(cfg: Config, s: State, t: nat, n: string, f: LockFiles.Faults)
    requires t < |s.threads| && Quiet(cfg, s, t) && n !in s.dir && (f.write ==> cfg.faults)
    ensures Run(cfg, At(s, t, Creating(n)), CreateCalls(t, f)) == Some(CreateEnd(s, t, n, f))
  {
    if f.create {
      FailsAlone(cfg, s, t, Creating(n));
    } else {
      var made, writing, end := Created(s, n), Writing(n, |s.disk|), CreateEnd(s, t, n, f);
      var last := if f.write then WriteFails(t) else Write(t);
      WriteEnds(cfg, s, t, n, f);
      AloneMoves(cfg, made, t, writing, last, end, [], end);
      assert [last] + [] == [last];
      AtAgain(made, t, Creating(n), writing);
      assert Act(At(s, t, Creating(n)), Create(t)) == Some(At(made, t, writing));
      AloneMoves(cfg, s, t, Creating(n), Create(t), At(made, t, writing), [last], end);
    }
  }

  lemma WriteEnds(cfg: Config, s: State, t: nat, n: string, f: LockFiles.Faults)
    requires t < |s.threads| && !f.create
    ensures Act(At(Created(s, n), t, Writing(n, |s.disk|)), if f.write then WriteFails(t) else Write(t))
         == Some(CreateEnd(s, t, n, f))
  {
    var made, writing := Created(s, n), Writing(n, |s.disk|);
    if f.write {
      AtAgain(made, t, writing, Idle);
    } else {
      var written := made.(disk := made.disk[|s.disk| := Text(s.threads[t].pid)]);
      AtAgain(written, t, writing, Holding(n, |s.disk|));
      assert written.disk == s.disk + [Text(s.threads[t].pid)];
    }
  }

  /** What the verdict on a file leads to: a live lock is left alone, a stale one replaced. */
  lemma VerdictAlone(cfg: Config, s: State, t: nat, n: string, junk: int, f: LockFiles.Faults)
    requires t < |s.threads| && Quiet(cfg, s, t) && n in s.dir && (f.write ==> cfg.faults)
    requires !f.refused && !f.open && !f.read
    ensures Run(cfg, At(s, t, if LiveLock(s, n, junk) then Creating(n) else Unlinking(n)),
                VerdictCalls(t, LiveLock(s, n, junk), f)) == Some(LockEnd(s, t, n, junk, f))
  {
    var free, end := Removed(s, n), LockEnd(s, t, n, junk, f);
    if LiveLock(s, n, junk) && f.create {
      FailsAlone(cfg, s, t, Creating(n));
    } else if LiveLock(s, n, junk) {
      AtAgain(s, t, Creating(n), Idle);
      AloneMoves(cfg, s, t, Creating(n), Create(t), end, [], end);
      assert [Create(t)] + [] == [Create(t)];
    } else if f.unlink {
      FailsAlone(cfg, s, t, Unlinking(n));
    } else {
      CreateAlone(cfg, free, t, n, f);
      AtAgain(free, t, Unlinking(n), Creating(n));
      assert Act(At(s, t, Unlinking(n)), Unlink(t)) == Some(At(free, t, Creating(n)));
      AloneMoves(cfg, s, t, Unlinking(n), Unlink(t), At(free, t, Creating(n)), CreateCalls(t, f), end);
    }
  }

  /** The judgement of a file that is there, from its open. */
  lemma JudgeAlone(cfg: Config, s: State, t: nat, n: string, junk: int, f: LockFiles.Faults)
    requires t < |s.threads| && Quiet(cfg, s, t) && n in s.dir && (f.write ==> cfg.faults) && !f.refused
    ensures Run(cfg, At(s, t, Seen(n)), JudgeCalls(t, junk, LiveLock(s, n, junk), f))
         == Some(LockEnd(s, t, n, junk, f))
  {
    var reading, live, end := Opened(n, s.dir[n]), LiveLock(s, n, junk), LockEnd(s, t, n, junk, f);
    if f.open {
      FailsAlone(cfg, s, t, Seen(n));
    } else {
      var rest := if f.read then [Refuse(t)] else [Read(t, junk)] + ([Kill(t)] + VerdictCalls(t, live, f));
      if f.read {
        FailsAlone(cfg, s, t, reading);
      } else {
        ReadAlone(cfg, s, t, n, junk, f);
      }
      AtAgain(s, t, Seen(n), reading);
      AloneMoves(cfg, s, t, Seen(n), Open(t), At(s, t, reading), rest, end);
    }
  }

  lemma ReadAlone(cfg: Config, s: State, t: nat, n: string, junk: int, f: LockFiles.Faults)
    requires t < |s.threads| && Quiet(cfg, s, t) && n in s.dir && (f.write ==> cfg.faults)
    requires !f.refused && !f.open && !f.read
    ensures Run(cfg, At(s, t, Opened(n, s.dir[n])),
                [Read(t, junk)] + ([Kill(t)] + VerdictCalls(t, LiveLock(s, n, junk), f)))
         == Some(LockEnd(s, t, n, junk, f))
  {
    var live, end := LiveLock(s, n, junk), LockEnd(s, t, n, junk, f);
    var parsed, verdict := Parsed(n, ReadPid(s, s.dir[n], junk)), if live then Creating(n) else Unlinking(n);
    var rest := VerdictCalls(t, live, f);
    VerdictAlone(cfg, s, t, n, junk, f);
    AtAgain(s, t, parsed, verdict);
    AloneMoves(cfg, s, t, parsed, Kill(t), At(s, t, verdict), rest, end);
    AtAgain(s, t, Opened(n, s.dir[n]), parsed);
    AloneMoves(cfg, s, t, Opened(n, s.dir[n]), Read(t, junk), At(s, t, parsed), [Kill(t)] + rest, end);
  }

  lemma StatAlone(cfg: Config, s: State, t: nat, n: string, junk: int, f: LockFiles.Faults)
    requires t < |s.threads| && Quiet(cfg, s, t) && (f.write ==> cfg.faults) && !f.refused
    ensures Run(cfg, At(s, t, Checking(n)),
                [Stat(t)] + (if n !in s.dir then CreateCalls(t, f) else JudgeCalls(t, junk, LiveLock(s, n, junk), f)))
         == Some(LockEnd(s, t, n, junk, f))
  {
    if n !in s.dir {
      assert Removed(s, n).dir == s.dir;
      CreateAlone(cfg, s, t, n, f);
      AtAgain(s, t, Checking(n), Creating(n));
      AloneMoves(cfg, s, t, Checking(n), Stat(t), At(s, t, Creating(n)), CreateCalls(t, f), LockEnd(s, t, n, junk, f));
    } else {
      JudgeAlone(cfg, s, t, n, junk, f);
      AtAgain(s, t, Checking(n), Seen(n));
      AloneMoves(cfg, s, t, Checking(n), Stat(t), At(s, t, Seen(n)), JudgeCalls(t, junk, LiveLock(s, n, junk), f),
                 LockEnd(s, t, n, junk, f));
    }
  }

  /** Left alone, fhs_lock takes the lock exactly when no call of it fails and no live process is judged to have
      it, a left-over file being replaced; a failing create or write leaves no file or an empty one in the
      place of a left-over file, and every other failure changes nothing. */
  lemma LockAlone(cfg: Config, s: State, t: nat, n: string, junk: int, f: LockFiles.Faults)
    requires t < |s.threads| && s.threads[t].pc.Idle? && Quiet(cfg, s, t) && (f.write ==> cfg.faults)
    ensures Run(cfg, s, LockCalls(s, t, n, junk, f)) == Some(LockEnd(s, t, n, junk, f))
  {
    var calls := LockCalls(s, t, n, junk, f);
    if f.refused {
      FailsAlone(cfg, s, t, Checking(n));
    } else {
      StatAlone(cfg, s, t, n, junk, f);
    }
    assert Unblocked(cfg, s, Begin(t, n)) && Next(cfg, s, Begin(t, n)) == Some(At(s, t, Checking(n)));
    assert calls[1..] == if f.refused then [Refuse(t)] else
      [Stat(t)] + (if n !in s.dir then CreateCalls(t, f) else JudgeCalls(t, junk, LiveLock(s, n, junk), f));
  }

  // ---------- fhs_unlock ----------

  /** check_lock_pid finds one of the thread's pids in the name's file; `junk` is what an empty one reads as. */
  predicate OwnLock(s: State, t: nat, n: string, junk: int)
    requires t < |s.threads|
  {
    n in s.dir && MayRemove(s.threads[t], ReadPid(s, s.dir[n], junk))
  }

  function MatchCalls(t: nat, own: bool, f: LockFiles.Faults): seq<Event> {
    if !own then [] else [if f.unlink then Refuse(t) else UnlockUnlink(t)]
  }

  function ReadUnlockCalls(t: nat, junk: int, own: bool, f: LockFiles.Faults): seq<Event> {
    if f.read then [Refuse(t)] else [UnlockRead(t, junk)] + MatchCalls(t, own, f)
  }

  function OpenUnlockCalls(s: State, t: nat, n: string, junk: int, f: LockFiles.Faults): seq<Event>
    requires t < |s.threads|
  {
    if f.open then [Refuse(t)]
    else [UnlockOpen(t)] + (if n in s.dir then ReadUnlockCalls(t, junk, OwnLock(s, t, n, junk), f) else [])
  }

  /** fhs_unlock from the thread that has taken the lock, whatever stands under the name by now. */
  function UnlockCalls(s: State, t: nat, junk: int, f: LockFiles.Faults): seq<Event>
    requires t < |s.threads| && s.threads[t].pc.Holding?
  {
    [BeginUnlock(t)] + OpenUnlockCalls(s, t, s.threads[t].pc.name, junk, f)
  }

  function UnlockEnd(s: State, t: nat, n: string, junk: int, f: LockFiles.Faults): State
    requires t < |s.threads|
  {
    At(if OwnLock(s, t, n, junk) && !f.open && !f.read && !f.unlink then Removed(s, n) else s, t, Idle)
  }

  lemma MatchAlone(cfg: Config, s: State, t: nat, n: string, own: nat, junk: int, f: LockFiles.Faults)
    requires t < |s.threads| && Quiet(cfg, s, t) && OwnLock(s, t, n, junk) && !f.open && !f.read
    ensures Run(cfg, At(s, t, UnlockMatched(n, own)), MatchCalls(t, true, f)) == Some(UnlockEnd(s, t, n, junk, f))
  {
    var matched, end := UnlockMatched(n, own), UnlockEnd(s, t, n, junk, f);
    if f.unlink {
      FailsAlone(cfg, s, t, matched);
    } else {
      AtAgain(Removed(s, n), t, matched, Idle);
      AloneMoves(cfg, s, t, matched, UnlockUnlink(t), end, [], end);
      assert [UnlockUnlink(t)] + [] == [UnlockUnlink(t)];
    }
  }

  lemma ReadUnlockAlone(cfg: Config, s: State, t: nat, n: string, own: nat, junk: int, f: LockFiles.Faults)
    requires t < |s.threads| && Quiet(cfg, s, t) && n in s.dir && !f.open
    ensures Run(cfg, At(s, t, UnlockOpened(n, own, s.dir[n])), ReadUnlockCalls(t, junk, OwnLock(s, t, n, junk), f))
         == Some(UnlockEnd(s, t, n, junk, f))
  {
    var reading, mine := UnlockOpened(n, own, s.dir[n]), OwnLock(s, t, n, junk);
    var pc := if mine then UnlockMatched(n, own) else Idle;
    if f.read {
      FailsAlone(cfg, s, t, reading);
    } else {
      if mine {
        MatchAlone(cfg, s, t, n, own, junk, f);
      }
      AtAgain(s, t, reading, pc);
      AloneMoves(cfg, s, t, reading, UnlockRead(t, junk), At(s, t, pc), MatchCalls(t, mine, f),
                 UnlockEnd(s, t, n, junk, f));
    }
  }

  lemma OpenUnlockAlone(cfg: Config, s: State, t: nat, n: string, own: nat, junk: int, f: LockFiles.Faults)
    requires t < |s.threads| && Quiet(cfg, s, t)
    ensures Run(cfg, At(s, t, Unlocking(n, own)), OpenUnlockCalls(s, t, n, junk, f))
         == Some(UnlockEnd(s, t, n, junk, f))
  {
    var from, end := Unlocking(n, own), UnlockEnd(s, t, n, junk, f);
    if f.open {
      FailsAlone(cfg, s, t, from);
    } else if n in s.dir {
      var reading, rest := UnlockOpened(n, own, s.dir[n]), ReadUnlockCalls(t, junk, OwnLock(s, t, n, junk), f);
      ReadUnlockAlone(cfg, s, t, n, own, junk, f);
      AtAgain(s, t, from, reading);
      AloneMoves(cfg, s, t, from, UnlockOpen(t), At(s, t, reading), rest, end);
    } else {
      AtAgain(s, t, from, Idle);
      AloneMoves(cfg, s, t, from, UnlockOpen(t), end, [], end);
    }
  }

  /** Left alone, fhs_unlock frees the name exactly when its file has one of the thread's pids and no call
      fails, and otherwise changes nothing. */
  lemma UnlockAlone(cfg: Config, s: State, t: nat, junk: int, f: LockFiles.Faults)
    requires t < |s.threads| && s.threads[t].pc.Holding? && Quiet(cfg, s, t)
    ensures Run(cfg, s, UnlockCalls(s, t, junk, f)) == Some(UnlockEnd(s, t, s.threads[t].pc.name, junk, f))
  {
    var n, own := s.threads[t].pc.name, s.threads[t].pc.own;
    OpenUnlockAlone(cfg, s, t, n, own, junk, f);
    AtAgain(s, t, Holding(n, own), Unlocking(n, own));
    assert s.threads[t := s.threads[t].(pc := Holding(n, own))] == s.threads;
    AloneMoves(cfg, s, t, Holding(n, own), BeginUnlock(t), At(s, t, Unlocking(n, own)),
               OpenUnlockCalls(s, t, n, junk, f), UnlockEnd(s, t, n, junk, f));
  }

  // ---------- A lock left behind ----------

  /** The run brings a thread to hold the lock. */
  ghost predicate Takes(cfg: Config, s: State, n: string, es: seq<Event>) {
    Run(cfg, s, es).Some?
    && exists t: nat :: t < |Run(cfg, s, es).value.threads| && Session(Run(cfg, s, es).value.threads[t].pc)
                        && Run(cfg, s, es).value.threads[t].pc.name == n
  }

  lemma {:induction false} NoDeathWithoutFaults(cfg: Config, s: State, pid: int, es: seq<Event>)
    requires Run(cfg, s, es).Some? && Die(pid) in es
    ensures cfg.faults
    decreases |es|
  {
    if es[0] != Die(pid) {
      NoDeathWithoutFaults(cfg, Next(cfg, s, es[0]).value, pid, es[1..]);
    }
  }

  /** A thread can leave its fused stretch without taking or freeing a lock that is not its own. */
  lemma LeavesSection(cfg: Config, s: State, u: nat, n: string, pid: int) returns (es: seq<Event>)
    requires Safe(cfg) && Inv(cfg, s) && Abandoned(s, n, pid) && u < |s.threads| && OnlyInSection(cfg, s, u)
    ensures Run(cfg, s, es).Some?
    ensures var r := Run(cfg, s, es).value;
      Inv(cfg, r) && Abandoned(r, n, pid) && forall t: nat | t < |r.threads| :: !InSection(cfg, r.threads[t].pc)
    decreases InSection(cfg, s.threads[u].pc), s.threads[u].pc.Parsed?
  {
    var pc := s.threads[u].pc;
    es := [];
    if InSection(cfg, pc) {
      assert OwnerOk(s, u);
      var e := if pc.Writing? then Write(u) else if pc.Parsed? then Kill(u) else Refuse(u);
      InvNext(cfg, s, e);
      AbandonedStep(cfg, s, n, pid, e);
      es := LeavesSection(cfg, Next(cfg, s, e).value, u, n, pid);
      assert ([e] + es)[1..] == es;
      es := [e] + es;
    }
  }

  lemma TakesLater(cfg: Config, s: State, n: string, e: Event, es: seq<Event>)
    requires Next(cfg, s, e).Some? && Takes(cfg, Next(cfg, s, e).value, n, es)
    ensures Takes(cfg, s, n, [e] + es)
  {
    assert ([e] + es)[1..] == es;
  }

  lemma TakenWhenStale(cfg: Config, s: State, t: nat, n: string)
    requires t < |s.threads| && s.threads[t].pc.Idle? && Quiet(cfg, s, t) && !LiveLock(s, n, 0)
    ensures Takes(cfg, s, n, LockCalls(s, t, n, 0, LockFiles.NoFaults))
  {
    LockAlone(cfg, s, t, n, 0, LockFiles.NoFaults);
    var end := LockEnd(s, t, n, 0, LockFiles.NoFaults);
    assert t < |end.threads| && end.threads[t].pc == Holding(n, |s.disk|);
  }

  /** Once its process is dead, a new thread takes the lock. */
  lemma TakenAfterDeath(cfg: Config, s: State, n: string, pid: int) returns (es: seq<Event>)
    requires cfg.faults && Abandoned(s, n, pid) && forall u: nat | u < |s.threads| :: !InSection(cfg, s.threads[u].pc)
    ensures Takes(cfg, s, n, es)
  {
    var died := s.(live := s.live - {pid}, threads := Kills(s.threads, pid));
    var me, spawn := Thread(pid + 1, 1, pid + 1, Idle), Spawn(pid + 1, 1, pid + 1);
    var born := died.(live := died.live + {pid + 1}, threads := died.threads + [me]);
    assert Next(cfg, s, Die(pid)) == Some(died) && Next(cfg, died, spawn) == Some(born);
    es := LockCalls(born, |s.threads|, n, 0, LockFiles.NoFaults);
    TakenWhenStale(cfg, born, |s.threads|, n);
    TakesLater(cfg, died, n, spawn, es);
    TakesLater(cfg, s, n, Die(pid), [spawn] + es);
    es := [Die(pid)] + ([spawn] + es);
  }

  /** A lock left behind can be taken again only after the death of its process, which only a configuration
      with faults has, and then it can be, from every such state. */
  lemma AbandonedFreedExactly(cfg: Config, s: State, n: string, pid: int)
    requires Safe(cfg) && Inv(cfg, s) && Abandoned(s, n, pid)
    ensures forall es | Takes(cfg, s, n, es) :: Die(pid) in es
    ensures (exists es :: Takes(cfg, s, n, es)) <==> cfg.faults
  {
    forall es | Takes(cfg, s, n, es) ensures Die(pid) in es && cfg.faults {
      if Die(pid) !in es {
        AbandonedUntilDeath(cfg, s, n, pid, es);
      } else {
        NoDeathWithoutFaults(cfg, s, pid, es);
      }
    }
    if cfg.faults {
      var es := [];
      if u: nat :| u < |s.threads| && InSection(cfg, s.threads[u].pc) {
        es := LeavesSection(cfg, s, u, n, pid);
      }
      var rest := TakenAfterDeath(cfg, Run(cfg, s, es).value, n, pid);
      RunAppend(cfg, s, es, rest);
      assert Takes(cfg, s, n, es + rest);
    }
  }
}
