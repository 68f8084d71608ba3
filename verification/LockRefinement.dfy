/** The lock functions of LockFiles are those of LockProtocol when no other thread interferes, whichever of
    their calls fail: over lock files that match a state of the protocol they leave lock files that match the
    state its system calls lead to. */
module LockRefinement {
  import opened Wrappers
  import opened LockText
  import LockFiles
  import P = LockProtocol
  import LockSession

  const PID_BOUND: int := 10_000_000_000

  function PathOf(dir: string, n: string): string {
    dir + "/LCK.." + n
  }

  lemma PathsDiffer(dir: string, n: string, m: string)
    ensures PathOf(dir, n) == PathOf(dir, m) <==> n == m
  {
    var front := dir + "/LCK..";
    assert PathOf(dir, n)[|front|..] == n && PathOf(dir, m)[|front|..] == m;
  }

  /** The text of a file. */
  function TextOf(content: P.Content): string {
    if content.Text? && content.pid >= 0 then PidText(content.pid) else ""
  }

  predicate IsPid(pid: int) {
    0 <= pid < PID_BOUND
  }

  ghost predicate PidsInRange(s: P.State) {
    forall i | 0 <= i < |s.disk| && s.disk[i].Text? :: IsPid(s.disk[i].pid)
  }

  /** The name stands in the directory and in the lock files alike, with the same text. */
  ghost predicate MatchesAt(files: map<string, string>, dir: string, s: P.State, n: string) {
    && (PathOf(dir, n) in files <==> n in s.dir)
    && (n in s.dir ==> s.dir[n] < |s.disk| && files[PathOf(dir, n)] == TextOf(s.disk[s.dir[n]]))
  }

  ghost predicate Matches(files: map<string, string>, dir: string, s: P.State) {
    PidsInRange(s) && forall n :: MatchesAt(files, dir, s, n)
  }

  /** Both judge a file alike, and fail at the same calls. */
  lemma JudgeAgrees(files: map<string, string>, dir: string, s: P.State, n: string, f: LockFiles.Faults,
                    c: LockFiles.Scene)
    requires Matches(files, dir, s) && c.live == s.live
    ensures var path, junk := PathOf(dir, n), LockFiles.PidIn("", c.junk, c.unset);
      && (LockSession.LiveLock(s, n, junk) <==> n in s.dir && !LockFiles.IsStale(files, path, c))
      && (LockSession.JudgementFails(s, n, junk, f) <==> LockFiles.CheckFails(files, path, f, c))
  {
    assert MatchesAt(files, dir, s, n);
    if n in s.dir && s.disk[s.dir[n]].Text? {
      PidTextRoundTrip(s.disk[s.dir[n]].pid, c.junk);
    }
  }

  lemma IdleMatches(files: map<string, string>, dir: string, s: P.State, t: nat)
    requires Matches(files, dir, s) && t < |s.threads|
    ensures Matches(files, dir, P.At(s, t, P.Idle))
  {
    forall m ensures MatchesAt(files, dir, P.At(s, t, P.Idle), m) {
      assert MatchesAt(files, dir, s, m);
    }
  }

  lemma RemovedMatches(files: map<string, string>, dir: string, s: P.State, n: string)
    requires Matches(files, dir, s)
    ensures Matches(files - {PathOf(dir, n)}, dir, P.Removed(s, n))
  {
    var r := P.Removed(s, n);
    forall m ensures MatchesAt(files - {PathOf(dir, n)}, dir, r, m) {
      assert MatchesAt(files, dir, s, m);
      PathsDiffer(dir, n, m);
    }
  }

  /** A new file stands under the name, empty or with the text of a pid. */
  lemma NewFileMatches(files: map<string, string>, dir: string, s: P.State, n: string, content: P.Content, r: P.State)
    requires Matches(files, dir, s) && (content.Text? ==> IsPid(content.pid))
    requires r.dir == s.dir[n := |s.disk|] && r.disk == s.disk + [content]
    ensures Matches(files[PathOf(dir, n) := TextOf(content)], dir, r)
  {
    var more := files[PathOf(dir, n) := TextOf(content)];
    forall m ensures MatchesAt(more, dir, r, m) {
      assert MatchesAt(files, dir, s, m);
      PathsDiffer(dir, n, m);
    }
  }

  lemma CreateAgrees(files: map<string, string>, dir: string, s: P.State, t: nat, n: string, f: LockFiles.Faults)
    requires Matches(files, dir, s) && t < |s.threads| && IsPid(s.threads[t].pid)
    ensures var path := PathOf(dir, n);
      var after := if f.create then files else files[path := if f.write then "" else PidText(s.threads[t].pid)];
      Matches(after, dir, LockSession.CreateEnd(s, t, n, f))
  {
    var r := LockSession.CreateEnd(s, t, n, f);
    if f.create {
      IdleMatches(files, dir, s, t);
    } else {
      NewFileMatches(files, dir, s, n, if f.write then P.Empty else P.Text(s.threads[t].pid), r);
    }
  }

  /** What fhs_lock makes of a free or stale name is what it makes of the free one. */
  lemma AfterLockOfFree(files: map<string, string>, path: string, pid: nat, f: LockFiles.Faults, c: LockFiles.Scene)
    requires !LockFiles.CheckFails(files, path, f, c) && (path in files ==> LockFiles.IsStale(files, path, c))
    ensures var free := files - {path};
      LockFiles.AfterLock(files, path, pid, f, c)
        == if f.create then free else free[path := if f.write then "" else PidText(pid)]
  {
    assert path !in files ==> files - {path} == files;
    var text := if f.write then "" else PidText(pid);
    assert (files - {path})[path := text] == files[path := text];
  }

  /** When the check does not fail and the name is free or stale. */
  lemma FreeEndAgrees(s: P.State, t: nat, n: string, dir: string, files: map<string, string>, f: LockFiles.Faults,
                      c: LockFiles.Scene)
    requires t < |s.threads| && Matches(files, dir, s) && IsPid(s.threads[t].pid)
    requires var path := PathOf(dir, n);
      !LockFiles.CheckFails(files, path, f, c) && (path in files ==> LockFiles.IsStale(files, path, c))
    ensures Matches(LockFiles.AfterLock(files, PathOf(dir, n), s.threads[t].pid, f, c), dir,
                    LockSession.CreateEnd(P.Removed(s, n), t, n, f))
  {
    AfterLockOfFree(files, PathOf(dir, n), s.threads[t].pid, f, c);
    RemovedMatches(files, dir, s, n);
    CreateAgrees(files - {PathOf(dir, n)}, dir, P.Removed(s, n), t, n, f);
  }

  lemma LockEndAgrees(s: P.State, t: nat, n: string, dir: string, files: map<string, string>, f: LockFiles.Faults,
                      c: LockFiles.Scene)
    requires t < |s.threads| && Matches(files, dir, s) && c.live == s.live && IsPid(s.threads[t].pid)
    ensures var path, end := PathOf(dir, n), LockSession.LockEnd(s, t, n, LockFiles.PidIn("", c.junk, c.unset), f);
      && Matches(LockFiles.AfterLock(files, path, s.threads[t].pid, f, c), dir, end)
      && (end.threads[t].pc.Holding? <==> LockFiles.Creates(files, path, f, c) && !f.write)
  {
    var junk := LockFiles.PidIn("", c.junk, c.unset);
    assert MatchesAt(files, dir, s, n);
    JudgeAgrees(files, dir, s, n, f, c);
    if LockSession.JudgementFails(s, n, junk, f) || LockSession.LiveLock(s, n, junk) {
      IdleMatches(files, dir, s, t);
    } else {
      FreeEndAgrees(s, t, n, dir, files, f, c);
    }
  }

  /** fhs_lock, called alone with any calls failing, does to the lock files what its system calls do to the
      directory, and succeeds exactly when they come to hold the lock. */
  lemma LockAgrees(cfg: P.Config, s: P.State, t: nat, dir: string, files: map<string, string>, filename: string,
                   f: LockFiles.Faults, c: LockFiles.Scene)
    requires |filename| > 0 && t < |s.threads| && s.threads[t].pc.Idle? && LockSession.Quiet(cfg, s, t)
    requires Matches(files, dir, s) && c.live == s.live && IsPid(s.threads[t].pid) && (f.write ==> cfg.faults)
    ensures var n, path := filename[NameStart(filename)..], LockPath(dir, filename);
      var r := P.Run(cfg, s, LockSession.LockCalls(s, t, n, LockFiles.PidIn("", c.junk, c.unset), f));
      && r.Some? && t < |r.value.threads|
      && Matches(LockFiles.AfterLock(files, path, s.threads[t].pid, f, c), dir, r.value)
      && (r.value.threads[t].pc.Holding? <==> LockFiles.Creates(files, path, f, c) && !f.write)
  {
    var n := filename[NameStart(filename)..];
    LockSession.LockAlone(cfg, s, t, n, LockFiles.PidIn("", c.junk, c.unset), f);
    LockEndAgrees(s, t, n, dir, files, f, c);
  }

  /** Both find the same pid in the name's file. */
  lemma OwnershipAgrees(files: map<string, string>, dir: string, s: P.State, t: nat, n: string, junk: string)
    requires Matches(files, dir, s) && t < |s.threads|
    ensures var me, path := s.threads[t], PathOf(dir, n);
      LockSession.OwnLock(s, t, n, Atol(ReadBuffer("", junk)))
      <==> path in files && LockFiles.OursToRemove(files[path], junk, {me.pid, me.ppid, me.openpid})
  {
    assert MatchesAt(files, dir, s, n);
    if n in s.dir && s.disk[s.dir[n]].Text? {
      PidTextRoundTrip(s.disk[s.dir[n]].pid, junk);
    }
  }

  /** And fhs_unlock by a thread that has taken the lock, even when its file is another's or gone by now. */
  lemma UnlockAgrees(cfg: P.Config, s: P.State, t: nat, dir: string, files: map<string, string>, filename: string,
                     junk: string, f: LockFiles.Faults)
    requires |filename| > 0 && t < |s.threads| && s.threads[t].pc.Holding?
    requires LockSession.Quiet(cfg, s, t) && Matches(files, dir, s)
    requires s.threads[t].pc.name == filename[NameStart(filename)..]
    ensures var me, path := s.threads[t], LockPath(dir, filename);
      var unlocks := LockFiles.Unlocks(files, path, {me.pid, me.ppid, me.openpid}, junk, f);
      var r := P.Run(cfg, s, LockSession.UnlockCalls(s, t, Atol(ReadBuffer("", junk)), f));
      && r.Some? && r.value.dir == (if unlocks then s.dir - {me.pc.name} else s.dir)
      && Matches(if unlocks then files - {path} else files, dir, r.value)
  {
    var n, empty := s.threads[t].pc.name, Atol(ReadBuffer("", junk));
    assert LockPath(dir, filename) == PathOf(dir, n);
    OwnershipAgrees(files, dir, s, t, n, junk);
    LockSession.UnlockAlone(cfg, s, t, empty, f);
    RemovedMatches(files, dir, s, n);
    IdleMatches(files, dir, s, t);
    IdleMatches(files - {PathOf(dir, n)}, dir, P.Removed(s, n), t);
  }

  /** Once fhs_lock has taken the lock, a call that fails before fhs_unlock leaves it behind. */
  lemma FailsHolding(cfg: P.Config, s: P.State, calls: seq<P.Event>, held: P.State, t: nat)
    requires P.Safe(cfg) && P.Inv(cfg, s) && P.Run(cfg, s, calls) == Some(held)
    requires t < |held.threads| && held.threads[t].pc.Holding? && LockSession.Quiet(cfg, held, t)
    ensures var r := P.At(held, t, P.Idle);
      && P.Run(cfg, s, calls + [P.Refuse(t)]) == Some(r) && P.Inv(cfg, r)
      && P.Abandoned(r, held.threads[t].pc.name, held.threads[t].pid)
  {
    P.InvRun(cfg, s, calls);
    P.FailureAbandons(cfg, held, t);
    P.InvNext(cfg, held, P.Refuse(t));
    P.RunAppend(cfg, s, calls, [P.Refuse(t)]);
    assert [P.Refuse(t)][1..] == [];
  }

  /** An open() that fails after its lock leaves one, in every safe configuration, that nobody can take before
      its process dies; what it does to the lock files is what its system calls do. */
  lemma FailedOpenAbandons(cfg: P.Config, s: P.State, t: nat, dir: string, files: map<string, string>, filename: string,
                           f: LockFiles.Faults, c: LockFiles.Scene) returns (r: P.State)
    requires |filename| > 0 && t < |s.threads| && s.threads[t].pc.Idle? && LockSession.Quiet(cfg, s, t)
    requires Matches(files, dir, s) && c.live == s.live && IsPid(s.threads[t].pid)
    requires P.Safe(cfg) && P.Inv(cfg, s)
    requires LockFiles.Creates(files, LockPath(dir, filename), f, c) && !f.write
    ensures var n, path, pid := filename[NameStart(filename)..], LockPath(dir, filename), s.threads[t].pid;
      var calls := LockSession.LockCalls(s, t, n, LockFiles.PidIn("", c.junk, c.unset), f) + [P.Refuse(t)];
      && P.Run(cfg, s, calls) == Some(r)
      && Matches(LockFiles.AfterLock(files, path, pid, f, c), dir, r) && P.Abandoned(r, n, pid)
      && forall es | LockSession.Takes(cfg, r, n, es) :: P.Die(pid) in es
  {
    var n, junk := filename[NameStart(filename)..], LockFiles.PidIn("", c.junk, c.unset);
    var held := LockSession.LockEnd(s, t, n, junk, f);
    LockSession.LockAlone(cfg, s, t, n, junk, f);
    LockAgrees(cfg, s, t, dir, files, filename, f, c);
    FailsHolding(cfg, s, LockSession.LockCalls(s, t, n, junk, f), held, t);
    r := P.At(held, t, P.Idle);
    IdleMatches(LockFiles.AfterLock(files, LockPath(dir, filename), s.threads[t].pid, f, c), dir, held, t);
    LockSession.AbandonedFreedExactly(cfg, r, n, s.threads[t].pid);
  }
}
