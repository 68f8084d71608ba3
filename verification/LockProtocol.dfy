/** The FHS lock-file protocol between processes, one system call per step.

    Any number of threads run fhs_lock and fhs_unlock over one lock directory.
    The directory maps a lock name to an inode and the disk gives an inode its
    content, so a descriptor opened before an unlink still reads the old file.
    A configuration says which system calls are taken together without
    interleaving and whether faults (a process dying, a pid write failing) may
    happen; `ExclusionExactly` says for which configurations the lock excludes. */
module LockProtocol {
  import opened Wrappers

  /** What a lock file holds: nothing yet, or the text of a pid. */
  datatype Content = Empty | Text(pid: int)

  /** The first system call of the stale-lock removal that is taken in one step
      with the unlink: open, read, kill, or the unlink alone. */
  datatype FusedFrom = OpenOn | ReadOn | KillOn | UnlinkOnly

  datatype Config = Config(fusedCreate: bool, fused: FusedFrom, faults: bool)

  /** Where a thread stands: in fhs_lock up to `Writing`, holding, then in fhs_unlock. */
  datatype Pc =
    | Idle
    | Checking(name: string)
    | Seen(name: string)
    | Opened(name: string, inode: nat)
    | Parsed(name: string, lockPid: int)
    | Unlinking(name: string)
    | Creating(name: string)
    | Writing(name: string, own: nat)
    | Holding(name: string, own: nat)
    | Unlocking(name: string, own: nat)
    | UnlockOpened(name: string, own: nat, inode: nat)
    | UnlockMatched(name: string, own: nat)
    | Dead

  datatype Thread = Thread(pid: int, ppid: int, openpid: int, pc: Pc)

  datatype State = State(live: set<int>, dir: map<string, nat>, disk: seq<Content>, threads: seq<Thread>)

  /** `junk` is what the uninitialised pid variable holds when the file read is empty. */
  datatype Event =
    | Spawn(pid: int, ppid: int, openpid: int)
    | Die(pid: int)
    | Begin(t: nat, lock: string)
    | Refuse(t: nat)
    | Stat(t: nat)
    | Open(t: nat)
    | Read(t: nat, junk: int)
    | Kill(t: nat)
    | Unlink(t: nat)
    | Create(t: nat)
    | Write(t: nat)
    | WriteFails(t: nat)
    | BeginUnlock(t: nat)
    | UnlockOpen(t: nat)
    | UnlockRead(t: nat, junk: int)
    | UnlockUnlink(t: nat)

  /** A live lock session: from the written lock file to the end of fhs_unlock. */
  predicate Session(pc: Pc) {
    pc.Holding? || pc.Unlocking? || pc.UnlockOpened? || pc.UnlockMatched?
  }

  predicate Owns(pc: Pc) {
    pc.Writing? || Session(pc)
  }

  /** Where the next system call may fail and end the function without effect. While the lock is held that
      is any call open() makes after its lock: it then returns without fhs_unlock. */
  predicate MayFail(pc: Pc) {
    pc.Checking? || pc.Seen? || pc.Opened? || pc.Unlinking? || pc.Creating? || Session(pc)
  }

  /** Inside a stretch of system calls the configuration takes as one step. */
  predicate InSection(cfg: Config, pc: Pc) {
    || (cfg.fusedCreate && pc.Writing?)
    || (pc.Unlinking? && !cfg.fused.UnlinkOnly?)
    || (pc.Parsed? && (cfg.fused.OpenOn? || cfg.fused.ReadOn?))
    || (pc.Opened? && cfg.fused.OpenOn?)
  }

  function At(s: State, t: nat, pc: Pc): State
    requires t < |s.threads|
  {
    s.(threads := s.threads[t := s.threads[t].(pc := pc)])
  }

  function Kills(threads: seq<Thread>, pid: int): seq<Thread> {
    seq(|threads|, t requires 0 <= t < |threads| =>
      if threads[t].pid == pid then threads[t].(pc := Dead) else threads[t])
  }

  function ReadPid(s: State, inode: nat, junk: int): int {
    if inode < |s.disk| && s.disk[inode].Text? then s.disk[inode].pid else junk
  }

  /** check_lock_pid: the pid read is this thread's, its parent's, or the one the port was opened under. */
  predicate MayRemove(me: Thread, lockPid: int) {
    lockPid == me.pid || lockPid == me.ppid || lockPid == me.openpid
  }

  function Removed(s: State, name: string): State {
    s.(dir := s.dir - {name})
  }

  function Created(s: State, name: string): State {
    s.(dir := s.dir[name := |s.disk|], disk := s.disk + [Empty])
  }

  /** No thread but the one taking the step is inside a fused stretch. */
  predicate Unblocked(cfg: Config, s: State, e: Event) {
    forall u: nat | u < |s.threads| && InSection(cfg, s.threads[u].pc) ::
      !e.Spawn? && !e.Die? && !e.Begin? && e.t == u
  }

  /** One thread's system call; None when it is not that thread's next one. */
  function Act(s: State, e: Event): Option<State>
    requires !e.Spawn? && !e.Die?
  {
    if e.t >= |s.threads| then None else
    var t, pc := e.t, s.threads[e.t].pc;
    match e
    case Begin(_, lock) => if pc.Idle? then Some(At(s, t, Checking(lock))) else None
    case Refuse(_) => if MayFail(pc) then Some(At(s, t, Idle)) else None
    case Stat(_) =>
      if !pc.Checking? then None
      else Some(At(s, t, if pc.name in s.dir then Seen(pc.name) else Creating(pc.name)))
    case Open(_) =>
      if !pc.Seen? then None
      else Some(At(s, t, if pc.name in s.dir then Opened(pc.name, s.dir[pc.name]) else Idle))
    case Read(_, junk) =>
      if !pc.Opened? then None else Some(At(s, t, Parsed(pc.name, ReadPid(s, pc.inode, junk))))
    case Kill(_) =>
      if !pc.Parsed? then None
      else Some(At(s, t, if pc.lockPid in s.live then Creating(pc.name) else Unlinking(pc.name)))
    case Unlink(_) =>
      if !pc.Unlinking? then None
      else if pc.name in s.dir then Some(At(Removed(s, pc.name), t, Creating(pc.name)))
      else Some(At(s, t, Idle))
    case Create(_) =>
      if !pc.Creating? then None
      else if pc.name in s.dir then Some(At(s, t, Idle))
      else Some(At(Created(s, pc.name), t, Writing(pc.name, |s.disk|)))
    case Write(_) =>
      if pc.Writing? && pc.own < |s.disk| then
        Some(At(s.(disk := s.disk[pc.own := Text(s.threads[t].pid)]), t, Holding(pc.name, pc.own)))
      else None
    case WriteFails(_) => if pc.Writing? then Some(At(s, t, Idle)) else None
    case BeginUnlock(_) => if pc.Holding? then Some(At(s, t, Unlocking(pc.name, pc.own))) else None
    case UnlockOpen(_) =>
      if !pc.Unlocking? then None
      else Some(At(s, t, if pc.name in s.dir then UnlockOpened(pc.name, pc.own, s.dir[pc.name]) else Idle))
    case UnlockRead(_, junk) =>
      if !pc.UnlockOpened? then None
      else Some(At(s, t, if MayRemove(s.threads[t], ReadPid(s, pc.inode, junk))
                         then UnlockMatched(pc.name, pc.own) else Idle))
    case UnlockUnlink(_) =>
      if pc.UnlockMatched? then Some(At(Removed(s, pc.name), t, Idle)) else None
  }

  function Next(cfg: Config, s: State, e: Event): Option<State> {
    if !Unblocked(cfg, s, e) then None else
    match e
    case Spawn(pid, ppid, openpid) =>
      Some(s.(live := s.live + {pid}, threads := s.threads + [Thread(pid, ppid, openpid, Idle)]))
    case Die(pid) =>
      if cfg.faults then Some(s.(live := s.live - {pid}, threads := Kills(s.threads, pid))) else None
    case WriteFails(_) => if cfg.faults then Act(s, e) else None
    case _ => Act(s, e)
  }

  function Run(cfg: Config, s: State, es: seq<Event>): Option<State>
    decreases |es|
  {
    if es == [] then Some(s) else
    var r := Next(cfg, s, es[0]);
    if r.None? then None else Run(cfg, r.value, es[1..])
  }

  /** A run starts with no thread. With faults the directory may hold anything,
      left-over locks of dead processes included; without, every file names a live process. */
  ghost predicate Init(cfg: Config, s: State) {
    && s.threads == []
    && (forall n | n in s.dir :: s.dir[n] < |s.disk|)
    && (!cfg.faults ==> forall i | 0 <= i < |s.disk| :: s.disk[i].Text? && s.disk[i].pid in s.live)
  }

  /** What the protocol is for. */
  ghost predicate Exclusive(s: State) {
    && (forall t: nat | t < |s.threads| && Session(s.threads[t].pc) ::
          var n := s.threads[t].pc.name;
          n in s.dir && s.dir[n] < |s.disk| && s.disk[s.dir[n]] == Text(s.threads[t].pid))
    && (forall t: nat, u: nat | t < |s.threads| && u < |s.threads| && t != u
                      && Session(s.threads[t].pc) && Session(s.threads[u].pc) ::
          s.threads[t].pc.name != s.threads[u].pc.name)
  }

  predicate Safe(cfg: Config) {
    cfg.fusedCreate && (cfg.faults ==> cfg.fused.OpenOn?)
  }

  // ---------- The invariant ----------

  ghost predicate OwnerOk(s: State, t: nat)
    requires t < |s.threads|
  {
    var me := s.threads[t];
    && (!me.pc.Dead? ==> me.pid in s.live)
    && (Owns(me.pc) ==>
          && me.pc.name in s.dir && s.dir[me.pc.name] == me.pc.own < |s.disk|
          && s.disk[me.pc.own] == if me.pc.Writing? then Empty else Text(me.pid))
    && (me.pc.UnlockOpened? ==> me.pc.inode == me.pc.own)
  }

  /** With faults: what a thread inside the fused removal knows of the file it judges. */
  ghost predicate JudgesCurrentFile(s: State, pc: Pc) {
    && (pc.Opened? ==> pc.name in s.dir && s.dir[pc.name] == pc.inode < |s.disk|)
    && (pc.Parsed? ==>
          && pc.name in s.dir && s.dir[pc.name] < |s.disk|
          && (s.disk[s.dir[pc.name]].Text? ==> s.disk[s.dir[pc.name]].pid == pc.lockPid))
    && (pc.Unlinking? ==>
          && pc.name in s.dir && s.dir[pc.name] < |s.disk|
          && (s.disk[s.dir[pc.name]].Text? ==> s.disk[s.dir[pc.name]].pid !in s.live))
  }

  /** Without faults: no dead pid is ever read, so no thread ever unlinks a stale lock. */
  ghost predicate SeesOnlyLive(s: State, pc: Pc) {
    && !pc.Unlinking?
    && (pc.Parsed? ==> pc.lockPid in s.live)
    && (pc.Opened? ==> pc.inode < |s.disk|)
  }

  ghost predicate FilesLive(s: State) {
    forall i | 0 <= i < |s.disk| ::
      (s.disk[i].Text? && s.disk[i].pid in s.live)
      || (exists t: nat :: t < |s.threads| && s.threads[t].pc.Writing? && s.threads[t].pc.own == i)
  }

  ghost predicate Inv(cfg: Config, s: State) {
    && (forall n | n in s.dir :: s.dir[n] < |s.disk|)
    && (forall t: nat | t < |s.threads| :: OwnerOk(s, t))
    && (forall t: nat, u: nat | t < |s.threads| && u < |s.threads| && t != u
                      && Owns(s.threads[t].pc) && Owns(s.threads[u].pc) ::
          s.threads[t].pc.own != s.threads[u].pc.own)
    && (forall t: nat, u: nat | t < |s.threads| && u < |s.threads|
                      && InSection(cfg, s.threads[t].pc) && InSection(cfg, s.threads[u].pc) :: t == u)
    && (cfg.faults ==> forall t: nat | t < |s.threads| :: JudgesCurrentFile(s, s.threads[t].pc))
    && (!cfg.faults ==> FilesLive(s) && forall t: nat | t < |s.threads| :: SeesOnlyLive(s, s.threads[t].pc))
  }

  ghost predicate OnlyInSection(cfg: Config, s: State, t: nat) {
    forall u: nat | u < |s.threads| && InSection(cfg, s.threads[u].pc) :: u == t
  }

  predicate SameSession(from: Pc, to: Pc) {
    Session(from) && Session(to) && from.own == to.own && from.name == to.name
  }

  /** A step that only moves one thread on, with what the thread must know to stand there. */
  lemma InvMoved(cfg: Config, s: State, t: nat, pc: Pc)
    requires Inv(cfg, s) && t < |s.threads| && !pc.Dead? && !s.threads[t].pc.Dead?
    requires Owns(pc) ==> SameSession(s.threads[t].pc, pc)
    requires pc.UnlockOpened? ==> pc.inode == pc.own
    requires OnlyInSection(cfg, s, t)
    requires cfg.faults ==> JudgesCurrentFile(s, pc)
    requires !cfg.faults ==> SeesOnlyLive(s, pc) && !s.threads[t].pc.Writing?
    ensures Inv(cfg, At(s, t, pc))
  {
    var r := At(s, t, pc);
    assert OwnerOk(s, t);
    forall u: nat | u < |r.threads|
      ensures OwnerOk(r, u) && (cfg.faults ==> JudgesCurrentFile(r, r.threads[u].pc))
      ensures !cfg.faults ==> SeesOnlyLive(r, r.threads[u].pc)
    {
      if u != t {
        assert r.threads[u] == s.threads[u] && OwnerOk(s, u);
      }
    }
    if !cfg.faults {
      forall i | 0 <= i < |r.disk|
        ensures (r.disk[i].Text? && r.disk[i].pid in r.live)
                || (exists u: nat :: u < |r.threads| && r.threads[u].pc.Writing? && r.threads[u].pc.own == i)
      {
        if !(s.disk[i].Text? && s.disk[i].pid in s.live) {
          var u: nat :| u < |s.threads| && s.threads[u].pc.Writing? && s.threads[u].pc.own == i;
          assert r.threads[u] == s.threads[u];
        }
      }
    }
  }

  /** The new file's inode is no other owner's, and every other file is as it was. */
  lemma InvCreated(cfg: Config, s: State, t: nat, n: string, r: State)
    requires Safe(cfg) && Inv(cfg, s) && t < |s.threads| && s.threads[t].pc == Creating(n) && n !in s.dir
    requires forall u: nat | u < |s.threads| :: !InSection(cfg, s.threads[u].pc)
    requires r.live == s.live && r.dir == s.dir[n := |s.disk|] && r.disk == s.disk + [Empty]
    requires r.threads == s.threads[t := s.threads[t].(pc := Writing(n, |s.disk|))]
    ensures Inv(cfg, r)
  {
    assert OwnerOk(s, t);
    forall u: nat | u < |r.threads|
      ensures OwnerOk(r, u) && (cfg.faults ==> JudgesCurrentFile(r, r.threads[u].pc))
      ensures !cfg.faults ==> SeesOnlyLive(r, r.threads[u].pc)
    {
      if u != t {
        assert r.threads[u] == s.threads[u] && OwnerOk(s, u);
      }
    }
    if !cfg.faults {
      forall i | 0 <= i < |r.disk|
        ensures (r.disk[i].Text? && r.disk[i].pid in r.live)
                || (exists u: nat :: u < |r.threads| && r.threads[u].pc.Writing? && r.threads[u].pc.own == i)
      {
        if i == |s.disk| {
          assert r.threads[t].pc.Writing?;
        } else {
          assert r.disk[i] == s.disk[i];
        }
      }
    }
  }

  /** Writing the pid completes the one empty file. */
  lemma InvWritten(cfg: Config, s: State, t: nat, r: State)
    requires Safe(cfg) && Inv(cfg, s) && t < |s.threads| && s.threads[t].pc.Writing? && OnlyInSection(cfg, s, t)
    requires s.threads[t].pc.own < |s.disk|
    requires var pc := s.threads[t].pc;
      r == At(s.(disk := s.disk[pc.own := Text(s.threads[t].pid)]), t, Holding(pc.name, pc.own))
    ensures Inv(cfg, r)
  {
    assert OwnerOk(s, t);
    forall u: nat | u < |r.threads|
      ensures OwnerOk(r, u) && (cfg.faults ==> JudgesCurrentFile(r, r.threads[u].pc))
      ensures !cfg.faults ==> SeesOnlyLive(r, r.threads[u].pc)
    {
      if u != t {
        assert r.threads[u] == s.threads[u] && OwnerOk(s, u);
      }
    }
  }

  /** The name removed is nobody else's: a session's own, or one whose file names a dead process. */
  lemma InvRemoved(cfg: Config, s: State, t: nat, pc: Pc)
    requires Safe(cfg) && Inv(cfg, s) && t < |s.threads| && OnlyInSection(cfg, s, t)
    requires s.threads[t].pc.Unlinking? || s.threads[t].pc.UnlockMatched?
    requires pc.Idle? || pc.Creating?
    ensures Inv(cfg, At(Removed(s, s.threads[t].pc.name), t, pc))
  {
    var r := At(Removed(s, s.threads[t].pc.name), t, pc);
    assert OwnerOk(s, t);
    forall u: nat | u < |r.threads|
      ensures OwnerOk(r, u) && (cfg.faults ==> JudgesCurrentFile(r, r.threads[u].pc))
      ensures !cfg.faults ==> SeesOnlyLive(r, r.threads[u].pc)
    {
      if u != t {
        assert r.threads[u] == s.threads[u] && OwnerOk(s, u);
      }
    }
    assert r.disk == s.disk;
    if !cfg.faults {
      forall i | 0 <= i < |r.disk| ensures r.disk[i].Text? && r.disk[i].pid in r.live {}
    }
  }

  lemma InvDied(cfg: Config, s: State, pid: int)
    requires Safe(cfg) && cfg.faults && Inv(cfg, s)
    requires forall u: nat | u < |s.threads| :: !InSection(cfg, s.threads[u].pc)
    ensures Inv(cfg, s.(live := s.live - {pid}, threads := Kills(s.threads, pid)))
  {
    var r := s.(live := s.live - {pid}, threads := Kills(s.threads, pid));
    forall u: nat | u < |r.threads| ensures OwnerOk(r, u) && JudgesCurrentFile(r, r.threads[u].pc) {
      assert OwnerOk(s, u);
    }
  }

  lemma InvSpawned(cfg: Config, s: State, me: Thread)
    requires Safe(cfg) && Inv(cfg, s) && me.pc.Idle?
    requires forall u: nat | u < |s.threads| :: !InSection(cfg, s.threads[u].pc)
    ensures Inv(cfg, s.(live := s.live + {me.pid}, threads := s.threads + [me]))
  {
    var r := s.(live := s.live + {me.pid}, threads := s.threads + [me]);
    forall u: nat | u < |r.threads|
      ensures OwnerOk(r, u) && (cfg.faults ==> JudgesCurrentFile(r, r.threads[u].pc))
      ensures !cfg.faults ==> SeesOnlyLive(r, r.threads[u].pc)
    {
      if u < |s.threads| {
        assert r.threads[u] == s.threads[u] && OwnerOk(s, u);
      }
    }
  }

  lemma InvLockAct(cfg: Config, s: State, e: Event)
    requires Safe(cfg) && Inv(cfg, s) && !e.Spawn? && !e.Die? && Next(cfg, s, e).Some?
    requires !e.BeginUnlock? && !e.UnlockOpen? && !e.UnlockRead? && !e.UnlockUnlink?
    ensures Inv(cfg, Next(cfg, s, e).value)
  {
    var t, pc := e.t, s.threads[e.t].pc;
    assert OwnerOk(s, t) && OnlyInSection(cfg, s, t);
    match e
    case Begin(_, lock) => InvMoved(cfg, s, t, Checking(lock));
    case Refuse(_) => InvMoved(cfg, s, t, Idle);
    case Stat(_) => InvMoved(cfg, s, t, if pc.name in s.dir then Seen(pc.name) else Creating(pc.name));
    case Open(_) => InvMoved(cfg, s, t, if pc.name in s.dir then Opened(pc.name, s.dir[pc.name]) else Idle);
    case Read(_, junk) => InvMoved(cfg, s, t, Parsed(pc.name, ReadPid(s, pc.inode, junk)));
    case Kill(_) =>
      InvMoved(cfg, s, t, if pc.lockPid in s.live then Creating(pc.name) else Unlinking(pc.name));
    case Unlink(_) =>
      if pc.name in s.dir { InvRemoved(cfg, s, t, Creating(pc.name)); } else { InvMoved(cfg, s, t, Idle); }
    case Create(_) =>
      if pc.name in s.dir {
        InvMoved(cfg, s, t, Idle);
      } else {
        InvCreated(cfg, s, t, pc.name, At(Created(s, pc.name), t, Writing(pc.name, |s.disk|)));
      }
    case Write(_) => InvWritten(cfg, s, t, Next(cfg, s, e).value);
    case WriteFails(_) => InvMoved(cfg, s, t, Idle);
  }

  lemma InvUnlockAct(cfg: Config, s: State, e: Event)
    requires Safe(cfg) && Inv(cfg, s) && Next(cfg, s, e).Some?
    requires e.BeginUnlock? || e.UnlockOpen? || e.UnlockRead? || e.UnlockUnlink?
    ensures Inv(cfg, Next(cfg, s, e).value)
    ensures !s.threads[e.t].pc.UnlockMatched? ==> Session(Next(cfg, s, e).value.threads[e.t].pc)
  {
    var t, pc := e.t, s.threads[e.t].pc;
    assert OwnerOk(s, t) && OnlyInSection(cfg, s, t);
    match e
    case BeginUnlock(_) => InvMoved(cfg, s, t, Unlocking(pc.name, pc.own));
    case UnlockOpen(_) => InvMoved(cfg, s, t, UnlockOpened(pc.name, pc.own, s.dir[pc.name]));
    case UnlockRead(_, junk) => InvMoved(cfg, s, t, UnlockMatched(pc.name, pc.own));
    case UnlockUnlink(_) => InvRemoved(cfg, s, t, Idle);
  }

  lemma InvNext(cfg: Config, s: State, e: Event)
    requires Safe(cfg) && Inv(cfg, s) && Next(cfg, s, e).Some?
    ensures Inv(cfg, Next(cfg, s, e).value)
  {
    match e
    case Spawn(pid, ppid, openpid) => InvSpawned(cfg, s, Thread(pid, ppid, openpid, Idle));
    case Die(pid) => InvDied(cfg, s, pid);
    case BeginUnlock(_) => InvUnlockAct(cfg, s, e);
    case UnlockOpen(_) => InvUnlockAct(cfg, s, e);
    case UnlockRead(_, _) => InvUnlockAct(cfg, s, e);
    case UnlockUnlink(_) => InvUnlockAct(cfg, s, e);
    case _ => InvLockAct(cfg, s, e);
  }

  lemma {:induction false} InvRun(cfg: Config, s: State, es: seq<Event>)
    requires Safe(cfg) && Inv(cfg, s) && Run(cfg, s, es).Some?
    ensures Inv(cfg, Run(cfg, s, es).value)
    decreases |es|
  {
    if es != [] {
      InvNext(cfg, s, es[0]);
      InvRun(cfg, Next(cfg, s, es[0]).value, es[1..]);
    }
  }

  lemma InvExcludes(cfg: Config, s: State)
    requires Inv(cfg, s)
    ensures Exclusive(s)
  {
    forall t: nat | t < |s.threads| && Session(s.threads[t].pc) ensures OwnerOk(s, t) {}
  }

  // ---------- Runs of two threads that end with both holding the lock ----------

  /** Threads 0 and 1, of processes 10 and 11, over the one lock name `n`. */
  function Two(n: string, file: Option<nat>, disk: seq<Content>, pc0: Pc, pc1: Pc): State {
    State({10, 11}, if file.Some? then map[n := file.value] else map[], disk,
          [Thread(10, 1, 10, pc0), Thread(11, 1, 11, pc1)])
  }

  /** Equality of states, field by field. */
  predicate Same(a: State, b: State) {
    a.live == b.live && a.dir == b.dir && a.disk == b.disk && a.threads == b.threads
  }

  lemma {:induction false} RunAppend(cfg: Config, s: State, es: seq<Event>, more: seq<Event>)
    requires Run(cfg, s, es).Some?
    ensures Run(cfg, s, es + more) == Run(cfg, Run(cfg, s, es).value, more)
    decreases |es|
  {
    if es == [] {
      assert es + more == more;
    } else {
      assert (es + more)[1..] == es[1..] + more;
      RunAppend(cfg, Next(cfg, s, es[0]).value, es[1..], more);
    }
  }

  /** One thread of two moves on while the other stays outside every fused stretch. */
  lemma TwoExtends(cfg: Config, s: State, es: seq<Event>, a: State, e: Event, b: State)
    requires Run(cfg, s, es) == Some(a)
    requires |a.threads| == 2 && !e.Spawn? && !e.Die? && !e.WriteFails? && e.t < 2
    requires e.Begin? ==> !InSection(cfg, a.threads[e.t].pc)
    requires !InSection(cfg, a.threads[1 - e.t].pc)
    requires Act(a, e).Some? && Same(Act(a, e).value, b)
    ensures Run(cfg, s, es + [e]) == Some(b)
  {
    RunAppend(cfg, s, es, [e]);
    assert Next(cfg, a, e) == Some(b);
    assert Run(cfg, a, [e]) == Run(cfg, b, []);
  }

  /** Thread 0 is left with a descriptor on the stale file. */
  lemma OpensStale(cfg: Config, n: string, d: seq<Content>, s: State, es: seq<Event>) returns (fs: seq<Event>)
    requires !cfg.fused.OpenOn?
    requires Run(cfg, s, es) == Some(Two(n, Some(0), d, Idle, Idle))
    ensures Run(cfg, s, fs) == Some(Two(n, Some(0), d, Opened(n, 0), Idle))
  {
    var a, b := Two(n, Some(0), d, Checking(n), Idle), Two(n, Some(0), d, Seen(n), Idle);
    TwoExtends(cfg, s, es, Two(n, Some(0), d, Idle, Idle), Begin(0, n), a);
    TwoExtends(cfg, s, es + [Begin(0, n)], a, Stat(0), b);
    fs := es + [Begin(0, n)] + [Stat(0)] + [Open(0)];
    TwoExtends(cfg, s, es + [Begin(0, n)] + [Stat(0)], b, Open(0), Two(n, Some(0), d, Opened(n, 0), Idle));
  }

  /** Thread 1 judges the file under the name dead, having read pid 9 or an empty file with 9 left over. */
  lemma JudgesDead(cfg: Config, n: string, f: nat, d: seq<Content>, pc0: Pc, s: State, es: seq<Event>)
    returns (fs: seq<Event>)
    requires f < |d| && (d[f].Text? ==> d[f].pid == 9) && !InSection(cfg, pc0)
    requires Run(cfg, s, es) == Some(Two(n, Some(f), d, pc0, Idle))
    ensures Run(cfg, s, fs) == Some(Two(n, Some(f), d, pc0, Unlinking(n)))
  {
    TwoExtends(cfg, s, es, Two(n, Some(f), d, pc0, Idle), Begin(1, n), Two(n, Some(f), d, pc0, Checking(n)));
    fs := es + [Begin(1, n)];
    TwoExtends(cfg, s, fs, Two(n, Some(f), d, pc0, Checking(n)), Stat(1), Two(n, Some(f), d, pc0, Seen(n)));
    fs := fs + [Stat(1)];
    TwoExtends(cfg, s, fs, Two(n, Some(f), d, pc0, Seen(n)), Open(1), Two(n, Some(f), d, pc0, Opened(n, f)));
    fs := fs + [Open(1)];
    TwoExtends(cfg, s, fs, Two(n, Some(f), d, pc0, Opened(n, f)), Read(1, 9), Two(n, Some(f), d, pc0, Parsed(n, 9)));
    fs := fs + [Read(1, 9)];
    TwoExtends(cfg, s, fs, Two(n, Some(f), d, pc0, Parsed(n, 9)), Kill(1), Two(n, Some(f), d, pc0, Unlinking(n)));
    fs := fs + [Kill(1)];
  }

  lemma Replaces1(cfg: Config, n: string, f: nat, d: seq<Content>, pc0: Pc, s: State, es: seq<Event>)
    returns (fs: seq<Event>)
    requires !InSection(cfg, pc0)
    requires Run(cfg, s, es) == Some(Two(n, Some(f), d, pc0, Unlinking(n)))
    ensures Run(cfg, s, fs) == Some(Two(n, Some(|d|), d + [Text(11)], pc0, Holding(n, |d|)))
  {
    var removed, created := Two(n, None, d, pc0, Creating(n)), Two(n, Some(|d|), d + [Empty], pc0, Writing(n, |d|));
    TwoExtends(cfg, s, es, Two(n, Some(f), d, pc0, Unlinking(n)), Unlink(1), removed);
    TwoExtends(cfg, s, es + [Unlink(1)], removed, Create(1), created);
    fs := es + [Unlink(1)] + [Create(1)] + [Write(1)];
    TwoExtends(cfg, s, es + [Unlink(1)] + [Create(1)], created, Write(1),
               Two(n, Some(|d|), d + [Text(11)], pc0, Holding(n, |d|)));
  }

  /** Thread 0, still holding a descriptor on the stale file, judges that one. */
  lemma JudgesOld(cfg: Config, n: string, f: nat, d: seq<Content>, pc1: Pc, s: State, es: seq<Event>)
    returns (fs: seq<Event>)
    requires 0 < |d| && d[0] == Text(9) && !InSection(cfg, pc1)
    requires Run(cfg, s, es) == Some(Two(n, Some(f), d, Opened(n, 0), pc1))
    ensures Run(cfg, s, fs) == Some(Two(n, Some(f), d, Unlinking(n), pc1))
  {
    TwoExtends(cfg, s, es, Two(n, Some(f), d, Opened(n, 0), pc1), Read(0, 9), Two(n, Some(f), d, Parsed(n, 9), pc1));
    fs := es + [Read(0, 9)] + [Kill(0)];
    TwoExtends(cfg, s, es + [Read(0, 9)], Two(n, Some(f), d, Parsed(n, 9), pc1), Kill(0),
               Two(n, Some(f), d, Unlinking(n), pc1));
  }

  lemma Replaces0(cfg: Config, n: string, f: nat, d: seq<Content>, pc1: Pc, s: State, es: seq<Event>)
    returns (fs: seq<Event>)
    requires !InSection(cfg, pc1)
    requires Run(cfg, s, es) == Some(Two(n, Some(f), d, Unlinking(n), pc1))
    ensures Run(cfg, s, fs) == Some(Two(n, Some(|d|), d + [Text(10)], Holding(n, |d|), pc1))
  {
    var removed, created := Two(n, None, d, Creating(n), pc1), Two(n, Some(|d|), d + [Empty], Writing(n, |d|), pc1);
    TwoExtends(cfg, s, es, Two(n, Some(f), d, Unlinking(n), pc1), Unlink(0), removed);
    TwoExtends(cfg, s, es + [Unlink(0)], removed, Create(0), created);
    fs := es + [Unlink(0)] + [Create(0)] + [Write(0)];
    TwoExtends(cfg, s, es + [Unlink(0)] + [Create(0)], created, Write(0),
               Two(n, Some(|d|), d + [Text(10)], Holding(n, |d|), pc1));
  }

  /** Thread 0 has created its lock file and not yet written its pid. */
  lemma CreatesEmpty(cfg: Config, n: string, s: State, es: seq<Event>) returns (fs: seq<Event>)
    requires Run(cfg, s, es) == Some(Two(n, None, [], Idle, Idle))
    ensures Run(cfg, s, fs) == Some(Two(n, Some(0), [Empty], Writing(n, 0), Idle))
  {
    var a, b := Two(n, None, [], Checking(n), Idle), Two(n, None, [], Creating(n), Idle);
    TwoExtends(cfg, s, es, Two(n, None, [], Idle, Idle), Begin(0, n), a);
    TwoExtends(cfg, s, es + [Begin(0, n)], a, Stat(0), b);
    fs := es + [Begin(0, n)] + [Stat(0)] + [Create(0)];
    TwoExtends(cfg, s, es + [Begin(0, n)] + [Stat(0)], b, Create(0), Two(n, Some(0), [Empty], Writing(n, 0), Idle));
  }

  /** And writes it into that file, whatever stands under the name by then. */
  lemma Writes0(cfg: Config, n: string, f: nat, d: seq<Content>, pc1: Pc, s: State, es: seq<Event>)
    returns (fs: seq<Event>)
    requires |d| > 0 && !InSection(cfg, pc1)
    requires Run(cfg, s, es) == Some(Two(n, Some(f), d, Writing(n, 0), pc1))
    ensures Run(cfg, s, fs) == Some(Two(n, Some(f), d[0 := Text(10)], Holding(n, 0), pc1))
  {
    fs := es + [Write(0)];
    TwoExtends(cfg, s, es, Two(n, Some(f), d, Writing(n, 0), pc1), Write(0),
               Two(n, Some(f), d[0 := Text(10)], Holding(n, 0), pc1));
  }

  lemma BothHold(s: State, n: string, f: Option<nat>, d: seq<Content>, i: nat, j: nat)
    requires s == Two(n, f, d, Holding(n, i), Holding(n, j))
    ensures !Exclusive(s)
  {
    assert Session(s.threads[0].pc) && Session(s.threads[1].pc) && s.threads[0].pc.name == s.threads[1].pc.name;
  }

  lemma BothSpawned(cfg: Config, s: State)
    requires s.threads == [] && s.live == {}
    ensures Run(cfg, s, [Spawn(10, 1, 10), Spawn(11, 1, 11)])
         == Some(s.(live := {10, 11}, threads := [Thread(10, 1, 10, Idle), Thread(11, 1, 11, Idle)]))
  {
    var a, b := s.(live := {10}, threads := [Thread(10, 1, 10, Idle)]),
                s.(live := {10, 11}, threads := [Thread(10, 1, 10, Idle), Thread(11, 1, 11, Idle)]);
    assert Next(cfg, s, Spawn(10, 1, 10)) == Some(a) by {
      assert Same(Next(cfg, s, Spawn(10, 1, 10)).value, a);
    }
    assert Next(cfg, a, Spawn(11, 1, 11)) == Some(b) by {
      assert Same(Next(cfg, a, Spawn(11, 1, 11)).value, b);
    }
    assert Run(cfg, a, [Spawn(11, 1, 11)]) == Run(cfg, b, []);
    assert [Spawn(10, 1, 10), Spawn(11, 1, 11)][1..] == [Spawn(11, 1, 11)];
  }

  lemma Overtaken(cfg: Config, n: string, d: seq<Content>, s: State, es: seq<Event>) returns (fs: seq<Event>)
    requires !cfg.fused.OpenOn? && d == [Text(9)]
    requires Run(cfg, s, es) == Some(Two(n, Some(0), d, Idle, Idle))
    ensures Run(cfg, s, fs) == Some(Two(n, Some(1), d + [Text(11)], Opened(n, 0), Holding(n, 1)))
  {
    fs := OpensStale(cfg, n, d, s, es);
    fs := JudgesDead(cfg, n, 0, d, Opened(n, 0), s, fs);
    fs := Replaces1(cfg, n, 0, d, Opened(n, 0), s, fs);
  }

  lemma Overtakes(cfg: Config, n: string, d: seq<Content>, s: State, es: seq<Event>) returns (fs: seq<Event>)
    requires |d| == 2 && d[0] == Text(9)
    requires Run(cfg, s, es) == Some(Two(n, Some(1), d, Opened(n, 0), Holding(n, 1)))
    ensures Run(cfg, s, fs) == Some(Two(n, Some(2), d + [Text(10)], Holding(n, 2), Holding(n, 1)))
  {
    fs := JudgesOld(cfg, n, 1, d, Holding(n, 1), s, es);
    fs := Replaces0(cfg, n, 1, d, Holding(n, 1), s, fs);
  }

  /** With faults and less than open-to-unlink in one step: thread 0 holds a descriptor on a dead
      process's lock file while thread 1 replaces that lock, then unlinks the replacement. */
  lemma StaleRace(cfg: Config, n: string) returns (s: State, es: seq<Event>)
    requires cfg.faults && !cfg.fused.OpenOn?
    ensures Init(cfg, s) && Run(cfg, s, es).Some? && !Exclusive(Run(cfg, s, es).value)
  {
    var d := [Text(9)];
    s := State({}, map[n := 0], d, []);
    BothSpawned(cfg, s);
    es := Overtaken(cfg, n, d, s, [Spawn(10, 1, 10), Spawn(11, 1, 11)]);
    es := Overtakes(cfg, n, d + [Text(11)], s, es);
    BothHold(Run(cfg, s, es).value, n, Some(2), d + [Text(11)] + [Text(10)], 2, 1);
  }

  /** With the pid write apart from the create, and no fault at all: thread 1 reads thread 0's still
      empty file, takes the left-over value for a dead pid and removes the file. */
  lemma EmptyFileRace(cfg: Config, n: string) returns (s: State, es: seq<Event>)
    requires !cfg.fusedCreate
    ensures Init(cfg, s) && Run(cfg, s, es).Some? && !Exclusive(Run(cfg, s, es).value)
  {
    s := State({}, map[], [], []);
    es := [Spawn(10, 1, 10), Spawn(11, 1, 11)];
    BothSpawned(cfg, s);
    es := CreatesEmpty(cfg, n, s, es);
    es := JudgesDead(cfg, n, 0, [Empty], Writing(n, 0), s, es);
    es := Replaces1(cfg, n, 0, [Empty], Writing(n, 0), s, es);
    var d := [Empty] + [Text(11)];
    es := Writes0(cfg, n, 1, d, Holding(n, 1), s, es);
    BothHold(Run(cfg, s, es).value, n, Some(1), d[0 := Text(10)], 0, 1);
  }

  // ---------- The results ----------

  /** At every point of every run of a safe configuration, a live session's lock file exists with
      that session's pid, and no two live sessions hold the same lock name. */
  lemma Exclusion(cfg: Config, s: State, es: seq<Event>)
    requires Safe(cfg) && Init(cfg, s) && Run(cfg, s, es).Some?
    ensures Exclusive(Run(cfg, s, es).value)
  {
    InvRun(cfg, s, es);
    InvExcludes(cfg, Run(cfg, s, es).value);
  }

  /** A session's step leaves the directory alone, removes the session's own file and ends it, or is a
      failing call, which ends the session with its file left behind. */
  ghost predicate KeepsOrRemovesOwn(a: State, e: Event, b: State)
    requires !e.Spawn? && !e.Die? && e.t < |a.threads| && e.t < |b.threads| && Session(a.threads[e.t].pc)
  {
    var pc := a.threads[e.t].pc;
    && b.disk == a.disk
    && (Session(b.threads[e.t].pc) <==> !e.UnlockUnlink? && !e.Refuse?)
    && (if e.UnlockUnlink? then pc.name in a.dir && a.dir[pc.name] == pc.own && b.dir == a.dir - {pc.name}
        else b.dir == a.dir)
  }

  lemma UnlockActOwn(cfg: Config, a: State, e: Event)
    requires Inv(cfg, a) && !e.Spawn? && !e.Die? && Next(cfg, a, e).Some? && Session(a.threads[e.t].pc)
    ensures KeepsOrRemovesOwn(a, e, Next(cfg, a, e).value)
  {
    assert OwnerOk(a, e.t);
  }

  /** In a safe configuration fhs_unlock never finds its lock file gone or another's: a session goes on
      until it removes its own file or a call of it fails. */
  lemma UnlockRemovesOwnFile(cfg: Config, s: State, es: seq<Event>, a: State, e: Event)
    requires Safe(cfg) && Init(cfg, s) && Run(cfg, s, es) == Some(a)
    requires !e.Spawn? && !e.Die? && Next(cfg, a, e).Some? && Session(a.threads[e.t].pc)
    ensures KeepsOrRemovesOwn(a, e, Next(cfg, a, e).value)
  {
    InvRun(cfg, s, es);
    UnlockActOwn(cfg, a, e);
  }

  /** The lock excludes in every run exactly when the create and the pid write are one step and, should
      processes die or pid writes fail, so is the stale removal from its open to its unlink. Fusing
      only the kill and the unlink, or the read, the kill and the unlink, is not enough. */
  lemma ExclusionExactly(cfg: Config)
    ensures (forall s, es | Init(cfg, s) && Run(cfg, s, es).Some? :: Exclusive(Run(cfg, s, es).value))
       <==> cfg.fusedCreate && (cfg.faults ==> cfg.fused.OpenOn?)
  {
    if Safe(cfg) {
      forall s, es | Init(cfg, s) && Run(cfg, s, es).Some? ensures Exclusive(Run(cfg, s, es).value) {
        Exclusion(cfg, s, es);
      }
    } else if !cfg.fusedCreate {
      var s, es := EmptyFileRace(cfg, "ttyS0");
    } else {
      var s, es := StaleRace(cfg, "ttyS0");
    }
  }

  /** A lock call that is overtaken fails and touches nothing: whoever removes the file it has seen before it opens or
      unlinks it, and whoever creates one before it does, leaves it without the lock. */
  lemma OvertakenFails(s: State, t: nat, e: Event)
    requires t < |s.threads|
    requires var pc := s.threads[t].pc;
      || (e == Open(t) && pc.Seen? && pc.name !in s.dir)
      || (e == Unlink(t) && pc.Unlinking? && pc.name !in s.dir)
      || (e == Create(t) && pc.Creating? && pc.name in s.dir)
    ensures Act(s, e).Some?
    ensures var r := Act(s, e).value;
      && r.dir == s.dir && r.disk == s.disk && |r.threads| == |s.threads| && r.threads[t].pc.Idle?
      && forall u | 0 <= u < |s.threads| && u != t :: r.threads[u] == s.threads[u]
  {
  }

  // ---------- A lock left behind ----------

  /** The name's file has a live process's pid, and no thread holds that lock. */
  ghost predicate Abandoned(s: State, n: string, pid: int) {
    && n in s.dir && s.dir[n] < |s.disk| && s.disk[s.dir[n]] == Text(pid) && pid in s.live
    && forall t: nat | t < |s.threads| && Owns(s.threads[t].pc) :: s.threads[t].pc.name != n
  }

  /** A failing call of a session leaves its lock behind. */
  lemma FailureAbandons(cfg: Config, s: State, t: nat)
    requires Inv(cfg, s) && t < |s.threads| && Session(s.threads[t].pc) && Next(cfg, s, Refuse(t)).Some?
    ensures Abandoned(Next(cfg, s, Refuse(t)).value, s.threads[t].pc.name, s.threads[t].pid)
  {
    assert OwnerOk(s, t);
    forall u: nat | u < |s.threads| && u != t && Owns(s.threads[u].pc)
      ensures s.threads[u].pc.name != s.threads[t].pc.name
    {
      assert OwnerOk(s, u);
    }
  }

  lemma AbandonedLockAct(cfg: Config, s: State, n: string, pid: int, e: Event)
    requires Safe(cfg) && Inv(cfg, s) && Abandoned(s, n, pid) && !e.Spawn? && !e.Die? && Next(cfg, s, e).Some?
    requires e.Unlink? || e.Create? || e.Write?
    ensures Abandoned(Next(cfg, s, e).value, n, pid) && Next(cfg, s, e).value.dir[n] == s.dir[n]
  {
    assert OwnerOk(s, e.t);
  }

  lemma AbandonedMove(cfg: Config, s: State, n: string, pid: int, e: Event)
    requires Inv(cfg, s) && Abandoned(s, n, pid) && !e.Spawn? && !e.Die? && Next(cfg, s, e).Some?
    requires !e.Unlink? && !e.Create? && !e.Write?
    ensures Abandoned(Next(cfg, s, e).value, n, pid) && Next(cfg, s, e).value.dir[n] == s.dir[n]
  {
    assert OwnerOk(s, e.t);
  }

  /** No step but the death of its process touches it. */
  lemma AbandonedStep(cfg: Config, s: State, n: string, pid: int, e: Event)
    requires Safe(cfg) && Inv(cfg, s) && Abandoned(s, n, pid) && Next(cfg, s, e).Some? && e != Die(pid)
    ensures Abandoned(Next(cfg, s, e).value, n, pid) && Next(cfg, s, e).value.dir[n] == s.dir[n]
  {
    if e.Unlink? || e.Create? || e.Write? {
      AbandonedLockAct(cfg, s, n, pid, e);
    } else if !e.Spawn? && !e.Die? {
      AbandonedMove(cfg, s, n, pid, e);
    }
  }

  /** As long as its process lives, no run lets any thread take an abandoned lock, and the file stays. */
  lemma {:induction false} AbandonedUntilDeath(cfg: Config, s: State, n: string, pid: int, es: seq<Event>)
    requires Safe(cfg) && Inv(cfg, s) && Abandoned(s, n, pid) && Run(cfg, s, es).Some? && Die(pid) !in es
    ensures Abandoned(Run(cfg, s, es).value, n, pid) && Run(cfg, s, es).value.dir[n] == s.dir[n]
    decreases |es|
  {
    if es != [] {
      InvNext(cfg, s, es[0]);
      AbandonedStep(cfg, s, n, pid, es[0]);
      AbandonedUntilDeath(cfg, Next(cfg, s, es[0]).value, n, pid, es[1..]);
    }
  }
}
