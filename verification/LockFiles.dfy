/** The lock functions as one process runs them without interruption, over the
    lock files and the processes of one machine. LockProtocol interleaves them. */
module LockFiles {
  import opened Wrappers
  import opened LockText

  /** Which system calls fail, other than an exclusive create of a name that is there. `refused`: the
      check fails before it looks at the lock file, as when another lock directory has the device. */
  datatype Faults = Faults(refused: bool, open: bool, read: bool, unlink: bool, create: bool, write: bool)

  const NoFaults := Faults(false, false, false, false, false, false)

  /** The pid is_device_locked judges a text by. An unreadable one leaves the pid variable as it was, `unset`. */
  function PidIn(text: string, junk: string, unset: int): int {
    var read := ScanInt(ReadBuffer(text, junk));
    if read.Some? then read.value else unset
  }

  /** A lock file whose pid no process has. */
  predicate Stale(text: string, junk: string, unset: int, live: set<int>) {
    PidIn(text, junk, unset) !in live
  }

  predicate OursToRemove(text: string, junk: string, pids: set<int>) {
    Atol(ReadBuffer(text, junk)) in pids
  }

  /** What a lock call finds: the buffer behind a short read, the unset pid variable and the live processes. */
  datatype Scene = Scene(junk: string, unset: int, live: set<int>)

  predicate IsStale(files: map<string, string>, path: string, c: Scene) {
    path in files && Stale(files[path], c.junk, c.unset, c.live)
  }

  /** The check of the lock ends in an error. */
  predicate CheckFails(files: map<string, string>, path: string, f: Faults, c: Scene) {
    f.refused || (path in files && (f.open || f.read || (IsStale(files, path, c) && f.unlink)))
  }

  /** The lock files after a check that does not fail. */
  function Checked(files: map<string, string>, path: string, c: Scene): map<string, string> {
    if IsStale(files, path, c) then files - {path} else files
  }

  /** fhs_lock comes to write its pid. */
  predicate Creates(files: map<string, string>, path: string, f: Faults, c: Scene) {
    !CheckFails(files, path, f, c) && (path in files ==> IsStale(files, path, c)) && !f.create
  }

  function AfterLock(files: map<string, string>, path: string, pid: nat, f: Faults, c: Scene): map<string, string> {
    if CheckFails(files, path, f, c) then files
    else if !Creates(files, path, f, c) then Checked(files, path, c)
    else files[path := if f.write then "" else PidText(pid)]
  }

  /** check_lock_pid and the unlink succeed. */
  predicate Unlocks(files: map<string, string>, path: string, pids: set<int>, junk: string, f: Faults) {
    path in files && !f.open && !f.read && !f.unlink && OursToRemove(files[path], junk, pids)
  }

  /** What open() comes upon after its lock: the descriptor of a preopened port, 0 for none, else what OPEN
      returns, negative if it fails, and whether the device can be had exclusively and configured. */
  datatype Device = Device(preopened: int, fd: int, exclusive: bool, configured: bool)

  predicate HeldBy(files: map<string, string>, path: string, pid: nat) {
    path in files && files[path] == PidText(pid)
  }

  /** The lock files after nativeClose of descriptor `fd`, with the pid its port was opened under. */
  function AfterClose(files: map<string, string>, path: string, fd: int, openpid: int, pids: set<int>, junk: string,
                      f: Faults): map<string, string> {
    if openpid != 0 && fd > 0 && Unlocks(files, path, pids + {openpid}, junk, f) then files - {path} else files
  }

  class LockDirectory {
    const dir: string
    /** What kill( pid, 0 ) finds. */
    const live: set<int>
    var files: map<string, string>

    constructor (dir: string, live: set<int>, files: map<string, string>)
      ensures this.dir == dir && this.live == live && this.files == files
    {
      this.dir, this.live, this.files := dir, live, files;
    }

    /** A lock that is held leaves the answer 0 here; only fhs_lock's O_EXCL refuses it. */
    method IsDeviceLocked(port: string, f: Faults, junk: string, unset: int) returns (r: int)
      requires |port| > 0
      modifies this`files
      ensures var path, c := LockPath(dir, port), Scene(junk, unset, live);
        && r == (if CheckFails(old(files), path, f, c) then 1 else 0)
        && files == if r == 0 then Checked(old(files), path, c) else old(files)
    {
      if f.refused {
        return 1;
      }
      var p := ScanBack(port);
      var file := dir + "/LCK.." + port[p..];
      if file in files {
        if f.open {
          return 1;
        }
        if f.read {
          return 1;
        }
        var pid := unset;
        var scanned := ScanInt(ReadBuffer(files[file], junk));
        if scanned.Some? {
          pid := scanned.value;
        }
        if pid !in live {
          if f.unlink {
            return 1;
          }
          files := files - {file};
        }
      }
      return 0;
    }

    method FhsLock(filename: string, pid: nat, f: Faults, junk: string, unset: int) returns (r: int)
      requires |filename| > 0
      modifies this`files
      ensures var path, c := LockPath(dir, filename), Scene(junk, unset, live);
        && r == (if Creates(old(files), path, f, c) && !f.write then 0 else 1)
        && files == AfterLock(old(files), path, pid, f, c)
    {
      var p := ScanBack(filename);
      var file := dir + "/LCK.." + filename[p..];
      var locked := IsDeviceLocked(filename, f, junk, unset);
      if locked != 0 {
        return 1;
      }
      if file in files || f.create {
        return 1;
      }
      files := files[file := ""];
      if f.write {
        return 1;
      }
      files := files[file := PidText(pid)];
      return 0;
    }

    method CheckLockPid(file: string, pid: int, ppid: int, openpid: int, junk: string, f: Faults) returns (r: int)
      ensures r == 0 <==>
        file in files && !f.open && !f.read && OursToRemove(files[file], junk, {pid, ppid, openpid})
      ensures r == 0 || r == 1
    {
      if file !in files || f.open {
        return 1;
      }
      if f.read {
        return 1;
      }
      var lockpid := Atol(ReadBuffer(files[file], junk));
      if lockpid != pid && lockpid != ppid && lockpid != openpid {
        return 1;
      }
      return 0;
    }

    method FhsUnlock(filename: string, pid: int, ppid: int, openpid: int, junk: string, f: Faults)
      requires |filename| > 0
      modifies this`files
      ensures var path := LockPath(dir, filename);
        files == if Unlocks(old(files), path, {pid, ppid, openpid}, junk, f) then old(files) - {path} else old(files)
    {
      var i := ScanBack(filename);
      var file := dir + "/LCK.." + filename[i..];
      var r := CheckLockPid(file, pid, ppid, openpid, junk, f);
      if r == 0 && !f.unlink {
        files := files - {file};
      }
    }

    /** The lock steps of testRead; `probe` is what it finds out in between, `f` and `g` what fails in its
        lock and in its unlock. The lock it takes is given back, unless a call of the unlock fails, and a
        device another process holds is not probed at all. A failed write leaves an empty file behind. */
    method TestRead(name: string, pid: nat, ppid: int, f: Faults, g: Faults, junk: string, unset: int, probe: bool)
      returns (ok: bool)
      requires |name| > 0 && pid < 10_000_000_000
      modifies this`files
      ensures var path, c := LockPath(dir, name), Scene(junk, unset, live);
        var locked := Creates(old(files), path, f, c) && !f.write;
        && ok == (locked && probe)
        && files == if locked && !g.open && !g.read && !g.unlink then old(files) - {path}
                    else AfterLock(old(files), path, pid, f, c)
    {
      var r := FhsLock(name, pid, f, junk, unset);
      if r != 0 {
        return false;
      }
      ok := probe;
      PidTextRoundTrip(pid, junk);
      FhsUnlock(name, pid, ppid, pid, junk, g);
    }

    /** The lock steps of open(). It never gives its lock back: a live lock that was not there before is left by
        an open() that fails exactly when the lock was taken and the device then turns out not to be usable. */
    method Open(filename: string, pid: nat, f: Faults, junk: string, unset: int, d: Device) returns (fd: Option<int>)
      requires |filename| > 0 && pid < 10_000_000_000 && pid in live
      modifies this`files
      ensures var path, c := LockPath(dir, filename), Scene(junk, unset, live);
        var locked := Creates(old(files), path, f, c) && !f.write;
        var usable := d.preopened != 0 || (d.fd >= 0 && d.exclusive && d.configured);
        && fd == (if !locked || !usable then None else Some(if d.preopened != 0 then d.preopened else d.fd))
        && files == AfterLock(old(files), path, pid, f, c)
        && (fd.None? && HeldBy(files, path, pid) && !HeldBy(old(files), path, pid) <==> locked && !usable)
    {
      LeftLockIsNew(files, LockPath(dir, filename), pid, f, Scene(junk, unset, live));
      var r := FhsLock(filename, pid, f, junk, unset);
      if r != 0 {
        return None;
      }
      if d.preopened != 0 {
        return Some(d.preopened);
      }
      if d.fd >= 0 && !d.exclusive {
        return None;
      }
      if d.fd < 0 || !d.configured {
        return None;
      }
      return Some(d.fd);
    }

    method NativeClose(filename: string, fd: int, openpid: int, pid: int, ppid: int, junk: string, f: Faults)
      requires |filename| > 0
      modifies this`files
      ensures files == AfterClose(old(files), LockPath(dir, filename), fd, openpid, {pid, ppid}, junk, f)
    {
      assert {pid, ppid} + {openpid} == {pid, ppid, openpid};
      if openpid == 0 {
        return;
      }
      if fd > 0 {
        FhsUnlock(filename, pid, ppid, openpid, junk, f);
      }
    }
  }

  /** A lock file written for a pid is stale exactly when that process is gone, and only the process
      itself, its child, or a caller that names the pid may remove it. */
  lemma WrittenLockJudgedByItsPid(pid: nat, junk: string, unset: int, live: set<int>, pids: set<int>)
    requires pid < 10_000_000_000
    ensures Stale(PidText(pid), junk, unset, live) <==> pid !in live
    ensures OursToRemove(PidText(pid), junk, pids) <==> pid in pids
  {
    PidTextRoundTrip(pid, junk);
  }

  /** The caller's lock stands after fhs_lock where it did not before exactly when the call took it. */
  lemma LeftLockIsNew(files: map<string, string>, path: string, pid: nat, f: Faults, c: Scene)
    requires pid < 10_000_000_000 && pid in c.live
    ensures HeldBy(AfterLock(files, path, pid, f, c), path, pid) && !HeldBy(files, path, pid)
       <==> Creates(files, path, f, c) && !f.write
  {
    PidTextRoundTrip(pid, c.junk);
  }

  /** As long as the process of a lock lives, every fhs_lock of that name fails, whatever other calls fail,
      and leaves the lock files as they are. */
  lemma HeldLockRefuses(files: map<string, string>, path: string, pid: nat, other: nat, f: Faults, c: Scene)
    requires pid < 10_000_000_000 && pid in c.live && HeldBy(files, path, pid)
    ensures !Creates(files, path, f, c) && AfterLock(files, path, other, f, c) == files
  {
    PidTextRoundTrip(pid, c.junk);
  }

  /** After an open() that takes the lock, nativeClose gives it back exactly when the descriptor is not 0 or
      negative and no call of its unlock fails. A port whose pid was never set is left alone. */
  lemma CloseGivesBackExactly(files: map<string, string>, path: string, pid: nat, f: Faults, c: Scene, fd: int,
                              pids: set<int>, junk: string, g: Faults)
    requires 0 < pid < 10_000_000_000 && Creates(files, path, f, c) && !f.write
    ensures AfterClose(AfterLock(files, path, pid, f, c), path, fd, pid, pids, junk, g)
         == if fd > 0 && !g.open && !g.read && !g.unlink then files - {path} else files[path := PidText(pid)]
    ensures AfterClose(files, path, fd, 0, pids, junk, g) == files
  {
    PidTextRoundTrip(pid, junk);
  }

  /** Another process's lock is left alone by every fhs_unlock, and so by nativeClose and by the unlock of testRead,
      whatever calls fail; one with a pid of the caller's is removed exactly when none does. */
  lemma OthersLockKept(files: map<string, string>, path: string, holder: nat, fd: int, openpid: int, pids: set<int>,
                       junk: string, f: Faults)
    requires holder < 10_000_000_000 && HeldBy(files, path, holder)
    ensures holder !in pids ==> !Unlocks(files, path, pids, junk, f)
    ensures holder in pids ==> (Unlocks(files, path, pids, junk, f) <==> !f.open && !f.read && !f.unlink)
    ensures holder !in pids + {openpid} ==> AfterClose(files, path, fd, openpid, pids, junk, f) == files
  {
    PidTextRoundTrip(holder, junk);
  }

  /** Where no call fails, a lock is taken, with the caller's pid, exactly when its name is free or its holder dead;
      a dead one's file is replaced. */
  lemma LockTakenExactly(files: map<string, string>, path: string, pid: nat, holder: nat, c: Scene)
    requires pid < 10_000_000_000 && holder < 10_000_000_000
    requires path in files ==> HeldBy(files, path, holder)
    ensures AfterLock(files, path, pid, NoFaults, c)
         == if path !in files || holder !in c.live then files[path := PidText(pid)] else files
    ensures Creates(files, path, NoFaults, c) <==> path !in files || holder !in c.live
  {
    PidTextRoundTrip(holder, c.junk);
  }

  /** An empty lock file is judged by what the pid variable held before, and owned by nobody with a pid. */
  lemma EmptyFileJudged(unset: int, live: set<int>, pids: set<int>)
    ensures Stale("", "", unset, live) <==> unset !in live
    ensures OursToRemove("", "", pids) <==> 0 in pids
  {
  }
}
