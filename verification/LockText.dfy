/** The text of a lock file and the name of one.

    fhs_lock writes "%10d\n"; check_lock_pid reads it back with atol and
    is_device_locked with sscanf "%d". Every function that needs the lock file's
    name scans the device path backwards to the last slash. */
module LockText {
  import opened Wrappers

  // ---------- The pid text ----------

  predicate IsDigit(c: char) {
    '0' <= c <= '9'
  }

  predicate IsSpace(c: char) {
    c == ' ' || '\t' <= c <= '\r'
  }

  function Digits(n: nat): string {
    if n < 10 then [('0' as int + n) as char] else Digits(n / 10) + Digits(n % 10)
  }

  /** sprintf( lockinfo, "%10d\n", pid ) for a pid, which is not negative. */
  function PidText(pid: nat): string {
    var d := Digits(pid);
    seq(if |d| < 10 then 10 - |d| else 0, _ => ' ') + d + "\n"
  }

  function SkipSpace(s: string): string {
    if s != [] && IsSpace(s[0]) then SkipSpace(s[1..]) else s
  }

  function LeadingDigits(s: string, value: nat): nat {
    if s != [] && IsDigit(s[0]) then LeadingDigits(s[1..], 10 * value + (s[0] as int - '0' as int)) else value
  }

  /** sscanf( s, "%d", &n ): None when no number is there to convert. */
  function ScanInt(s: string): Option<int> {
    var t := SkipSpace(s);
    var signed := t != [] && (t[0] == '-' || t[0] == '+');
    var u := if signed then t[1..] else t;
    if u == [] || !IsDigit(u[0]) then None
    else
      var value: int := LeadingDigits(u, 0);
      Some(if signed && t[0] == '-' then -value else value)
  }

  function Atol(s: string): int {
    if ScanInt(s).Some? then ScanInt(s).value else 0
  }

  /** read( fd, buffer, 11 ): the bytes the file has, the rest of the buffer as it was. */
  function ReadBuffer(text: string, junk: string): string {
    (if |text| < 11 then text else text[..11]) + junk
  }

  lemma {:induction false} DigitsAreDigits(n: nat)
    ensures |Digits(n)| > 0 && forall i | 0 <= i < |Digits(n)| :: IsDigit(Digits(n)[i])
  {
    if n >= 10 {
      DigitsAreDigits(n / 10);
    }
  }

  /** A number of at most `width` digits is one below ten to that power. */
  lemma {:induction false} DigitsWidth(n: nat, width: nat, bound: nat)
    requires width > 0 && bound == Pow10(width)
    ensures |Digits(n)| <= width <==> n < bound
  {
    if n < 10 {
      assert Pow10(width) >= 10 by { Pow10Grows(width); }
    } else {
      DigitsAreDigits(n / 10);
      assert |Digits(n % 10)| == 1;
      if width == 1 {
        assert Pow10(0) == 1;
      } else {
        DigitsWidth(n / 10, width - 1, Pow10(width - 1));
      }
    }
  }

  function Pow10(k: nat): nat {
    if k == 0 then 1 else 10 * Pow10(k - 1)
  }

  lemma {:induction false} Pow10Grows(k: nat)
    requires k > 0
    ensures Pow10(k) >= 10
  {
    if k > 1 {
      Pow10Grows(k - 1);
    }
  }

  lemma {:induction false} DigitsRead(n: nat, rest: string)
    ensures LeadingDigits(Digits(n) + rest, 0) == LeadingDigits(rest, n)
  {
    if n < 10 {
      assert (Digits(n) + rest)[1..] == rest;
    } else {
      var last := Digits(n % 10);
      assert Digits(n) + rest == Digits(n / 10) + (last + rest);
      DigitsRead(n / 10, last + rest);
      assert (last + rest)[1..] == rest;
    }
  }

  lemma {:induction false} BlanksSkipped(blanks: string, s: string)
    requires forall i | 0 <= i < |blanks| :: blanks[i] == ' ' || '\t' <= blanks[i] <= '\r'
    requires s == [] || !(s[0] == ' ' || '\t' <= s[0] <= '\r')
    ensures SkipSpace(blanks + s) == s
  {
    if blanks == [] {
      assert blanks + s == s;
    } else {
      assert (blanks + s)[1..] == blanks[1..] + s;
      BlanksSkipped(blanks[1..], s);
    }
  }

  /** A decimal number is read after any blanks and one sign, up to the first character that is no digit; without
      a digit there is none. */
  lemma AnyNumberRead(blanks: string, sign: string, n: nat, rest: string)
    requires forall i | 0 <= i < |blanks| :: blanks[i] == ' ' || '\t' <= blanks[i] <= '\r'
    requires sign == "" || sign == "-" || sign == "+"
    requires rest == [] || !('0' <= rest[0] <= '9')
    ensures ScanInt(blanks + (sign + (Digits(n) + rest))) == Some((if sign == "-" then -1 else 1) * n)
    ensures ScanInt(blanks) == None && Atol(blanks) == 0
  {
    var number := Digits(n) + rest;
    DigitsAreDigits(n);
    assert sign + number == if sign == "" then number else [sign[0]] + number;
    BlanksSkipped(blanks, sign + number);
    BlanksSkipped(blanks, []);
    assert blanks + [] == blanks;
    assert sign != "" ==> (sign + number)[1..] == number;
    DigitsRead(n, rest);
  }

  /** What fhs_lock writes is eleven bytes exactly for a pid of at most ten digits, which every
      32-bit pid is, and then both readers recover the pid, whatever the bytes after it are. */
  lemma PidTextRoundTrip(pid: nat, junk: string)
    ensures |PidText(pid)| == 11 <==> pid < 10_000_000_000
    ensures pid < 10_000_000_000 ==>
              && ScanInt(ReadBuffer(PidText(pid), junk)) == Some(pid)
              && Atol(ReadBuffer(PidText(pid), junk)) == pid
  {
    DigitsAreDigits(pid);
    assert Pow10(10) == 10_000_000_000 by {
      assert Pow10(5) == 100_000;
    }
    DigitsWidth(pid, 10, Pow10(10));
    if pid < 10_000_000_000 {
      var d := Digits(pid);
      var tail := d + ("\n" + junk);
      assert ReadBuffer(PidText(pid), junk) == seq(10 - |d|, _ => ' ') + tail;
      BlanksSkipped(seq(10 - |d|, _ => ' '), tail);
      DigitsRead(pid, "\n" + junk);
    }
  }

  /** A number without its last `i` digits. */
  function Shifted(n: nat, i: nat): nat {
    if i == 0 then n else Shifted(n / 10, i - 1)
  }

  /** The digit that stands `i` places from the right, and whether one does. */
  lemma {:induction false} DigitAt(n: nat, i: nat)
    ensures i < |Digits(n)| <==> i == 0 || Shifted(n, i) > 0
    ensures i < |Digits(n)| ==> Digits(n)[|Digits(n)| - 1 - i] as int == '0' as int + Shifted(n, i) % 10
  {
    DigitsAreDigits(n);
    if n < 10 && i > 0 {
      NothingLeft(i - 1);
    } else if i > 0 {
      DigitAt(n / 10, i - 1);
      BeforeTheLast(Digits(n / 10), Digits(n % 10), i);
    }
  }

  lemma BeforeTheLast(a: string, b: string, i: nat)
    requires |b| == 1 && i > 0
    ensures i < |a + b| <==> i - 1 < |a|
    ensures i < |a + b| ==> (a + b)[|a + b| - 1 - i] == a[|a| - 1 - (i - 1)]
  {
  }

  lemma {:induction false} NothingLeft(i: nat)
    ensures Shifted(0, i) == 0
  {
    if i > 0 {
      NothingLeft(i - 1);
    }
  }

  /** What fhs_lock writes, place by place: the decimal digits stand to the right of ten places, blanks before
      them, and a newline follows. */
  lemma PidTextPlaces(pid: nat)
    requires pid < 10_000_000_000
    ensures |PidText(pid)| == 11 && PidText(pid)[10] == '\n'
    ensures forall i | 0 <= i < 10 ::
              PidText(pid)[9 - i] as int
                == if i == 0 || Shifted(pid, i) > 0 then '0' as int + Shifted(pid, i) % 10 else ' ' as int
  {
    var d := Digits(pid);
    PidTextRoundTrip(pid, "");
    forall i | 0 <= i < 10
      ensures PidText(pid)[9 - i] as int
              == if i == 0 || Shifted(pid, i) > 0 then '0' as int + Shifted(pid, i) % 10 else ' ' as int
    {
      DigitAt(pid, i);
      assert i < |d| ==> PidText(pid)[9 - i] == d[|d| - 1 - i];
    }
  }

  // ---------- The lock file's name ----------

  /** The backward scan all four lock functions share: the index the name starts at. */
  method ScanBack(filename: string) returns (p: nat)
    requires |filename| > 0
    ensures p == NameStart(filename)
  {
    var j := |filename|;
    p := |filename|;
    while filename[p - 1] != '/' && j != 1
      invariant 1 <= p == j <= |filename|
      invariant '/' !in filename[p..]
      decreases p
    {
      j := j - 1;
      p := p - 1;
    }
    NameStartUnique(filename, p);
  }

  /** One past the last slash; index 1 when there is none. */
  function NameStart(filename: string): (p: nat)
    requires |filename| > 0
    ensures 1 <= p <= |filename|
    decreases |filename|
  {
    if filename[|filename| - 1] == '/' || |filename| == 1 then |filename| else NameStart(filename[..|filename| - 1])
  }

  lemma {:induction false} NameStartUnique(filename: string, p: nat)
    requires 1 <= p <= |filename| && '/' !in filename[p..]
    requires filename[p - 1] == '/' || p == 1
    ensures p == NameStart(filename)
    decreases |filename|
  {
    var last := |filename| - 1;
    if p <= last {
      assert filename[last] == filename[p..][last - p];
      assert filename[..last][p..] == filename[p..][..last - p];
      NameStartUnique(filename[..last], p);
    }
  }

  function LockPath(dir: string, filename: string): string
    requires |filename| > 0
  {
    dir + "/LCK.." + filename[NameStart(filename)..]
  }

  lemma {:induction false} NameStartPlaces(filename: string)
    requires |filename| > 0
    ensures var p := NameStart(filename);
      && (forall i | p <= i < |filename| :: filename[i] != '/')
      && (filename[p - 1] == '/' || p == 1)
    decreases |filename|
  {
    var last := |filename| - 1;
    if filename[last] != '/' && last > 0 {
      NameStartPlaces(filename[..last]);
      forall i | NameStart(filename) <= i < |filename| ensures filename[i] != '/' {
        if i < last {
          assert filename[i] == filename[..last][i];
        }
      }
    }
  }

  /** The name a lock is taken under is what follows the last slash of the device path
      exactly when the path has one; without one the path's first character is lost. */
  lemma {:induction false} NameIsLastComponent(filename: string)
    requires |filename| > 0
    ensures var p := NameStart(filename);
      && '/' !in filename[p..]
      && (filename[p - 1] == '/' <==> '/' in filename)
      && ('/' !in filename ==> p == 1)
  {
    NameStartPlaces(filename);
  }

  /** The device /dev/ttyS0 is locked by the file LCK..ttyS0, and every other one likewise. */
  lemma LockPathOfDevice(dir: string, directory: string, name: string)
    requires '/' !in name
    ensures LockPath(dir, directory + "/" + name) == dir + "/LCK.." + name
  {
    var filename, p := directory + "/" + name, |directory| + 1;
    assert filename[p..] == name;
    NameStartUnique(filename, p);
  }

  /** Two device paths share a lock exactly when their last components are the same. */
  lemma LockPathsCollide(dir: string, a: string, b: string)
    requires |a| > 0 && |b| > 0
    ensures LockPath(dir, a) == LockPath(dir, b) <==> a[NameStart(a)..] == b[NameStart(b)..]
  {
    var front := dir + "/LCK..";
    assert LockPath(dir, a)[|front|..] == a[NameStart(a)..];
    assert LockPath(dir, b)[|front|..] == b[NameStart(b)..];
  }
}
