/** registerValidPorts, on systems other than Solaris: which device files become ports. Names are ASCII;
    what testRead answers, for the i-th candidate under the p-th prefix, is the environment's choice. */
module PortScan {
  import opened Wrappers

  datatype Registration = Registration(portName: string, portType: int)

  type Answers = (nat, nat) -> bool

  predicate IsLetter(c: char) {
    'a' <= c <= 'z' || 'A' <= c <= 'Z'
  }

  function ToUpper(c: char): char {
    if 'a' <= c <= 'z' then c - 'a' + 'A' else c
  }

  function ToLower(c: char): char {
    if 'A' <= c <= 'Z' then c - 'A' + 'a' else c
  }

  function UpperCase(s: string): string {
    seq(|s|, i requires 0 <= i < |s| => ToUpper(s[i]))
  }

  function LowerCase(s: string): string {
    seq(|s|, i requires 0 <= i < |s| => ToLower(s[i]))
  }

  predicate LetterFree(s: string) {
    forall i :: 0 <= i < |s| ==> !IsLetter(s[i])
  }

  lemma SameInBothCasesExactly(s: string)
    ensures UpperCase(s) == LowerCase(s) <==> LetterFree(s)
  {
    if UpperCase(s) == LowerCase(s) {
      forall i | 0 <= i < |s| ensures !IsLetter(s[i]) {
        assert UpperCase(s)[i] == LowerCase(s)[i];
      }
    }
  }

  /** The name is the prefix followed by text without letters. */
  predicate Extends(name: string, prefix: string) {
    prefix <= name && LetterFree(name[|prefix|..])
  }

  /** The two prefixes can match the same name. */
  predicate Overlap(a: string, b: string) {
    Extends(a, b) || Extends(b, a)
  }

  predicate NoOverlaps(prefixes: seq<string>) {
    forall p, q :: 0 <= p < q < |prefixes| ==> !Overlap(prefixes[p], prefixes[q])
  }

  datatype System = System(deviceDirectory: string, windows: bool, portType: int)

  function Registered(candidate: string, s: System): Registration {
    Registration(if s.windows then candidate else s.deviceDirectory + candidate, s.portType)
  }

  /** What a scan depends on. */
  datatype Setup = Setup(prefixes: seq<string>, system: System, testRead: Answers)

  /** The `i`-th candidate is matched by the `p`-th prefix and passes the read test under it. */
  predicate Hit(candidate: string, i: nat, p: nat, u: Setup) {
    p < |u.prefixes| && Extends(candidate, u.prefixes[p]) && u.testRead(i, p)
  }

  function HitsOf(candidate: string, i: nat, u: Setup): nat -> bool {
    (p: nat) => Hit(candidate, i, p, u)
  }

  function Count(hits: nat -> bool, n: nat): nat {
    if n == 0 then 0 else Count(hits, n - 1) + (if hits(n - 1) then 1 else 0)
  }

  ghost predicate AnyBelow(hits: nat -> bool, n: nat) {
    exists p: nat :: p < n && hits(p)
  }

  function Copies(r: Registration, n: nat): seq<Registration> {
    seq(n, _ => r)
  }

  /** What the first `n` prefixes register of the `i`-th candidate: once for each hit. */
  function Row(candidate: string, i: nat, n: nat, u: Setup): seq<Registration> {
    Copies(Registered(candidate, u.system), Count(HitsOf(candidate, i, u), n))
  }

  function HitCount(candidate: string, i: nat, u: Setup): nat {
    Count(HitsOf(candidate, i, u), |u.prefixes|)
  }

  function WholeRow(candidate: string, i: nat, u: Setup): seq<Registration> {
    Copies(Registered(candidate, u.system), HitCount(candidate, i, u))
  }

  lemma Regroup(a: seq<Registration>, b: seq<Registration>, c: seq<Registration>)
    ensures (a + b) + c == a + (b + c)
  {
  }

  /** What the first `n` candidates register. */
  function Rows(candidates: seq<string>, n: nat, u: Setup): seq<Registration>
    requires n <= |candidates|
  {
    if n == 0 then [] else Rows(candidates, n - 1, u) + WholeRow(candidates[n - 1], n - 1, u)
  }

  lemma {:induction false} CountAny(hits: nat -> bool, n: nat)
    ensures Count(hits, n) > 0 <==> AnyBelow(hits, n)
  {
    if n > 0 {
      CountAny(hits, n - 1);
    }
  }

  lemma {:induction false} CountGrows(hits: nat -> bool, m: nat, n: nat)
    requires m <= n
    ensures Count(hits, m) <= Count(hits, n)
  {
    if m < n {
      CountGrows(hits, m, n - 1);
    }
  }

  /** At most one of the first `n` hits, exactly when no two of them do. */
  lemma {:induction false} CountOneAtMost(hits: nat -> bool, n: nat)
    ensures Count(hits, n) <= 1 <==> forall p: nat, q: nat :: p < q < n && hits(p) ==> !hits(q)
  {
    if n > 0 {
      CountOneAtMost(hits, n - 1);
      CountAny(hits, n - 1);
    }
  }

  lemma RowStep(candidate: string, i: nat, n: nat, u: Setup)
    ensures Row(candidate, i, n + 1, u)
         == Row(candidate, i, n, u) + (if Hit(candidate, i, n, u) then [Registered(candidate, u.system)] else [])
  {
    OneMoreCopy(Registered(candidate, u.system), Count(HitsOf(candidate, i, u), n));
  }

  lemma OneMoreCopy(r: Registration, n: nat)
    ensures Copies(r, n + 1) == Copies(r, n) + [r] && Copies(r, n) == Copies(r, n) + []
  {
  }

  /** The comparison of a candidate with a prefix. */
  method Matches(candidate: string, prefix: string) returns (matches: bool)
    ensures matches == Extends(candidate, prefix)
  {
    if |candidate| < |prefix| {
      return false;
    }
    var rest := candidate[|prefix|..];
    SameInBothCasesExactly(rest);
    return candidate[..|prefix|] == prefix && UpperCase(rest) == LowerCase(rest);
  }

  class Driver {
    const system: System
    /** The identifiers added to the list, in order. */
    var registered: seq<Registration>

    constructor (system: System)
      ensures this.system == system && registered == []
    {
      this.system, registered := system, [];
    }

    method AddPortName(name: string, portType: int)
      modifies `registered
      ensures registered == old(registered) + [Registration(name, portType)]
    {
      registered := registered + [Registration(name, portType)];
    }

    /** The inner loop. */
    method RegisterCandidate(candidate: string, i: nat, prefixes: seq<string>, testRead: Answers,
                             ghost whole: seq<Registration>)
      requires whole == WholeRow(candidate, i, Setup(prefixes, system, testRead))
      modifies `registered
      ensures registered == old(registered) + whole
    {
      ghost var u := Setup(prefixes, system, testRead);
      ghost var row := [];
      for p := 0 to |prefixes|
        invariant row == Row(candidate, i, p, u) && registered == old(registered) + row
      {
        RowStep(candidate, i, p, u);
        var matches := Matches(candidate, prefixes[p]);
        if !matches {
          continue;
        }
        var portName := if system.windows then candidate else system.deviceDirectory + candidate;
        if testRead(i, p) {
          AddPortName(portName, system.portType);
          row := row + [Registration(portName, system.portType)];
        }
      }
    }

    /** `None` stands for null. */
    method RegisterValidPorts(candidates: Option<seq<string>>, prefixes: Option<seq<string>>, testRead: Answers)
      modifies `registered
      ensures candidates.None? || prefixes.None? ==> registered == old(registered)
      ensures candidates.Some? && prefixes.Some? ==>
        registered
        == old(registered) + Rows(candidates.value, |candidates.value|, Setup(prefixes.value, system, testRead))
    {
      if candidates.None? || prefixes.None? {
        return;
      }
      ghost var u := Setup(prefixes.value, system, testRead);
      ghost var out, row := [], [];
      for i := 0 to |candidates.value|
        invariant out == Rows(candidates.value, i, u) && registered == old(registered) + out
      {
        row := WholeRow(candidates.value[i], i, u);
        RegisterCandidate(candidates.value[i], i, prefixes.value, testRead, row);
        Regroup(old(registered), out, row);
        out := out + row;
      }
    }
  }

  // ---------- Which names, and how often ----------

  lemma {:induction false} CopiesTimes(of: Registration, n: nat, r: Registration)
    ensures Times(Copies(of, n), r) == if r == of then n else 0
  {
    if n > 0 {
      CopiesTimes(of, n - 1, r);
      OneMoreCopy(of, n - 1);
    }
  }

  /** How many hits the candidates that are called `r` have. */
  function Hits(candidates: seq<string>, n: nat, u: Setup, r: Registration): nat
    requires n <= |candidates|
  {
    if n == 0 then 0
    else Hits(candidates, n - 1, u, r)
         + (if Registered(candidates[n - 1], u.system) == r then HitCount(candidates[n - 1], n - 1, u) else 0)
  }

  function Times(rs: seq<Registration>, r: Registration): nat {
    multiset(rs)[r]
  }

  /** A port is registered as often as candidates of its name hit. */
  lemma RegisteredPerHit(candidates: seq<string>, n: nat, u: Setup, r: Registration)
    requires n <= |candidates|
    ensures Times(Rows(candidates, n, u), r) == Hits(candidates, n, u, r)
  {
    var off := (k: nat) =>
      if k <= |candidates| then Times(Rows(candidates, k, u), r) - Hits(candidates, k, u, r) else 0;
    forall k: nat | k < n ensures off(k + 1) == off(k) {
      OneMoreCandidate(candidates, k + 1, u, r);
    }
    Constant(off, n);
  }

  lemma {:induction false} Constant(off: nat -> int, n: nat)
    requires forall k: nat | k < n :: off(k + 1) == off(k)
    ensures off(n) == off(0)
  {
    if n > 0 {
      Constant(off, n - 1);
      assert off(n - 1 + 1) == off(n - 1);
    }
  }

  lemma OneMoreCandidate(candidates: seq<string>, n: nat, u: Setup, r: Registration)
    requires 0 < n <= |candidates|
    ensures Times(Rows(candidates, n, u), r) - Times(Rows(candidates, n - 1, u), r)
         == Hits(candidates, n, u, r) - Hits(candidates, n - 1, u, r)
  {
    var candidate := candidates[n - 1];
    TimesWithCopies(Rows(candidates, n - 1, u), Registered(candidate, u.system), HitCount(candidate, n - 1, u), r);
  }

  lemma TimesWithCopies(a: seq<Registration>, of: Registration, n: nat, r: Registration)
    ensures Times(a + Copies(of, n), r) == Times(a, r) + (if r == of then n else 0)
  {
    CopiesTimes(of, n, r);
  }

  ghost predicate DueFor(candidate: string, i: nat, u: Setup, r: Registration) {
    AnyBelow(HitsOf(candidate, i, u), |u.prefixes|) && r == Registered(candidate, u.system)
  }

  /** The registration is that of a candidate among the first `n` with a hit. */
  ghost predicate Due(candidates: seq<string>, n: nat, u: Setup, r: Registration)
    requires n <= |candidates|
  {
    exists i :: 0 <= i < n && DueFor(candidates[i], i, u, r)
  }

  lemma DueOneMore(candidates: seq<string>, n: nat, u: Setup, r: Registration)
    requires 0 < n <= |candidates|
    ensures Due(candidates, n, u, r)
       <==> Due(candidates, n - 1, u, r) || DueFor(candidates[n - 1], n - 1, u, r)
  {
  }

  lemma {:induction false} DueHits(candidates: seq<string>, n: nat, u: Setup, r: Registration)
    requires n <= |candidates|
    ensures Hits(candidates, n, u, r) > 0 <==> Due(candidates, n, u, r)
  {
    if n > 0 {
      DueHits(candidates, n - 1, u, r);
      DueOneMore(candidates, n, u, r);
      CountAny(HitsOf(candidates[n - 1], n - 1, u), |u.prefixes|);
    }
  }

  lemma ExtendsByPlaces(name: string, prefix: string)
    ensures Extends(name, prefix) <==>
      prefix <= name
      && forall k | |prefix| <= k < |name| :: !('a' <= name[k] <= 'z') && !('A' <= name[k] <= 'Z')
  {
    if Extends(name, prefix) {
      forall k | |prefix| <= k < |name| ensures !IsLetter(name[k]) {
        assert name[k] == name[|prefix|..][k - |prefix|];
      }
    }
  }

  /** The `p`-th prefix leaves the `i`-th candidate without letters, which passes the read test and is called `r`. */
  ghost predicate Finds(candidates: seq<string>, i: nat, p: nat, u: Setup, r: Registration)
    requires i < |candidates| && p < |u.prefixes|
  {
    && u.testRead(i, p)
    && u.prefixes[p] <= candidates[i]
    && (forall k | |u.prefixes[p]| <= k < |candidates[i]| ::
          !('a' <= candidates[i][k] <= 'z') && !('A' <= candidates[i][k] <= 'Z'))
    && r.portName == (if u.system.windows then candidates[i] else u.system.deviceDirectory + candidates[i])
    && r.portType == u.system.portType
  }

  lemma FindsExactly(candidates: seq<string>, i: nat, p: nat, u: Setup, r: Registration)
    requires i < |candidates| && p < |u.prefixes|
    ensures Finds(candidates, i, p, u, r)
       <==> HitsOf(candidates[i], i, u)(p) && r == Registered(candidates[i], u.system)
  {
    ExtendsByPlaces(candidates[i], u.prefixes[p]);
  }

  lemma DueExactly(candidates: seq<string>, n: nat, u: Setup, r: Registration)
    requires n <= |candidates|
    ensures Due(candidates, n, u, r)
       <==> exists i, p | 0 <= i < n && 0 <= p < |u.prefixes| :: Finds(candidates, i, p, u, r)
  {
    if Due(candidates, n, u, r) {
      var i :| 0 <= i < n && DueFor(candidates[i], i, u, r);
      var p: nat :| p < |u.prefixes| && HitsOf(candidates[i], i, u)(p);
      FindsExactly(candidates, i, p, u, r);
    }
    if i, p :| 0 <= i < n && 0 <= p < |u.prefixes| && Finds(candidates, i, p, u, r) {
      FindsExactly(candidates, i, p, u, r);
      assert DueFor(candidates[i], i, u, r);
    }
  }

  /** A port is registered exactly for the candidates that some prefix leaves without letters and that
      pass the read test under it. */
  lemma RegisteredExactly(candidates: seq<string>, n: nat, u: Setup, r: Registration)
    requires n <= |candidates|
    ensures r in Rows(candidates, n, u)
       <==> exists i, p | 0 <= i < n && 0 <= p < |u.prefixes| :: Finds(candidates, i, p, u, r)
  {
    RegisteredPerHit(candidates, n, u, r);
    DueHits(candidates, n, u, r);
    DueExactly(candidates, n, u, r);
    assert r in Rows(candidates, n, u) <==> r in multiset(Rows(candidates, n, u));
  }

  /** `b` begins with `a`. */
  predicate Begins(a: seq<Registration>, b: seq<Registration>) {
    |a| <= |b| && forall k | 0 <= k < |a| :: a[k] == b[k]
  }

  lemma BeginsMore(a: seq<Registration>, b: seq<Registration>, more: seq<Registration>, c: seq<Registration>)
    requires Begins(a, b) && c == b + more
    ensures Begins(a, c)
  {
  }

  lemma OneMoreRow(candidates: seq<string>, n: nat, u: Setup)
    returns (before: seq<Registration>, row: seq<Registration>)
    requires 0 < n <= |candidates|
    ensures before == Rows(candidates, n - 1, u) && Rows(candidates, n, u) == before + row
  {
    before, row := Rows(candidates, n - 1, u), WholeRow(candidates[n - 1], n - 1, u);
  }

  /** The ports of the first candidates come first. */
  lemma {:induction false} RowsInOrder(candidates: seq<string>, m: nat, n: nat, u: Setup)
    requires m <= n <= |candidates|
    ensures Begins(Rows(candidates, m, u), Rows(candidates, n, u))
    decreases n
  {
    if m < n {
      RowsInOrder(candidates, m, n - 1, u);
      var before, row := OneMoreRow(candidates, n, u);
      BeginsMore(Rows(candidates, m, u), before, row, Rows(candidates, n, u));
    }
  }

  /** Two prefixes of the same name overlap. */
  lemma BothExtended(name: string, a: string, b: string)
    requires Extends(name, a) && Extends(name, b)
    ensures Overlap(a, b)
  {
    if |a| <= |b| {
      ExtendedByLess(name, a, b);
    } else {
      ExtendedByLess(name, b, a);
    }
  }

  lemma ExtendedByLess(name: string, a: string, b: string)
    requires Extends(name, a) && Extends(name, b) && |a| <= |b|
    ensures Extends(b, a)
  {
    assert b == name[..|b|] && a == b[..|a|];
    forall k | 0 <= k < |b| - |a| ensures !IsLetter(b[|a|..][k]) {
      assert b[|a|..][k] == name[|a|..][k];
    }
  }

  lemma OneHitAtMost(candidate: string, i: nat, u: Setup)
    requires NoOverlaps(u.prefixes)
    ensures HitCount(candidate, i, u) <= 1
  {
    forall p: nat, q: nat | p < q < |u.prefixes| && Hit(candidate, i, p, u) ensures !Hit(candidate, i, q, u) {
      if Hit(candidate, i, q, u) {
        BothExtended(candidate, u.prefixes[p], u.prefixes[q]);
      }
    }
    CountOneAtMost(HitsOf(candidate, i, u), |u.prefixes|);
  }

  ghost predicate Distinct(names: seq<string>) {
    forall i, j :: 0 <= i < j < |names| ==> names[i] != names[j]
  }

  lemma DifferentNames(a: string, b: string, s: System)
    requires a != b
    ensures Registered(a, s) != Registered(b, s)
  {
    if !s.windows {
      var x, y := s.deviceDirectory + a, s.deviceDirectory + b;
      assert x[|s.deviceDirectory|..] == a && y[|s.deviceDirectory|..] == b;
    }
  }

  lemma {:induction false} NoHitsOfOthers(candidates: seq<string>, n: nat, u: Setup, r: Registration)
    requires n <= |candidates| && forall i :: 0 <= i < n ==> Registered(candidates[i], u.system) != r
    ensures Hits(candidates, n, u, r) == 0
  {
    if n > 0 {
      NoHitsOfOthers(candidates, n - 1, u, r);
    }
  }

  lemma {:induction false} HitsOneAtMost(candidates: seq<string>, n: nat, u: Setup, r: Registration)
    requires n <= |candidates| && Distinct(candidates) && NoOverlaps(u.prefixes)
    ensures Hits(candidates, n, u, r) <= 1
  {
    if n > 0 {
      var candidate := candidates[n - 1];
      HitsOneAtMost(candidates, n - 1, u, r);
      OneHitAtMost(candidate, n - 1, u);
      if Registered(candidate, u.system) == r {
        forall i | 0 <= i < n - 1 ensures Registered(candidates[i], u.system) != r {
          DifferentNames(candidates[i], candidate, u.system);
        }
        NoHitsOfOthers(candidates, n - 1, u, r);
      }
    }
  }

  /** A read test that always succeeds. */
  function AllPass(): Answers {
    (i, p) => true
  }

  /** Two prefixes that overlap register the longer of them, as a device, twice. */
  lemma OverlapRegistersTwice(prefixes: seq<string>, p: nat, q: nat, s: System) returns (name: string)
    requires p < q < |prefixes| && Overlap(prefixes[p], prefixes[q])
    ensures Hits([name], 1, Setup(prefixes, s, AllPass()), Registered(name, s)) > 1
  {
    var u := Setup(prefixes, s, AllPass());
    name := LongerHit(prefixes, p, q, u);
    CountOneAtMost(HitsOf(name, 0, u), |prefixes|);
    assert HitsOf(name, 0, u)(p) && HitsOf(name, 0, u)(q);
  }

  lemma LongerHit(prefixes: seq<string>, p: nat, q: nat, u: Setup) returns (name: string)
    requires p < q < |prefixes| && Overlap(prefixes[p], prefixes[q])
    requires u.prefixes == prefixes && u.testRead == AllPass()
    ensures Hit(name, 0, p, u) && Hit(name, 0, q, u)
  {
    name := if Extends(prefixes[q], prefixes[p]) then prefixes[q] else prefixes[p];
    assert name[|name|..] == [];
  }

  /** No port is registered twice. */
  ghost predicate OnceEach(rs: seq<Registration>) {
    forall r :: Times(rs, r) <= 1
  }

  ghost predicate AlwaysOnce(prefixes: seq<string>, s: System) {
    forall candidates, testRead :: Distinct(candidates) ==>
      OnceEach(Rows(candidates, |candidates|, Setup(prefixes, s, testRead)))
  }

  /** Distinct candidates are registered at most once each, whatever they are and whatever the read test
      answers, exactly when no prefix is another, or another followed by text without letters. */
  lemma RegisteredOnceExactly(prefixes: seq<string>, s: System)
    ensures AlwaysOnce(prefixes, s) <==> NoOverlaps(prefixes)
  {
    if NoOverlaps(prefixes) {
      forall candidates, testRead | Distinct(candidates)
        ensures OnceEach(Rows(candidates, |candidates|, Setup(prefixes, s, testRead)))
      {
        var u := Setup(prefixes, s, testRead);
        forall r ensures Times(Rows(candidates, |candidates|, u), r) <= 1 {
          RegisteredPerHit(candidates, |candidates|, u, r);
          HitsOneAtMost(candidates, |candidates|, u, r);
        }
      }
    } else {
      var p, q :| 0 <= p < q < |prefixes| && Overlap(prefixes[p], prefixes[q]);
      var name := OverlapRegistersTwice(prefixes, p, q, s);
      RegisteredPerHit([name], 1, Setup(prefixes, s, AllPass()), Registered(name, s));
      assert Distinct([name]) && !OnceEach(Rows([name], |[name]|, Setup(prefixes, s, AllPass())));
    }
  }
}
