/** Reading: SerialInputStream.read, readArray, readTerminatedArray and the retrying loop under them.

    The device is a stream of bytes; how a round of the loop goes (what the clock shows, whether select
    fails, times out or is interrupted first, how much a read gives) is the environment's choice. */
module ByteReading {
  import opened Wrappers

  const MAX_INT: int := 0x7fff_ffff
  type i32 = x: int | -0x8000_0000 <= x <= 0x7fff_ffff

  /** A Java int sum. */
  function Wrap(n: int): i32 {
    (n + 0x8000_0000) % 0x1_0000_0000 - 0x8000_0000
  }

  datatype Read = ReadFailed | Got(n: nat)

  datatype Select = SelectFailed | NothingReady | Ready(read: Read)

  /** One round of read_byte_array. `start` is the clock when the call begins with this round. Each
      select that ends with EINTR is made again; `left` has the microseconds each leaves in its timeout,
      which Linux rewrites. */
  datatype Round = Round(start: int, now: int, left: seq<nat>, select: Select)

  /** How a round of the loop ends: time up, error, or so many bytes more. */
  datatype Turn = Expired | Broke | Gave(n: nat)

  datatype Timeval = Timeval(sec: int, usec: int)

  datatype Outcome = Count(n: nat) | IOException | NullPointerException | IndexOutOfBounds | OutsideArray

  const MAX_ROUNDS: nat := 20

  /** A round that ends the call with an error, unless the time was up first. */
  predicate Fails(round: Round) {
    round.select.SelectFailed? || (round.select.Ready? && round.select.read.ReadFailed?)
  }

  predicate TimeUp(round: Round, start: int, timeout: int) {
    timeout >= 0 && round.now - start >= timeout
  }

  /** The bytes a round gives to a read of `left`: none when the time is up, and at most what is asked for. */
  function Given(round: Round, start: int, timeout: int, left: nat): nat {
    if !TimeUp(round, start, timeout) && round.select.Ready? && round.select.read.Got?
    then Min(round.select.read.n, left) else 0
  }

  /** The bytes `n` rounds from the `from`-th give to a read of `length`. */
  function Gathered(rounds: nat -> Round, from: nat, n: nat, timeout: int, length: nat): (total: nat)
    ensures total <= length
  {
    if n == 0 then 0 else
    var before := Gathered(rounds, from, n - 1, timeout, length);
    before + Given(rounds(from + n - 1), rounds(from).start, timeout, length - before)
  }

  // ---------- What is stored ----------

  /** `n` bytes of the stream from the `first`-th on stand at `at`, and everything else is as it was. */
  ghost predicate Stored(was: seq<byte>, body: seq<byte>, at: nat, stream: nat -> byte, first: nat, n: nat) {
    && |body| == |was| && at + n <= |body|
    && (forall i :: at <= i < at + n ==> body[i] == stream(first + i - at))
    && (forall i :: 0 <= i < |body| && !(at <= i < at + n) ==> body[i] == was[i])
  }

  lemma StoredInTurn(was: seq<byte>, body: seq<byte>, body': seq<byte>, at: nat, stream: nat -> byte,
                     first: nat, n: nat, more: nat)
    requires Stored(was, body, at, stream, first, n) && Stored(body, body', at + n, stream, first + n, more)
    ensures Stored(was, body', at, stream, first, n + more)
  {
  }

  /** The body with `n` bytes of the stream from the `first`-th on written at `at`. */
  function Written(body: seq<byte>, at: nat, stream: nat -> byte, first: nat, n: nat): seq<byte> {
    seq(|body|, i requires 0 <= i < |body| => if at <= i < at + n then stream(first + i - at) else body[i])
  }

  lemma Unwritten(body: seq<byte>, at: nat, stream: nat -> byte, first: nat)
    ensures Written(body, at, stream, first, 0) == body
  {
  }

  // ---------- What is waited for ----------

  /** A timeout as select wants it: not negative and fewer than a million microseconds. */
  predicate Normalised(tv: Timeval) {
    0 <= tv.sec && 0 <= tv.usec < 1_000_000
  }

  function Micros(tv: Timeval): int {
    1_000_000 * tv.sec + tv.usec
  }

  /** The timeout given to select for `timeLeft` milliseconds. */
  function ToTimeval(timeLeft: int): Timeval {
    Timeval(timeLeft / 1000, 1000 * (timeLeft % 1000))
  }

  /** An interrupted select leaves what is left of its timeout, at most all of it. */
  function Rewritten(wait: Option<Timeval>, left: nat): Option<Timeval> {
    if wait.None? then None else
    var us := Min(left, Micros(wait.value));
    Some(Timeval(us / 1_000_000, us % 1_000_000))
  }

  /** The timeouts of a select and of its repetitions. */
  function Waits(wait: Option<Timeval>, left: seq<nat>): seq<Option<Timeval>>
    decreases |left|
  {
    [wait] + (if left == [] then [] else Waits(Rewritten(wait, left[0]), left[1..]))
  }

  function WaitIn(round: Round, start: int, timeout: int): Option<Timeval> {
    if timeout >= 0 then Some(ToTimeval(timeout - (round.now - start))) else None
  }

  function RoundWaits(round: Round, start: int, timeout: int): seq<Option<Timeval>> {
    if TimeUp(round, start, timeout) then [] else Waits(WaitIn(round, start, timeout), round.left)
  }

  /** The timeouts of `n` rounds from the `from`-th. */
  function WaitsFrom(rounds: nat -> Round, from: nat, n: nat, timeout: int): seq<Option<Timeval>> {
    if n == 0 then []
    else WaitsFrom(rounds, from, n - 1, timeout) + RoundWaits(rounds(from + n - 1), rounds(from).start, timeout)
  }

  lemma Regroup(a: seq<Option<Timeval>>, b: seq<Option<Timeval>>, c: seq<Option<Timeval>>)
    ensures (a + b) + c == a + (b + c)
  {
  }

  /** A select that waits for ever without a timeout, and else, normalised, for at most the time left. */
  predicate FitsTimeLeft(wait: Option<Timeval>, left: int, timeout: int) {
    if timeout < 0 then wait.None?
    else wait.Some? && left > 0 && Normalised(wait.value) && Micros(wait.value) <= 1000 * left
  }

  /** The wait is for the time left at a round from `from` to `to`. */
  ghost predicate FitsAmong(wait: Option<Timeval>, rounds: nat -> Round, from: nat, to: nat, timeout: int) {
    exists r :: from <= r < to && FitsTimeLeft(wait, timeout - (rounds(r).now - rounds(from).start), timeout)
  }

  lemma {:induction false} WaitsFit(wait: Option<Timeval>, left: seq<nat>, timeLeft: int, timeout: int, i: nat)
    requires FitsTimeLeft(wait, timeLeft, timeout) && i < |Waits(wait, left)|
    ensures FitsTimeLeft(Waits(wait, left)[i], timeLeft, timeout)
    decreases |left|
  {
    if i > 0 {
      WaitsFit(Rewritten(wait, left[0]), left[1..], timeLeft, timeout, i - 1);
    }
  }

  /** A repetition waits for what the interrupted select before it left, which is no more than it was given. */
  lemma {:induction false} WaitsLeft(wait: Option<Timeval>, left: seq<nat>, i: nat)
    requires i < |Waits(wait, left)|
    ensures |Waits(wait, left)| == 1 + |left|
    ensures wait.Some? ==> Waits(wait, left)[i].Some?
    ensures wait.Some? && i > 0 ==>
      Waits(wait, left)[i - 1].Some?
      && Micros(Waits(wait, left)[i].value) == Min(left[i - 1], Micros(Waits(wait, left)[i - 1].value))
    decreases |left|
  {
    if left != [] {
      WaitsLeft(Rewritten(wait, left[0]), left[1..], if i > 0 then i - 1 else 0);
    }
  }

  /** In a round that selects, the first select waits for exactly the time left, and no repetition longer. */
  lemma RoundWaitsFit(round: Round, start: int, timeout: int, i: nat)
    requires i < |RoundWaits(round, start, timeout)|
    ensures FitsTimeLeft(RoundWaits(round, start, timeout)[i], timeout - (round.now - start), timeout)
    ensures var first := RoundWaits(round, start, timeout)[0];
      timeout >= 0 ==> Micros(first.value) == 1000 * (timeout - (round.now - start))
    ensures var waits := RoundWaits(round, start, timeout);
      |waits| == 1 + |round.left|
      && (timeout >= 0 && i > 0 ==>
            waits[i - 1].Some? && Micros(waits[i].value) == Min(round.left[i - 1], Micros(waits[i - 1].value)))
  {
    WaitsLeft(WaitIn(round, start, timeout), round.left, i);
    WaitsFit(WaitIn(round, start, timeout), round.left, timeout - (round.now - start), timeout, i);
  }

  lemma {:induction false} WaitsFromFit(rounds: nat -> Round, from: nat, n: nat, timeout: int, i: nat)
    requires i < |WaitsFrom(rounds, from, n, timeout)|
    ensures FitsAmong(WaitsFrom(rounds, from, n, timeout)[i], rounds, from, from + n, timeout)
  {
    var before := WaitsFrom(rounds, from, n - 1, timeout);
    if i < |before| {
      WaitsFromFit(rounds, from, n - 1, timeout, i);
    } else {
      RoundWaitsFit(rounds(from + n - 1), rounds(from).start, timeout, i - |before|);
    }
  }

  // ---------- The call ----------

  /** What a call of the loop can change, but for the flag that it puts back. */
  datatype View = View(body: seq<byte>, consumed: nat, round: nat, waits: seq<Option<Timeval>>)

  /** The device and how its rounds go. */
  datatype Device = Device(stream: nat -> byte, rounds: nat -> Round)

  /** What read_byte_array is asked for: `length` bytes to body[at], within `timeout` if that is not negative. */
  datatype Request = Request(d: Device, at: nat, length: int, timeout: int)

  /** A round of a call that started when the clock showed `start`. */
  function Turning(was: View, d: Device, start: int, at: nat, left: nat, timeout: int): View {
    var round := d.rounds(was.round);
    var n := Given(round, start, timeout, left);
    View(Written(was.body, at, d.stream, was.consumed, n), was.consumed + n, was.round + 1,
         was.waits + RoundWaits(round, start, timeout))
  }

  /** Where a call that began at `was` and has come to `now` comes next. */
  function Next(was: View, now: View, q: Request): View
    requires was.consumed <= now.consumed < was.consumed + q.length
  {
    var bytes := now.consumed - was.consumed;
    Turning(now, q.d, q.d.rounds(was.round).start, q.at + bytes, q.length - bytes, q.timeout)
  }

  /** A round that neither fails nor finds the time up. */
  predicate Passes(r: nat, from: nat, q: Request) {
    !Fails(q.d.rounds(r)) && !TimeUp(q.d.rounds(r), q.d.rounds(from).start, q.timeout)
  }

  /** The `i`-th round of a call took place, from views[i] to the next, and did not end it. */
  ghost predicate Went(views: seq<View>, i: nat, q: Request)
    requires i + 1 < |views|
  {
    && views[0].consumed <= views[i].consumed < views[0].consumed + q.length
    && views[i + 1] == Next(views[0], views[i], q)
    && Passes(views[i].round, views[0].round, q)
  }

  ghost predicate AllWent(views: seq<View>, q: Request) {
    forall i :: 0 <= i < |views| - 1 ==> Went(views, i, q)
  }

  /** The call whose rounds so far are `views` ends without another round: all is read, or twenty are over. */
  ghost predicate EndsNow(views: seq<View>, end: View, result: int, q: Request)
    requires |views| > 0
  {
    var was, now := views[0], views[|views| - 1];
    && (now.consumed - was.consumed >= q.length || |views| == MAX_ROUNDS + 1)
    && end == now && result == now.consumed - was.consumed
  }

  /** It ends with one more round, which finds the time up or fails. */
  ghost predicate EndsNext(views: seq<View>, end: View, result: int, q: Request)
    requires |views| > 0
  {
    var was, now := views[0], views[|views| - 1];
    && was.consumed <= now.consumed < was.consumed + q.length && |views| <= MAX_ROUNDS
    && end == Next(was, now, q) && !Passes(now.round, was.round, q)
    && result == if TimeUp(q.d.rounds(now.round), q.d.rounds(was.round).start, q.timeout)
                 then now.consumed - was.consumed else -1
  }

  /** A whole call, from views[0] to `end`. */
  ghost predicate Called(views: seq<View>, end: View, result: int, q: Request) {
    && 0 < |views| <= MAX_ROUNDS + 1 && AllWent(views, q)
    && (EndsNow(views, end, result, q) || EndsNext(views, end, result, q))
  }

  /** A call has come to `now`: what the device gave stands in order where it was asked for, nothing else
      is changed, and the selects made are those of the rounds. */
  ghost predicate Conserved(was: View, now: View, q: Request) {
    && was.round <= now.round && was.consumed <= now.consumed
    && now.consumed - was.consumed
       == Gathered(q.d.rounds, was.round, now.round - was.round, q.timeout, Max(q.length, 0))
    && Stored(was.body, now.body, q.at, q.d.stream, was.consumed, now.consumed - was.consumed)
    && now.waits == was.waits + WaitsFrom(q.d.rounds, was.round, now.round - was.round, q.timeout)
  }

  predicate ExpiredLast(was: View, now: View, q: Request) {
    was.round < now.round && TimeUp(q.d.rounds(now.round - 1), q.d.rounds(was.round).start, q.timeout)
  }

  predicate FailedLast(was: View, now: View, q: Request) {
    was.round < now.round && Fails(q.d.rounds(now.round - 1)) && !ExpiredLast(was, now, q)
  }

  /** A call that has come through `count` rounds and may go on. */
  ghost predicate Running(was: View, now: View, q: Request, count: int) {
    && Conserved(was, now, q)
    && 0 <= count <= MAX_ROUNDS && now.round == was.round + count && (q.length <= 0 ==> count == 0)
    && forall r :: was.round <= r < now.round ==> Passes(r, was.round, q)
  }

  /** A call that has ended. It ends at the first round that fails, with -1 and short of the length, or
      finds the time up; otherwise when all is read or twenty rounds are over. Save for the failure the
      result is the number of bytes stored. */
  ghost predicate Finished(was: View, now: View, q: Request, result: int) {
    var stored := now.consumed - was.consumed;
    && Conserved(was, now, q)
    && stored <= Max(q.length, 0)
    && (if q.length > 0 then was.round < now.round <= was.round + MAX_ROUNDS else now.round == was.round)
    && (forall r :: was.round <= r < now.round - 1 ==> Passes(r, was.round, q))
    && (if FailedLast(was, now, q) then result == -1 && stored < q.length else result == stored)
    && (0 <= result < q.length ==> ExpiredLast(was, now, q) || now.round == was.round + MAX_ROUNDS)
  }

  lemma NextConserves(was: View, now: View, q: Request)
    requires Conserved(was, now, q) && now.consumed - was.consumed < q.length && q.at + q.length <= |was.body|
    ensures Conserved(was, Next(was, now, q), q)
  {
    var bytes, next := now.consumed - was.consumed, Next(was, now, q);
    StoredInTurn(was.body, now.body, next.body, q.at, q.d.stream, was.consumed, bytes, next.consumed - now.consumed);
    WaitsInTurn(was, now, next, q);
  }

  lemma WaitsInTurn(was: View, now: View, next: View, q: Request)
    requires was.round <= now.round && next.round == now.round + 1
    requires now.waits == was.waits + WaitsFrom(q.d.rounds, was.round, now.round - was.round, q.timeout)
    requires next.waits == now.waits + RoundWaits(q.d.rounds(now.round), q.d.rounds(was.round).start, q.timeout)
    ensures next.waits == was.waits + WaitsFrom(q.d.rounds, was.round, next.round - was.round, q.timeout)
  {
    var before := WaitsFrom(q.d.rounds, was.round, now.round - was.round, q.timeout);
    Regroup(was.waits, before, RoundWaits(q.d.rounds(now.round), q.d.rounds(was.round).start, q.timeout));
  }

  lemma NextFinishes(was: View, now: View, q: Request, count: nat)
    requires Running(was, now, q, count) && count < MAX_ROUNDS && now.consumed - was.consumed < q.length
    requires Conserved(was, Next(was, now, q), q)
    ensures var next, round, start := Next(was, now, q), q.d.rounds(now.round), q.d.rounds(was.round).start;
      && (TimeUp(round, start, q.timeout) ==> Finished(was, next, q, now.consumed - was.consumed))
      && (!TimeUp(round, start, q.timeout) && Fails(round) ==> Finished(was, next, q, -1))
      && (Passes(now.round, was.round, q) ==> Running(was, next, q, count + 1))
  {
  }

  lemma EndFinishes(was: View, now: View, q: Request, count: nat)
    requires Running(was, now, q, count) && (count >= MAX_ROUNDS || now.consumed - was.consumed >= q.length)
    ensures Finished(was, now, q, now.consumed - was.consumed)
  {
    if q.length > 0 && count > 0 {
      assert Passes(now.round - 1, was.round, q);
    }
  }

  lemma WentOnceMore(views: seq<View>, next: View, q: Request)
    requires |views| > 0 && AllWent(views, q)
    requires var was, now := views[0], views[|views| - 1];
      && was.consumed <= now.consumed < was.consumed + q.length
      && next == Next(was, now, q) && Passes(now.round, was.round, q)
    ensures AllWent(views + [next], q)
  {
    var more := views + [next];
    forall i | 0 <= i < |more| - 1 ensures Went(more, i, q) {
      assert i < |views| - 1 ==> Went(views, i, q);
    }
  }

  lemma BeginsRunning(was: View, q: Request)
    requires q.at + Max(q.length, 0) <= |was.body|
    ensures Running(was, was, q, 0)
  {
    assert was.waits + [] == was.waits;
  }

  lemma {:induction false} RunningUpTo(views: seq<View>, n: nat, q: Request)
    requires n < |views| <= MAX_ROUNDS + 1 && AllWent(views, q) && q.at + Max(q.length, 0) <= |views[0].body|
    ensures Running(views[0], views[n], q, n)
  {
    if n == 0 {
      BeginsRunning(views[0], q);
    } else {
      RunningUpTo(views, n - 1, q);
      assert Went(views, n - 1, q);
      NextConserves(views[0], views[n - 1], q);
      NextFinishes(views[0], views[n - 1], q, n - 1);
    }
  }

  lemma CalledFinishes(views: seq<View>, end: View, result: int, q: Request)
    requires Called(views, end, result, q) && q.at + Max(q.length, 0) <= |views[0].body|
    ensures Finished(views[0], end, q, result)
  {
    var n := |views| - 1;
    RunningUpTo(views, n, q);
    if EndsNow(views, end, result, q) {
      EndFinishes(views[0], views[n], q, n);
    } else {
      NextConserves(views[0], views[n], q);
      NextFinishes(views[0], views[n], q, n);
    }
  }

  lemma FinishedFits(was: View, end: View, q: Request, result: int)
    requires Finished(was, end, q, result)
    ensures was.waits <= end.waits
    ensures forall i :: |was.waits| <= i < |end.waits| ==>
              FitsAmong(end.waits[i], q.d.rounds, was.round, end.round, q.timeout)
  {
    forall i | |was.waits| <= i < |end.waits|
      ensures FitsAmong(end.waits[i], q.d.rounds, was.round, end.round, q.timeout)
    {
      WaitsFromFit(q.d.rounds, was.round, end.round - was.round, q.timeout, i - |was.waits|);
    }
  }

  lemma {:induction false} RoundsInTurn(views: seq<View>, i: nat, q: Request)
    requires AllWent(views, q) && i < |views|
    ensures views[i].round == views[0].round + i
  {
    if i > 0 {
      RoundsInTurn(views, i - 1, q);
      assert Went(views, i - 1, q);
    }
  }

  lemma TimeGiven(timeLeft: int)
    ensures Micros(ToTimeval(timeLeft)) == 1000 * timeLeft
  {
  }

  /** A round after which the call goes on, as the device has it: neither was the time up nor was there an error;
      each select took place, the first with the time left; and the bytes ready were taken, as far as asked for. */
  lemma RoundByRound(views: seq<View>, i: nat, q: Request)
    requires AllWent(views, q) && i + 1 < |views|
    ensures var now, next, start := views[i], views[i + 1], q.d.rounds(views[0].round).start;
      var round := q.d.rounds(views[0].round + i);
      && (q.timeout < 0 || round.now - start < q.timeout)
      && round.select != SelectFailed && round.select != Ready(ReadFailed)
      && next.consumed == now.consumed
                          + (if round.select.NothingReady? then 0
                             else Min(round.select.read.n, q.length - (now.consumed - views[0].consumed)))
      && |next.waits| == |now.waits| + 1 + |round.left|
      && var first := next.waits[|now.waits|];
      if q.timeout < 0 then first.None?
      else first.Some? && 1_000_000 * first.value.sec + first.value.usec == 1000 * (q.timeout - (round.now - start))
  {
    RoundsInTurn(views, i, q);
    assert Went(views, i, q);
    var round, start := q.d.rounds(views[i].round), q.d.rounds(views[0].round).start;
    var wait := WaitIn(round, start, q.timeout);
    WaitsLeft(wait, round.left, 0);
    TimeGiven(q.timeout - (round.now - start));
    assert views[i + 1].waits == views[i].waits + Waits(wait, round.left);
  }

  /** When a call ends, as the device has it: when all is read or twenty rounds are over; or, in one more round
      that takes nothing, with what is read by then, when that finds the time up, and else with an error, when its
      select or its read fails. */
  lemma EndsByDevice(views: seq<View>, end: View, result: int, q: Request)
    requires Called(views, end, result, q)
    ensures var was, now, start := views[0], views[|views| - 1], q.d.rounds(views[0].round).start;
      var round, total := q.d.rounds(views[0].round + |views| - 1), end.consumed - views[0].consumed;
      end.consumed == now.consumed
      && if end == now then result == total && (total >= q.length || |views| == 21)
         else
           && total < q.length && |views| <= 20 && end.body == now.body && end.round == now.round + 1
           && if q.timeout >= 0 && round.now - start >= q.timeout
              then result == total && end.waits == now.waits
              else result == -1 && (round.select == SelectFailed || round.select == Ready(ReadFailed))
  {
    RoundsInTurn(views, |views| - 1, q);
    var was, now := views[0], views[|views| - 1];
    if EndsNext(views, end, result, q) {
      Unwritten(now.body, q.at + (now.consumed - was.consumed), q.d.stream, now.consumed);
      assert now.waits + [] == now.waits;
    }
  }

  /** What read_byte_array does in every environment, its selects included. A result short of the length means, by
      the clock, that the time was up or that all twenty rounds went by; -1 that the last select or read failed. */
  lemma ReadConserves(views: seq<View>, end: View, result: int, q: Request)
    requires Called(views, end, result, q) && q.at + Max(q.length, 0) <= |views[0].body|
    ensures Finished(views[0], end, q, result)
    ensures var start := q.d.rounds(views[0].round).start;
      && (0 <= result < q.length ==>
            || (q.timeout >= 0 && q.d.rounds(end.round - 1).now - start >= q.timeout)
            || end.round == views[0].round + 20)
      && (result == -1 <==>
            && views[0].round < end.round
            && (q.timeout < 0 || q.d.rounds(end.round - 1).now - start < q.timeout)
            && (var last := q.d.rounds(end.round - 1).select; last == SelectFailed || last == Ready(ReadFailed)))
    ensures views[0].waits <= end.waits
    ensures forall i :: |views[0].waits| <= i < |end.waits| ==>
              FitsAmong(end.waits[i], q.d.rounds, views[0].round, end.round, q.timeout)
  {
    CalledFinishes(views, end, result, q);
    FinishedFits(views[0], end, q, result);
  }

  // ---------- When bytes are lost ----------

  /** Every byte taken from the device is counted in the result. */
  predicate AllCounted(was: View, end: View, result: int) {
    end.consumed == was.consumed + Max(result, 0)
  }

  ghost predicate CalledInside(views: seq<View>, end: View, result: int, q: Request, length: int) {
    Called(views, end, result, q) && q.length == length && q.at + Max(length, 0) <= |views[0].body|
  }

  /** No byte is taken and not counted, in any environment, exactly when at most one is asked for: an error
      throws away the bytes of the rounds before it. */
  lemma AllCountedExactly(length: int)
    ensures (forall views, end, result, q | CalledInside(views, end, result, q, length) ::
               AllCounted(views[0], end, result))
       <==> length <= 1
  {
    if length <= 1 {
      forall views, end, result, q | CalledInside(views, end, result, q, length)
        ensures AllCounted(views[0], end, result)
      {
        CalledFinishes(views, end, result, q);
      }
    } else {
      var views, end, q := LosesAByte(length);
    }
  }

  /** A device that gives a byte and then fails. */
  function Failing(): Device {
    Device(i => 0, r => Round(0, 0, [], if r == 0 then Ready(Got(1)) else SelectFailed))
  }

  lemma LosesAByte(length: int) returns (views: seq<View>, end: View, q: Request)
    requires length >= 2
    ensures CalledInside(views, end, -1, q, length) && !AllCounted(views[0], end, -1)
  {
    q := Request(Failing(), 0, length, -1);
    var was := View(seq(length, _ => 0), 0, 0, []);
    var next := Next(was, was, q);
    end := Next(was, next, q);
    views := [was, next];
    assert Went(views, 0, q);
  }

  // ---------- The terminated read ----------

  datatype Scan = Scan(d: Device, offset: nat, length: int, timeout: int, first: byte, second: byte)

  /** The request for one byte after `total`. */
  function OneByte(s: Scan, total: nat): Request {
    Request(s.d, s.offset + total, 1, s.timeout)
  }

  /** The test for the terminator, which leaves the offset out. */
  predicate AtTerminator(body: seq<byte>, total: nat, s: Scan) {
    1 < total <= |body| && body[total - 1] == s.second && body[total - 2] == s.first
  }

  /** The `i`-th one-byte call read a byte, and neither was it the last asked for nor did it end the terminator. */
  ghost predicate WentOn(calls: seq<View>, i: nat, s: Scan)
    requires i + 1 < |calls|
  {
    && Finished(calls[i], calls[i + 1], OneByte(s, i), 1)
    && i + 1 < s.length && !AtTerminator(calls[i + 1].body, i + 1, s)
  }

  ghost predicate AllWentOn(calls: seq<View>, s: Scan) {
    forall i :: 0 <= i < |calls| - 1 ==> WentOn(calls, i, s)
  }

  lemma WentOnOnceMore(calls: seq<View>, next: View, s: Scan)
    requires |calls| > 0 && AllWentOn(calls, s)
    requires Finished(calls[|calls| - 1], next, OneByte(s, |calls| - 1), 1)
    requires |calls| < s.length && !AtTerminator(next.body, |calls|, s)
    ensures AllWentOn(calls + [next], s)
  {
    var more := calls + [next];
    forall i | 0 <= i < |more| - 1 ensures WentOn(more, i, s) {
      assert i < |calls| - 1 ==> WentOn(calls, i, s);
    }
  }

  /** What readTerminatedArray does: one-byte calls, the `i`-th from calls[i] on, until one fails or gets
      nothing, or reads the end of the terminator or the last byte asked for. */
  ghost predicate Terminated(calls: seq<View>, end: View, r: Outcome, s: Scan) {
    && |calls| > 0
    && AllWentOn(calls, s)
    && (r == IOException || r == Count(0) || r == Count(1))
    && Finished(calls[|calls| - 1], end, OneByte(s, |calls| - 1), if r.Count? then r.n else -1)
    && (r == Count(1) ==> AtTerminator(end.body, |calls|, s) || |calls| >= s.length)
  }

  lemma StopsHere(calls: seq<View>, end: View, bytes: int, s: Scan)
    requires |calls| > 0 && AllWentOn(calls, s) && -1 <= bytes <= 1
    requires Finished(calls[|calls| - 1], end, OneByte(s, |calls| - 1), bytes)
    requires bytes == 1 ==> AtTerminator(end.body, |calls|, s) || |calls| >= s.length
    ensures Terminated(calls, end, if bytes < 0 then IOException else Count(bytes), s)
  {
  }

  /** The stream's bytes up to `end`, from `begin` on, end in the two bytes of the terminator. */
  predicate Pair(stream: nat -> byte, begin: nat, end: nat, first: byte, second: byte) {
    begin + 2 <= end && stream(end - 2) == first && stream(end - 1) == second
  }

  predicate NoPairBefore(stream: nat -> byte, begin: nat, end: nat, first: byte, second: byte) {
    forall k :: begin <= k < end ==> !Pair(stream, begin, k, first, second)
  }

  /** So far the device's next bytes, none twice and none left out, stand from the offset on, and they
      do not hold the terminator. */
  ghost predicate Scanned(was: View, now: View, s: Scan) {
    && was.consumed <= now.consumed && was.round <= now.round
    && now.consumed - was.consumed <= Max(s.length, 1)
    && Stored(was.body, now.body, s.offset, s.d.stream, was.consumed, now.consumed - was.consumed)
    && (s.offset == 0 ==> NoPairBefore(s.d.stream, was.consumed, now.consumed, s.first, s.second))
  }

  /** The scan from `was` has ended with the one-byte call that began at `last`. It answers an error exactly when that
      call failed and 0 exactly when it got nothing, its time being up or its twenty rounds over; and 1 when
      it read the end of the terminator or the last byte asked for. */
  ghost predicate ScanEnded(was: View, last: View, end: View, r: Outcome, s: Scan) {
    var total := end.consumed - was.consumed;
    && Scanned(was, last, s) && Scanned(was, end, s)
    && (r == IOException || r == Count(0) || r == Count(1))
    && Finished(last, end, OneByte(s, last.consumed - was.consumed), if r.Count? then r.n else -1)
    && (r == Count(1) ==> AtTerminator(end.body, total, s) || total == Max(s.length, 1))
    && (s.offset == 0 ==>
          && (AtTerminator(end.body, total, s) <==> Pair(s.d.stream, was.consumed, end.consumed, s.first, s.second))
          && (AtTerminator(end.body, total, s) ==> r == Count(1)))
  }

  lemma ScannedInTurn(was: View, now: View, one: View, s: Scan)
    requires Scanned(was, now, s) && now.consumed - was.consumed < Max(s.length, 1)
    requires now.consumed <= one.consumed <= now.consumed + 1 && now.round <= one.round
    requires Stored(now.body, one.body, s.offset + (now.consumed - was.consumed), s.d.stream, now.consumed,
                    one.consumed - now.consumed)
    requires s.offset == 0 ==> NoPairBefore(s.d.stream, was.consumed, now.consumed + 1, s.first, s.second)
    ensures Scanned(was, one, s)
  {
    StoredInTurn(was.body, now.body, one.body, s.offset, s.d.stream, was.consumed, now.consumed - was.consumed,
                 one.consumed - now.consumed);
  }

  lemma OneByteConserves(now: View, one: View, q: Request, result: int)
    requires Finished(now, one, q, result) && q.length == 1
    ensures now.consumed <= one.consumed <= now.consumed + 1 && now.round <= one.round
    ensures result == -1 || result == one.consumed - now.consumed
    ensures result == -1 ==> one.consumed == now.consumed
    ensures Stored(now.body, one.body, q.at, q.d.stream, now.consumed, one.consumed - now.consumed)
  {
  }

  lemma TerminatorStored(was: View, now: View, s: Scan)
    requires Scanned(was, now, s) && s.offset == 0
    ensures AtTerminator(now.body, now.consumed - was.consumed, s)
       <==> Pair(s.d.stream, was.consumed, now.consumed, s.first, s.second)
  {
  }

  lemma OneByteEnds(was: View, now: View, one: View, bytes: int, s: Scan, r: Outcome)
    requires Scanned(was, now, s) && Scanned(was, one, s)
    requires Finished(now, one, OneByte(s, now.consumed - was.consumed), bytes)
    requires r == if bytes < 0 then IOException else Count(bytes)
    requires bytes == -1 || bytes == one.consumed - now.consumed <= 1
    requires var total := one.consumed - was.consumed;
      bytes == 1 ==> AtTerminator(one.body, total, s) || total >= s.length
    requires s.offset == 0 ==> NoPairBefore(s.d.stream, was.consumed, now.consumed + 1, s.first, s.second)
    requires bytes == -1 ==> one.consumed == now.consumed
    ensures ScanEnded(was, now, one, r, s)
  {
    if s.offset == 0 {
      TerminatorStored(was, one, s);
    }
  }

  lemma {:induction false} ScannedUpTo(calls: seq<View>, n: nat, s: Scan)
    requires n < |calls| && AllWentOn(calls, s)
    requires s.offset + Max(s.length, 1) <= |calls[0].body|
    ensures Scanned(calls[0], calls[n], s) && calls[n].consumed == calls[0].consumed + n
    ensures n > 0 ==> n < s.length && !AtTerminator(calls[n].body, n, s)
    ensures s.offset == 0 ==>
      NoPairBefore(s.d.stream, calls[0].consumed, calls[n].consumed + 1, s.first, s.second)
  {
    if n > 0 {
      ScannedUpTo(calls, n - 1, s);
      assert WentOn(calls, n - 1, s);
      ScannedOneMore(calls[0], calls[n - 1], calls[n], n - 1, s);
    }
  }

  lemma ScannedOneMore(was: View, now: View, one: View, n: nat, s: Scan)
    requires Scanned(was, now, s) && now.consumed == was.consumed + n && n < Max(s.length, 1)
    requires Finished(now, one, OneByte(s, n), 1) && !AtTerminator(one.body, n + 1, s)
    requires s.offset == 0 ==> NoPairBefore(s.d.stream, was.consumed, now.consumed + 1, s.first, s.second)
    ensures Scanned(was, one, s) && one.consumed == was.consumed + n + 1
    ensures s.offset == 0 ==> NoPairBefore(s.d.stream, was.consumed, one.consumed + 1, s.first, s.second)
  {
    OneByteConserves(now, one, OneByte(s, n), 1);
    ScannedInTurn(was, now, one, s);
    if s.offset == 0 {
      TerminatorStored(was, one, s);
    }
  }

  lemma ScanEnds(calls: seq<View>, end: View, r: Outcome, s: Scan)
    requires Terminated(calls, end, r, s) && s.offset + Max(s.length, 1) <= |calls[0].body|
    ensures ScanEnded(calls[0], calls[|calls| - 1], end, r, s)
  {
    var n := |calls| - 1;
    var bytes := if r.Count? then r.n else -1;
    ScannedUpTo(calls, n, s);
    OneByteConserves(calls[n], end, OneByte(s, n), bytes);
    ScannedInTurn(calls[0], calls[n], end, s);
    OneByteEnds(calls[0], calls[n], end, bytes, s, r);
  }

  /** What readTerminatedArray stores is the device's next bytes, none twice and none left out, and at most
      `length` of them, or one. Without an offset it stops at the first end of the terminator and reads
      nothing past it. The exception means that a select or a read failed in time, and 0 that the time was up or that
      all twenty rounds went by. */
  lemma TerminatedConserves(calls: seq<View>, end: View, r: Outcome, s: Scan)
    requires Terminated(calls, end, r, s) && s.offset + Max(s.length, 1) <= |calls[0].body|
    ensures ScanEnded(calls[0], calls[|calls| - 1], end, r, s)
    ensures var rounds, last := s.d.rounds, calls[|calls| - 1];
      && last.round < end.round
      && var expired := s.timeout >= 0 && rounds(end.round - 1).now - rounds(last.round).start >= s.timeout;
      && (r == Count(0) ==> expired || end.round == last.round + 20)
      && var ended := rounds(end.round - 1).select;
      (r == IOException <==> !expired && (ended == SelectFailed || ended == Ready(ReadFailed)))
    ensures s.offset == 0 ==>
      var begin, total := calls[0].consumed, end.consumed - calls[0].consumed;
      && (forall k | begin <= k < end.consumed - 2 :: !(s.d.stream(k) == s.first && s.d.stream(k + 1) == s.second))
      && (r == Count(1) && total != Max(s.length, 1) ==>
            total >= 2 && s.d.stream(begin + total - 2) == s.first && s.d.stream(begin + total - 1) == s.second)
  {
    var last := calls[|calls| - 1];
    ScanEnds(calls, end, r, s);
    OneByteByClock(last, end, OneByte(s, |calls| - 1), if r.Count? then r.n else -1);
    if s.offset == 0 {
      NoPairInside(calls[0], end, s);
      PairAtEnd(calls[0], last, end, r, s);
    }
  }

  lemma PairAtEnd(was: View, last: View, end: View, r: Outcome, s: Scan)
    requires ScanEnded(was, last, end, r, s) && s.offset == 0
    ensures var begin, total := was.consumed, end.consumed - was.consumed;
      r == Count(1) && total != Max(s.length, 1) ==>
        total >= 2 && s.d.stream(begin + total - 2) == s.first && s.d.stream(begin + total - 1) == s.second
  {
  }

  /** A one-byte call by the clock: what 0 and -1 mean. */
  lemma OneByteByClock(now: View, one: View, q: Request, bytes: int)
    requires Finished(now, one, q, bytes) && q.length == 1
    ensures var rounds := q.d.rounds;
      && now.round < one.round
      && var expired := q.timeout >= 0 && rounds(one.round - 1).now - rounds(now.round).start >= q.timeout;
      && (bytes == 0 ==> expired || one.round == now.round + 20)
      && var ended := rounds(one.round - 1).select;
      (bytes == -1 <==> !expired && (ended == SelectFailed || ended == Ready(ReadFailed)))
  {
  }

  lemma NoPairInside(was: View, end: View, s: Scan)
    requires Scanned(was, end, s) && s.offset == 0
    ensures forall k | was.consumed <= k < end.consumed - 2 ::
              !(s.d.stream(k) == s.first && s.d.stream(k + 1) == s.second)
  {
    forall k | was.consumed <= k < end.consumed - 2
      ensures !(s.d.stream(k) == s.first && s.d.stream(k + 1) == s.second)
    {
      assert !Pair(s.d.stream, was.consumed, k + 2, s.first, s.second);
    }
  }

  /** The count answered, where there is one, is the number of bytes read. */
  predicate CountsTotal(was: View, end: View, r: Outcome) {
    r.Count? ==> end.consumed == was.consumed + r.n
  }

  ghost predicate TerminatedInside(calls: seq<View>, end: View, r: Outcome, s: Scan, length: int) {
    Terminated(calls, end, r, s) && s.length == length && s.offset + Max(length, 1) <= |calls[0].body|
  }

  /** The count answered is the number of bytes read, in any environment, exactly when at most one is
      asked for: it is the last call's. */
  lemma CountsTotalExactly(length: int)
    ensures (forall calls, end, r, s | TerminatedInside(calls, end, r, s, length) :: CountsTotal(calls[0], end, r))
       <==> length <= 1
  {
    if length <= 1 {
      forall calls, end, r, s | TerminatedInside(calls, end, r, s, length) ensures CountsTotal(calls[0], end, r) {
        if |calls| > 1 {
          assert WentOn(calls, 0, s);
        }
      }
    } else {
      var calls, end, s := CountsTooFew(length);
    }
  }

  /** A device whose first round gives a byte just in time; the others come too late. */
  function Pausing(): Device {
    Device(i => 0, r => Round(0, if r == 0 then -1 else 0, [], Ready(Got(1))))
  }

  lemma FirstByteInTime(was: View, one: View, s: Scan)
    requires s.d == Pausing() && s.offset == 0 && |was.body| > 0 && was.consumed == 0 && was.round == 0
    requires one == Next(was, was, OneByte(s, 0))
    ensures Finished(was, one, OneByte(s, 0), 1)
    ensures |one.body| == |was.body| && one.consumed == 1 && one.round == 1
  {
    assert Went([was, one], 0, OneByte(s, 0));
    CalledFinishes([was, one], one, 1, OneByte(s, 0));
  }

  lemma SecondByteLate(one: View, end: View, s: Scan)
    requires s.d == Pausing() && s.offset == 0 && s.timeout == 0 && |one.body| > 1 && one.round == 1
    requires end == Next(one, one, OneByte(s, 1))
    ensures Finished(one, end, OneByte(s, 1), 0) && end.consumed == one.consumed
  {
    CalledFinishes([one], end, 0, OneByte(s, 1));
  }

  lemma CountsTooFew(length: int) returns (calls: seq<View>, end: View, s: Scan)
    requires length >= 2
    ensures TerminatedInside(calls, end, Count(0), s, length) && !CountsTotal(calls[0], end, Count(0))
  {
    s := Scan(Pausing(), 0, length, 0, 0, 0);
    var was := View(seq(length, _ => 0), 0, 0, []);
    var one := Next(was, was, OneByte(s, 0));
    end := Next(one, one, OneByte(s, 1));
    FirstByteInTime(was, one, s);
    SecondByteLate(one, end, s);
    calls := [was, one];
    assert WentOn(calls, 0, s);
  }

  // ---------- The port ----------

  class Port {
    var fd: int
    /** The receive timeout and threshold. */
    var timeout: int
    var threshold: nat
    /** eventflags[SPE_DATA_AVAILABLE]. */
    var dataAvailable: bool
    /** How many bytes of the stream have been read, and how many rounds have gone by. */
    var consumed: nat
    var round: nat
    /** The timeout of every select, the repeated ones included. */
    var waits: seq<Option<Timeval>>
    const device: Device

    constructor (fd: int, timeout: int, threshold: nat, device: Device)
      ensures this.fd == fd && this.timeout == timeout && this.threshold == threshold
      ensures this.device == device && consumed == 0 && round == 0 && waits == []
    {
      this.fd, this.timeout, this.threshold, this.device := fd, timeout, threshold, device;
      dataAvailable, consumed, round, waits := false, 0, 0, [];
    }

    ghost function Now(body: array<byte>): View
      reads `consumed, `round, `waits, body
    {
      View(body[..], consumed, round, waits)
    }

    /** select, made again while it is interrupted. */
    method SelectAgain(wait: Option<Timeval>, left: seq<nat>)
      modifies `waits
      ensures waits == old(waits) + Waits(wait, left)
    {
      var tv, i := wait, 0;
      ghost var all := waits + Waits(wait, left);
      assert left[0..] == left;
      while i < |left|
        invariant i <= |left| && waits + Waits(tv, left[i..]) == all
      {
        assert left[i..][1..] == left[i + 1..];
        Regroup(waits, [tv], Waits(Rewritten(tv, left[i]), left[i + 1..]));
        waits := waits + [tv];
        tv := Rewritten(tv, left[i]);
        i := i + 1;
      }
      assert [tv] + [] == [tv];
      waits := waits + [tv];
    }

    /** read(2): the device's next bytes go to the array. */
    method Take(body: array<byte>, at: nat, n: nat)
      requires at + n <= body.Length
      modifies `consumed, body
      ensures consumed == old(consumed) + n
      ensures body[..] == Written(old(body[..]), at, device.stream, old(consumed), n)
    {
      forall i | at <= i < at + n {
        body[i] := device.stream(consumed + i - at);
      }
      consumed := consumed + n;
    }

    /** A round of the loop, of a call that started when the clock showed `start`. */
    method TakeRound(start: int, body: array<byte>, at: nat, left: nat) returns (turn: Turn)
      requires at + left <= body.Length
      modifies `consumed, `round, `waits, body
      ensures Now(body) == Turning(old(Now(body)), device, start, at, left, timeout)
      ensures turn.Expired? <==> TimeUp(device.rounds(old(round)), start, timeout)
      ensures turn.Broke? <==> Fails(device.rounds(old(round))) && !turn.Expired?
      ensures turn.Gave? ==> turn.n == consumed - old(consumed)
    {
      var current := device.rounds(round);
      round := round + 1;
      Unwritten(body[..], at, device.stream, consumed);
      var tv := None;
      if timeout >= 0 {
        if current.now - start >= timeout {
          assert waits + [] == waits;
          return Expired;
        }
        var timeLeft := timeout - (current.now - start);
        tv := Some(Timeval(timeLeft / 1000, 1000 * (timeLeft % 1000)));
      }
      SelectAgain(tv, current.left);
      match current.select {
        case SelectFailed => return Broke;
        case NothingReady => return Gave(0);
        case Ready(ReadFailed) => return Broke;
        case Ready(Got(n)) =>
          Take(body, at, Min(n, left));
          return Gave(Min(n, left));
      }
    }

    /** The round as a step of the call that began at `was`. */
    method StepOfCall(ghost was: View, ghost now: View, ghost q: Request,
                      start: int, body: array<byte>, at: nat, left: nat)
      returns (turn: Turn)
      requires q.d == device && q.timeout == timeout && q.at + q.length <= body.Length
      requires now == Now(body) && start == q.d.rounds(was.round).start
      requires was.consumed <= now.consumed && 0 < left == q.length - (now.consumed - was.consumed)
      requires at == q.at + (now.consumed - was.consumed)
      modifies `consumed, `round, `waits, body
      ensures Now(body) == Next(was, now, q)
      ensures turn.Expired? <==> TimeUp(q.d.rounds(now.round), start, timeout)
      ensures turn.Gave? <==> Passes(now.round, was.round, q)
      ensures turn.Gave? ==> turn.n == consumed - now.consumed
    {
      turn := TakeRound(start, body, at, left);
    }

    /** read_byte_array, storing from body[at] on. */
    method ReadByteArray(body: array<byte>, at: nat, length: int) returns (result: int, ghost views: seq<View>)
      requires at + Max(length, 0) <= body.Length
      modifies `dataAvailable, `consumed, `round, `waits, body
      ensures dataAvailable == old(dataAvailable)
      ensures Called(views, Now(body), result, Request(device, at, length, timeout)) && views[0] == old(Now(body))
    {
      ghost var was, now, q := Now(body), Now(body), Request(device, at, length, timeout);
      views := [was];
      var flag := dataAvailable;
      dataAvailable := false;
      var bytes, left, count := 0, length, 0;
      var start := device.rounds(round).start;
      while bytes < length && count < MAX_ROUNDS
        invariant !dataAvailable && 0 <= count <= MAX_ROUNDS && now == Now(body)
        invariant 0 <= bytes == now.consumed - was.consumed && left == length - bytes
        invariant |views| == count + 1 && views[0] == was && views[count] == now && AllWent(views, q)
      {
        var turn := StepOfCall(was, now, q, start, body, at + bytes, left);
        match turn {
          case Expired =>
            now := Now(body);
            dataAvailable := flag;
            assert now == Now(body);
            return bytes, views;
          case Broke =>
            now := Now(body);
            dataAvailable := flag;
            assert now == Now(body);
            return -1, views;
          case Gave(ret) =>
            WentOnceMore(views, Now(body), q);
            views := views + [Now(body)];
            bytes := bytes + ret;
            left := left - ret;
        }
        count := count + 1;
        now := Now(body);
      }
      dataAvailable := flag;
      assert now == Now(body);
      return bytes, views;
    }

    /** RXTXPort.readArray. */
    method ReadArray(body: array<byte>, offset: nat, length: int) returns (r: Outcome)
      requires offset + Max(length, 0) <= body.Length
      modifies `dataAvailable, `consumed, `round, `waits, body
      ensures dataAvailable == old(dataAvailable)
      ensures length < 0 ==> r == IndexOutOfBounds && Now(body) == old(Now(body))
      ensures length >= 0 ==> Answered(old(Now(body)), Now(body), Request(device, offset, length, timeout), r)
    {
      if length < 0 {
        return IndexOutOfBounds;
      }
      var bytes;
      ghost var views;
      bytes, views := ReadByteArray(body, offset, length);
      CalledFinishes(views, Now(body), bytes, Request(device, offset, length, timeout));
      return if bytes < 0 then IOException else Count(bytes);
    }

    /** SerialInputStream.read. `available` is what nativeavailable gives, None when it throws;
        `requested` is what readArray is asked for, when it is called. */
    method Read(body: array?<byte>, off: i32, len: i32, available: Option<nat>)
      returns (r: Outcome, ghost requested: Option<int>)
      requires body != null ==> body.Length <= MAX_INT
      modifies `dataAvailable, `consumed, `round, `waits, body
      ensures dataAvailable == old(dataAvailable)
      ensures requested.None? ==> consumed == old(consumed) && round == old(round) && waits == old(waits)
      ensures requested.None? && body != null ==> body[..] == old(body[..])
      ensures requested.None? ==>
        r == (if fd == 0 then IOException
              else if body == null then NullPointerException
              else if !InBounds(body.Length, off, len) then IndexOutOfBounds
              else if len == 0 then Count(0)
              else IOException)
      ensures requested.None? <==>
        fd == 0 || body == null || !InBounds(body.Length, off, len) || len == 0 || (threshold == 0 && available.None?)
      ensures requested.Some? ==>
        && requested.value == Min(len, if threshold > 0 then threshold else Max(available.value, 1))
        && 1 <= requested.value <= len
        && if off + requested.value > body.Length then r == OutsideArray && Now(body) == old(Now(body))
           else Answered(old(Now(body)), Now(body), Request(device, off, requested.value, timeout), r)
    {
      requested := None;
      if fd == 0 {
        return IOException, None;
      }
      if body == null {
        return NullPointerException, None;
      }
      if off < 0 || len < 0 || Wrap(off + len) > body.Length {
        return IndexOutOfBounds, None;
      }
      if len == 0 {
        return Count(0), None;
      }
      var minimum := len;
      if threshold == 0 {
        if available.None? {
          return IOException, None;
        }
        if available.value == 0 {
          minimum := 1;
        } else {
          minimum := Min(minimum, available.value);
        }
      } else {
        minimum := Min(minimum, threshold);
      }
      requested := Some(minimum);
      if off + minimum > body.Length {
        return OutsideArray, requested;
      }
      r := ReadArray(body, off, minimum);
    }

    /** A call of the loop for one byte. */
    method ReadOne(body: array<byte>, at: nat, ghost q: Request) returns (result: int)
      requires at < body.Length && q == Request(device, at, 1, timeout)
      modifies `dataAvailable, `consumed, `round, `waits, body
      ensures dataAvailable == old(dataAvailable)
      ensures Finished(old(Now(body)), Now(body), q, result) && -1 <= result <= 1
    {
      ghost var views;
      result, views := ReadByteArray(body, at, 1);
      CalledFinishes(views, Now(body), result, q);
      OneByteConserves(views[0], Now(body), q, result);
    }

    /** RXTXPort.readTerminatedArray. The count returned is that of the last byte's call. */
    method ReadTerminatedArray(body: array<byte>, offset: nat, length: int, first: byte, second: byte)
      returns (r: Outcome, ghost calls: seq<View>)
      requires offset + Max(length, 1) <= body.Length
      modifies `dataAvailable, `consumed, `round, `waits, body
      ensures dataAvailable == old(dataAvailable)
      ensures |calls| > 0 && calls[0] == old(Now(body))
      ensures length < 0 ==> r == IndexOutOfBounds && Now(body) == old(Now(body))
      ensures length >= 0 ==>
        Terminated(calls, Now(body), r, Scan(device, offset, length, timeout, first, second))
    {
      calls := [Now(body)];
      if length < 0 {
        return IndexOutOfBounds, calls;
      }
      ghost var s := Scan(device, offset, length, timeout, first, second);
      var total := 0;
      while true
        invariant dataAvailable == old(dataAvailable)
        invariant |calls| == total + 1 && calls[0] == old(Now(body)) && calls[total] == Now(body)
        invariant 0 <= total < Max(length, 1)
        invariant AllWentOn(calls, s)
        decreases Max(length, 1) - total
      {
        var bytes := ReadOne(body, offset + total, OneByte(s, total));
        ghost var now := Now(body);
        if bytes < 0 {
          StopsHere(calls, now, bytes, s);
          return IOException, calls;
        }
        total := total + bytes;
        if total > 1 && second == body[total - 1] && first == body[total - 2] {
          StopsHere(calls, now, bytes, s);
          return Count(bytes), calls;
        }
        if !(bytes > 0 && total < length) {
          StopsHere(calls, now, bytes, s);
          return Count(bytes), calls;
        }
        WentOnOnceMore(calls, now, s);
        calls := calls + [now];
      }
    }
  }

  /** readArray's answer to a call of the loop. */
  ghost predicate Answered(was: View, now: View, q: Request, r: Outcome) {
    (r.Count? || r.IOException?) && Finished(was, now, q, if r.Count? then r.n else -1)
  }

  /** The check on off and len as compiled, with the sum wrapped. */
  predicate InBounds(length: nat, off: i32, len: i32) {
    off >= 0 && len >= 0 && Wrap(off + len) <= length
  }

  /** The check lets a range outside the array through exactly when off + len overflows. */
  lemma OverflowPassesExactly(length: nat, off: i32, len: i32)
    requires length <= MAX_INT
    ensures InBounds(length, off, len) && !(0 <= off && 0 <= len && off + len <= length)
       <==> 0 <= off && 0 <= len && off + len > MAX_INT
    ensures 0 <= off && 0 <= len && off + len <= length ==> InBounds(length, off, len)
  {
  }
}
