/** Writing an array through partial writes: the half-duplex RS485 port, which raises DTR around the
    data, and the WinCE port. How much each write takes is the environment's choice; a call that is
    still retrying when the writes given are used up is `StillTrying`. */
module Writing {
  import opened Wrappers

  /** One write(2): so many bytes taken, EINTR, or another error. */
  datatype Write = Took(n: nat) | Interrupted | Failed

  /** One tcflush: done, EINTR, or another error. */
  datatype Flush = Flushed | FlushInterrupted | FlushFailed

  datatype Outcome = Done | IOException | StillTrying

  /** What the line sees. The modem bits are DTR and RTS; a flush of the input succeeds or not. */
  datatype Act = SetModem(dtr: bool, rts: bool) | Send(chunk: seq<byte>) | FlushInput(result: Flush)

  // ---------- Chunks ----------

  /** The bytes of the chunks, in order. */
  function Joined(chunks: seq<seq<byte>>): seq<byte>
    decreases |chunks|
  {
    if chunks == [] then [] else Joined(chunks[..|chunks| - 1]) + chunks[|chunks| - 1]
  }

  function Sends(chunks: seq<seq<byte>>): seq<Act> {
    seq(|chunks|, i requires 0 <= i < |chunks| => Send(chunks[i]))
  }

  lemma OneMoreChunk(chunks: seq<seq<byte>>, chunk: seq<byte>)
    ensures Joined(chunks + [chunk]) == Joined(chunks) + chunk
    ensures Sends(chunks + [chunk]) == Sends(chunks) + [Send(chunk)]
  {
    assert (chunks + [chunk])[..|chunks|] == chunks;
  }

  lemma NextChunk(s: seq<byte>, off: nat, total: nat, taken: nat, chunks: seq<seq<byte>>, chunk: seq<byte>)
    requires off + total + taken <= |s|
    requires Joined(chunks) == s[off..off + total] && chunk == s[off + total..off + total + taken]
    ensures Joined(chunks + [chunk]) == s[off..off + total + taken]
  {
    OneMoreChunk(chunks, chunk);
  }

  // ---------- When the loops end ----------

  /** What `n` writes take of `count` bytes, a write taking at most what it is offered. */
  function Taken(writes: seq<Write>, n: nat, count: nat): (total: nat)
    requires n <= |writes|
    ensures total <= count
  {
    if n == 0 then 0 else
    var before := Taken(writes, n - 1, count);
    before + (if writes[n - 1].Took? then Min(writes[n - 1].n, count - before) else 0)
  }

  /** The send loop of the RS485 port ends after the `n`-th write: nothing is left and it was not interrupted. */
  predicate SendEnds(writes: seq<Write>, n: nat, count: nat) {
    0 < n <= |writes| && Taken(writes, n, count) == count && !writes[n - 1].Interrupted?
  }

  /** The loop makes `n` of the writes: up to the first at which it ends, or all of them. */
  ghost predicate SendRuns(writes: seq<Write>, n: nat, count: nat) {
    && n <= |writes|
    && (forall k :: 0 <= k < n ==> !SendEnds(writes, k, count))
    && (SendEnds(writes, n, count) || n == |writes|)
  }

  /** The flush loop ends after the `n`-th flush. */
  predicate FlushEnds(flushes: seq<Flush>, n: nat, count: nat) {
    0 < n <= |flushes| && !(flushes[n - 1].FlushInterrupted? && count < 5)
  }

  ghost predicate FlushRuns(flushes: seq<Flush>, n: nat, count: nat) {
    && n <= |flushes|
    && (forall k :: 0 <= k < n ==> !FlushEnds(flushes, k, count))
    && (FlushEnds(flushes, n, count) || n == |flushes|)
  }

  function Flushes(flushes: seq<Flush>, n: nat): seq<Act>
    requires n <= |flushes|
  {
    seq(n, i requires 0 <= i < n => FlushInput(flushes[i]))
  }

  class Rs485Line {
    var dtr: bool
    var rts: bool
    var log: seq<Act>

    constructor (dtr: bool, rts: bool)
      ensures this.dtr == dtr && this.rts == rts && log == []
    {
      this.dtr, this.rts, log := dtr, rts, [];
    }

    /** TIOCMGET, one bit changed, TIOCMSET. */
    method SetDtr(level: bool)
      modifies `dtr, `log
      ensures dtr == level && log == old(log) + [SetModem(level, rts)]
    {
      dtr := level;
      log := log + [SetModem(level, rts)];
    }

    /** The loop that sends. `last` is the last write's result, None while the loop goes on; `n` is
        the number of writes made. */
    method SendAll(bytes: array<byte>, writes: seq<Write>)
      returns (last: Option<Write>, ghost chunks: seq<seq<byte>>, ghost n: nat)
      modifies `log
      ensures log == old(log) + Sends(chunks)
      ensures SendRuns(writes, n, bytes.Length)
      ensures Joined(chunks) == bytes[..][..Taken(writes, n, bytes.Length)]
      ensures last == if SendEnds(writes, n, bytes.Length) then Some(writes[n - 1]) else None
    {
      var total, i, again := 0, 0, true;
      last, chunks := None, [];
      while again
        invariant i <= |writes| && log == old(log) + Sends(chunks)
        invariant total == Taken(writes, i, bytes.Length) && Joined(chunks) == bytes[..total]
        invariant forall k :: 0 <= k < i ==> !SendEnds(writes, k, bytes.Length)
        invariant again <==> !SendEnds(writes, i, bytes.Length)
        invariant !again ==> last == Some(writes[i - 1])
        decreases |writes| - i, again
      {
        if i == |writes| {
          return None, chunks, i;
        }
        last := Some(writes[i]);
        i := i + 1;
        if last.value.Took? && Min(last.value.n, bytes.Length - total) > 0 {
          var taken := Min(last.value.n, bytes.Length - total);
          log := log + [Send(bytes[total..total + taken])];
          OneMoreChunk(chunks, bytes[total..total + taken]);
          chunks := chunks + [bytes[total..total + taken]];
          total := total + taken;
        }
        again := total < bytes.Length || last.value.Interrupted?;
      }
      n := i;
    }

    /** The loop that flushes the input. It means to give up after five interruptions, but tests the
        number of bytes to write. */
    method FlushAll(count: nat, flushes: seq<Flush>) returns (result: Option<Flush>, ghost n: nat)
      modifies `log
      ensures FlushRuns(flushes, n, count)
      ensures log == old(log) + Flushes(flushes, n)
      ensures result == if FlushEnds(flushes, n, count) then Some(flushes[n - 1]) else None
    {
      var i, again := 0, true;
      result := None;
      while again
        invariant i <= |flushes| && log == old(log) + Flushes(flushes, i)
        invariant forall k :: 0 <= k < i ==> !FlushEnds(flushes, k, count)
        invariant again <==> !FlushEnds(flushes, i, count)
        invariant !again ==> result == Some(flushes[i - 1])
        decreases |flushes| - i, again
      {
        if i == |flushes| {
          return None, i;
        }
        result := Some(flushes[i]);
        log := log + [FlushInput(flushes[i])];
        i := i + 1;
        again := result.value.FlushInterrupted? && count < 5;
      }
      n := i;
    }

    /** writeArray; `empties` says whether the transmitter ever reports itself empty. The line sees DTR
        raised, then of the data what the `n` writes took, and then, when that is the whole of it, DTR
        lowered and `m` flushes. Nothing but DTR is changed. */
    method WriteArray(body: array<byte>, offset: nat, count: nat,
                      writes: seq<Write>, empties: bool, flushes: seq<Flush>)
      returns (r: Outcome, ghost chunks: seq<seq<byte>>, ghost n: nat, ghost m: nat)
      requires offset + count <= body.Length
      modifies this
      ensures rts == old(rts)
      ensures SendRuns(writes, n, count) && FlushRuns(flushes, m, count)
      ensures Joined(chunks) == body[..][offset..offset + Taken(writes, n, count)]
      ensures log == old(log) + [SetModem(true, rts)] + Sends(chunks)
                     + (if Lowers(writes, n, count, empties) then [SetModem(false, rts)] + Flushes(flushes, m) else [])
      ensures dtr <==> !Lowers(writes, n, count, empties)
      ensures r == Done <==>
        Lowers(writes, n, count, empties) && FlushEnds(flushes, m, count) && flushes[m - 1].Flushed?
      ensures r == IOException <==>
        || (SendEnds(writes, n, count) && !writes[n - 1].Took?)
        || (Lowers(writes, n, count, empties) && FlushEnds(flushes, m, count) && !flushes[m - 1].Flushed?)
      ensures r == StillTrying <==>
        || !SendEnds(writes, n, count)
        || (writes[n - 1].Took? && !empties)
        || (Lowers(writes, n, count, empties) && !FlushEnds(flushes, m, count))
      ensures CallEndsAfter(r, dtr, Pattern(writes, empties, flushes), n, m, count)
    {
      var bytes := CopyOf(body, offset, count);
      SetDtr(true);
      var last;
      last, chunks, n := SendAll(bytes, writes);
      PrefixOfSlice(body[..], bytes[..], offset, count, Taken(writes, n, count));
      ghost var sent := log;
      assert sent + [] == sent;
      m := FlushesMade(flushes, count);
      if last.None? {
        return StillTrying, chunks, n, m;
      }
      if !last.value.Took? {
        return IOException, chunks, n, m;
      }
      if !empties {
        return StillTrying, chunks, n, m;
      }
      var result;
      result, m := LowerAndFlush(count, flushes);
      if result.None? {
        return StillTrying, chunks, n, m;
      }
      if !result.value.Flushed? {
        return IOException, chunks, n, m;
      }
      return Done, chunks, n, m;
    }

    /** The end of writeArray, after the transmitter has run empty. */
    method LowerAndFlush(count: nat, flushes: seq<Flush>) returns (result: Option<Flush>, ghost m: nat)
      modifies `dtr, `log
      ensures !dtr && FlushRuns(flushes, m, count)
      ensures log == old(log) + ([SetModem(false, rts)] + Flushes(flushes, m))
      ensures result == if FlushEnds(flushes, m, count) then Some(flushes[m - 1]) else None
    {
      SetDtr(false);
      result, m := FlushAll(count, flushes);
      LogInParts(old(log), [SetModem(false, rts)], Flushes(flushes, m));
    }
  }

  /** The bytes to write, copied to a buffer of their own. */
  method CopyOf(body: array<byte>, offset: nat, count: nat) returns (bytes: array<byte>)
    requires offset + count <= body.Length
    ensures fresh(bytes) && bytes.Length == count && bytes[..] == body[..][offset..offset + count]
  {
    bytes := new byte[count];
    var i := 0;
    while i < count
      modifies bytes
      invariant 0 <= i <= count && body[..] == old(body[..])
      invariant forall k :: 0 <= k < i ==> bytes[k] == body[k + offset]
    {
      bytes[i] := body[i + offset];
      i := i + 1;
    }
  }

  lemma PrefixOfSlice(body: seq<byte>, bytes: seq<byte>, offset: nat, count: nat, n: nat)
    requires n <= count && offset + count <= |body| && bytes == body[offset..offset + count]
    ensures bytes[..n] == body[offset..offset + n]
  {
  }

  lemma LogInParts(a: seq<Act>, b: seq<Act>, c: seq<Act>)
    ensures a + b + c == a + (b + c)
  {
  }

  /** What the environment does in a call of writeArray. */
  datatype Pattern = Pattern(writes: seq<Write>, empties: bool, flushes: seq<Flush>)

  /** A call comes to `r` with DTR as it is then. */
  ghost predicate CallEnds(r: Outcome, dtr: bool, p: Pattern, count: nat) {
    exists n, m :: CallEndsAfter(r, dtr, p, n, m, count)
  }

  /** The same with the numbers of writes and flushes it made. */
  ghost predicate CallEndsAfter(r: Outcome, dtr: bool, p: Pattern, n: nat, m: nat, count: nat) {
    && SendRuns(p.writes, n, count) && FlushRuns(p.flushes, m, count)
    && (dtr <==> !Lowers(p.writes, n, count, p.empties))
    && r == (if SendEnds(p.writes, n, count) && !p.writes[n - 1].Took? then IOException
             else if dtr || !FlushEnds(p.flushes, m, count) then StillTrying
             else if p.flushes[m - 1].Flushed? then Done else IOException)
  }

  /** Writing is over: the whole was taken, the last write did not fail and the transmitter ran empty. */
  predicate Lowers(writes: seq<Write>, n: nat, count: nat, empties: bool) {
    SendEnds(writes, n, count) && writes[n - 1].Took? && empties
  }

  lemma FlushesMade(flushes: seq<Flush>, count: nat) returns (m: nat)
    ensures FlushRuns(flushes, m, count)
  {
    m := 0;
    while m < |flushes| && !FlushEnds(flushes, m, count)
      invariant m <= |flushes|
      invariant forall k :: 0 <= k < m ==> !FlushEnds(flushes, k, count)
    {
      m := m + 1;
    }
  }

  /** How many writes and flushes are made is determined by their patterns. */
  lemma RunsOnce(writes: seq<Write>, flushes: seq<Flush>, count: nat, n: nat, n': nat, m: nat, m': nat)
    requires SendRuns(writes, n, count) && SendRuns(writes, n', count)
    requires FlushRuns(flushes, m, count) && FlushRuns(flushes, m', count)
    ensures n == n' && m == m'
  {
  }

  /** What `n` writes could take, were there enough to write. */
  function Offered(writes: seq<Write>, n: nat): nat
    requires n <= |writes|
  {
    if n == 0 then 0 else Offered(writes, n - 1) + (if writes[n - 1].Took? then writes[n - 1].n else 0)
  }

  /** Together the writes take all that they could of what there is. */
  lemma {:induction false} TakenInAll(writes: seq<Write>, n: nat, count: nat)
    requires n <= |writes|
    ensures Taken(writes, n, count) == if Offered(writes, n) < count then Offered(writes, n) else count
  {
    if n > 0 {
      TakenInAll(writes, n - 1, count);
    }
  }

  /** The send loop writes again exactly as long as the writes have not taken everything or the last was interrupted. */
  lemma SendsAgainExactly(writes: seq<Write>, n: nat, count: nat)
    requires n <= |writes|
    ensures SendRuns(writes, n, count) <==>
      && (forall i | 0 <= i < n - 1 :: writes[i].Interrupted? || Offered(writes, i + 1) < count)
      && (n < |writes| ==> n > 0 && Offered(writes, n) >= count && !writes[n - 1].Interrupted?)
  {
    forall i | 0 <= i < |writes|
      ensures SendEnds(writes, i + 1, count) <==> Offered(writes, i + 1) >= count && !writes[i].Interrupted?
    {
      TakenInAll(writes, i + 1, count);
    }
    if SendRuns(writes, n, count) {
      forall i | 0 <= i < n - 1 ensures writes[i].Interrupted? || Offered(writes, i + 1) < count {
        assert !SendEnds(writes, i + 1, count);
      }
    } else if k :| 0 <= k < n && SendEnds(writes, k, count) {
      assert !writes[k - 1].Interrupted? && Offered(writes, k - 1 + 1) >= count;
    }
  }

  /** And the flush loop flushes again exactly when it was interrupted and fewer than five bytes were written. */
  lemma FlushesAgainExactly(flushes: seq<Flush>, m: nat, count: nat)
    requires m <= |flushes|
    ensures FlushRuns(flushes, m, count) <==>
      && (forall i | 0 <= i < m - 1 :: flushes[i].FlushInterrupted? && count < 5)
      && (m < |flushes| ==> m > 0 && !(flushes[m - 1].FlushInterrupted? && count < 5))
  {
    if FlushRuns(flushes, m, count) {
      forall i | 0 <= i < m - 1 ensures flushes[i].FlushInterrupted? && count < 5 {
        assert !FlushEnds(flushes, i + 1, count);
      }
    } else if k :| 0 <= k < m && FlushEnds(flushes, k, count) {
      assert !(flushes[k - 1].FlushInterrupted? && count < 5);
    }
  }

  /** As long as bytes remain the loop goes on, so its last write took some. */
  lemma LastWriteTakes(writes: seq<Write>, n: nat, count: nat)
    requires SendRuns(writes, n, count) && SendEnds(writes, n, count) && count > 0
    ensures writes[n - 1].Took?
  {
    if !writes[n - 1].Took? {
      assert Taken(writes, n - 1, count) == count;
      TakenByThen(writes, n - 1, count);
    }
  }

  /** Bytes were all taken by a write after which the loop ends. */
  lemma {:induction false} TakenByThen(writes: seq<Write>, n: nat, count: nat)
    requires n <= |writes| && count > 0 && Taken(writes, n, count) == count
    ensures exists k :: 0 < k <= n && SendEnds(writes, k, count)
  {
    if n == 0 {
      assert false;
    } else if writes[n - 1].Took? {
      assert SendEnds(writes, n, count);
    } else {
      TakenByThen(writes, n - 1, count);
    }
  }

  /** The flush loop keeps its bound of five, under every pattern, exactly when at least five bytes were
      to be written. */
  lemma FlushBoundExactly(count: nat)
    ensures (forall flushes, m: nat | FlushRuns(flushes, m, count) :: m <= 5) <==> count >= 5
  {
    if count >= 5 {
      forall flushes, m: nat | FlushRuns(flushes, m, count) ensures m <= 5 {
        assert |flushes| > 0 ==> FlushEnds(flushes, 1, count);
      }
    } else {
      var flushes := seq(6, _ => FlushInterrupted);
      assert forall k :: 0 <= k <= 6 ==> !FlushEnds(flushes, k, count);
      assert FlushRuns(flushes, 6, count);
    }
  }

  /** Of `n` writes, those made again were interrupted or took something. */
  predicate OnlyInterruptsRetried(writes: seq<Write>, n: nat)
    requires n <= |writes|
  {
    forall k :: 0 <= k < n - 1 ==> !writes[k].Failed?
  }

  /** The send loop retries no error but an interruption, under every pattern, exactly when there is
      nothing to write: while bytes remain it retries every error. */
  lemma OnlyInterruptsRetriedExactly(count: nat)
    ensures (forall writes, n | SendRuns(writes, n, count) :: OnlyInterruptsRetried(writes, n)) <==> count == 0
  {
    if count == 0 {
      forall writes: seq<Write>, n: nat | SendRuns(writes, n, count) ensures OnlyInterruptsRetried(writes, n) {
        forall k | 0 <= k < n - 1 ensures !writes[k].Failed? {
          assert !SendEnds(writes, k + 1, count);
        }
      }
    } else {
      var writes := [Failed, Failed];
      assert Taken(writes, 0, count) == 0;
      assert Taken(writes, 1, count) == 0;
      assert Taken(writes, 2, count) == 0;
      assert SendRuns(writes, 2, count) && writes[0].Failed?;
    }
  }

  /** A call that ends, normally or with the exception, has lowered DTR, under every pattern, exactly when
      there is something to write. */
  lemma EndedCallLowersDtrExactly(count: nat)
    ensures (forall r, dtr, p | CallEnds(r, dtr, p, count) && r != StillTrying :: !dtr) <==> count > 0
  {
    if count > 0 {
      forall r, dtr, p | CallEnds(r, dtr, p, count) && r != StillTrying ensures !dtr {
        var n, m :| CallEndsAfter(r, dtr, p, n, m, count);
        if SendEnds(p.writes, n, count) {
          LastWriteTakes(p.writes, n, count);
        }
      }
    } else {
      var p := Pattern([Failed], true, []);
      assert Taken(p.writes, 1, count) == 0;
      assert SendRuns(p.writes, 1, count) && SendEnds(p.writes, 1, count) && FlushRuns(p.flushes, 0, count);
      assert CallEndsAfter(IOException, true, p, 1, 0, count);
      assert CallEnds(IOException, true, p, count);
    }
  }

  /** With something to write, DTR stays raised exactly while the bytes are not all taken, or the transmitter
      does not report itself empty; the call is then still trying, and never has it raised otherwise. */
  lemma DtrStaysRaisedExactly(r: Outcome, dtr: bool, p: Pattern, n: nat, m: nat, count: nat)
    requires count > 0 && CallEndsAfter(r, dtr, p, n, m, count)
    ensures dtr <==> Taken(p.writes, n, count) < count || !p.empties
    ensures dtr ==> r == StillTrying
  {
    if SendEnds(p.writes, n, count) {
      LastWriteTakes(p.writes, n, count);
    } else if Taken(p.writes, n, count) == count {
      TakenByThen(p.writes, n, count);
    }
  }

  /** Such a call can go on for ever: with something to write, after any number of writes, all failing, it is
      still trying with DTR raised. */
  lemma FailingWritesKeepDtr(count: nat, k: nat, empties: bool, flushes: seq<Flush>)
    requires count > 0
    ensures CallEnds(StillTrying, true, Pattern(seq(k, _ => Failed), empties, flushes), count)
  {
    var writes := seq(k, _ => Failed);
    forall n | 0 <= n <= k ensures !SendEnds(writes, n, count) {
      NothingTaken(writes, n, count);
    }
    var m := FlushesMade(flushes, count);
    assert CallEndsAfter(StillTrying, true, Pattern(writes, empties, flushes), k, m, count);
  }
  lemma {:induction false} NothingTaken(writes: seq<Write>, n: nat, count: nat)
    requires n <= |writes| && forall i :: 0 <= i < n ==> writes[i].Failed?
    ensures Taken(writes, n, count) == 0
  {
    if n > 0 {
      NothingTaken(writes, n - 1, count);
    }
  }

  // ---------- Windows CE ----------

  /** The `n`-th write succeeds and leaves bytes to write. */
  predicate GoesOn(writes: seq<Write>, n: nat, len: nat) {
    0 < n <= |writes| && writes[n - 1].Took? && Taken(writes, n, len) < len
  }

  /** WriteFile is called again exactly when it succeeded and all the calls together took less than there is. */
  lemma WritesAgainExactly(writes: seq<Write>, n: nat, len: nat)
    requires 0 < n <= |writes|
    ensures GoesOn(writes, n, len) <==> writes[n - 1].Took? && Offered(writes, n) < len
  {
    TakenInAll(writes, n, len);
  }

  /** One WriteFile that succeeds, after `total` bytes in `chunks`. */
  method WriteFile(body: array<byte>, off: nat, total: nat, taken: nat, chunks: seq<seq<byte>>)
    returns (more: seq<seq<byte>>)
    requires off + total + taken <= body.Length && Joined(chunks) == body[..][off..off + total]
    ensures |more| == |chunks| + 1 && Joined(more) == body[..][off..off + total + taken]
  {
    var chunk := body[off + total..off + total + taken];
    NextChunk(body[..], off, total, taken, chunks, chunk);
    more := chunks + [chunk];
  }

  /** The WinCE writeArray, with the chunks WriteFile took in order. Any failure ends it; on normal
      end every byte asked for was taken, once and in order, whatever the pattern of the writes. `n` is
      the number of writes made. */
  method WriteArrayCe(body: array<byte>, off: nat, len: nat, writes: seq<Write>)
    returns (r: Outcome, chunks: seq<seq<byte>>, n: nat)
    requires off + len <= body.Length
    ensures n <= |writes| && |chunks| <= n
    ensures forall k :: 0 < k < n ==> GoesOn(writes, k, len)
    ensures Joined(chunks) == body[..][off..off + Taken(writes, n, len)]
    ensures r == Done <==> n > 0 && writes[n - 1].Took? && Taken(writes, n, len) == len
    ensures r == IOException <==> n > 0 && !writes[n - 1].Took?
    ensures r == StillTrying <==> n == |writes| && (n > 0 ==> GoesOn(writes, n, len))
  {
    var total, again := 0, true;
    chunks, n, r := [], 0, StillTrying;
    while again && n < |writes|
      invariant n <= |writes| && |chunks| <= n
      invariant total == Taken(writes, n, len) && Joined(chunks) == body[..][off..off + total]
      invariant forall k :: 0 < k < n ==> GoesOn(writes, k, len)
      invariant again ==> r == StillTrying && (n > 0 ==> GoesOn(writes, n, len))
      invariant !again ==> n > 0 && !GoesOn(writes, n, len)
      invariant !again ==> r == if writes[n - 1].Took? then Done else IOException
    {
      var result := writes[n];
      n := n + 1;
      if result.Took? {
        var taken := Min(result.n, len - total);
        chunks := WriteFile(body, off, total, taken, chunks);
        total := total + taken;
        again := total < len;
        r := if again then StillTrying else Done;
      } else {
        again := false;
        r := IOException;
      }
    }
  }
}
