/** The polling engine: one call of report_serial_events turns what the driver
    reports (modem lines, error counters, pending input, an empty output buffer)
    into events. `sent` is the sequence of sendEvent calls.

    This is the build with TIOCSERGETLSR, TIOCGICOUNT and TIOCMGET, as on Linux. */
module LineEvents {
  import opened Wrappers

  datatype Kind = DataAvailable | OutputEmpty | CTS | DSR | RI | CD | OE | PE | FE | BI

  datatype SerialEvent = SerialEvent(kind: Kind, state: bool)

  const WORD: int := 0x1_0000_0000
  type u32 = x: int | 0 <= x < 0x1_0000_0000

  // ---------- Modem lines ----------

  /** Each bit by its value, as TIOCM_CTS and its like are defined. */
  function BitOf(kind: Kind): u32
    requires IsLine(kind)
  {
    match kind
    case CTS => 0x020
    case CD => 0x040
    case RI => 0x080
    case DSR => 0x100
  }

  predicate IsLine(kind: Kind) {
    kind.CTS? || kind.DSR? || kind.RI? || kind.CD?
  }

  /** An unsigned difference, wrapped, then converted to int. */
  function Difference(a: u32, b: u32): int {
    var unsigned := (a - b) % WORD;
    if unsigned < 0x8000_0000 then unsigned else unsigned - WORD
  }

  /** A TIOCMGET word by the four bits that are reported, in the order they are looked at. */
  datatype Lines = Lines(cts: bool, dsr: bool, ri: bool, cd: bool)

  function Level(lines: Lines, kind: Kind): bool {
    match kind
    case CTS => lines.cts
    case DSR => lines.dsr
    case RI => lines.ri
    case CD => lines.cd
    case _ => false
  }

  /** mflags & the line's bit. */
  function Masked(mflags: Lines, kind: Kind): u32
    requires IsLine(kind)
  {
    if Level(mflags, kind) then BitOf(kind) else 0
  }

  function Edge(kind: Kind, before: Lines, after: Lines): seq<SerialEvent> {
    if Level(before, kind) == Level(after, kind) then [] else [SerialEvent(kind, Level(after, kind))]
  }

  function Edges(before: Lines, after: Lines): seq<SerialEvent> {
    Edge(CTS, before, after) + Edge(DSR, before, after) + Edge(RI, before, after) + Edge(CD, before, after)
  }

  /** The converted difference of a line's masked words is zero when the line kept its level,
      positive when it rose and negative when it fell. */
  lemma DifferenceTellsEdge(kind: Kind, mflags: Lines, omflags: Lines)
    requires IsLine(kind)
    ensures var change := Difference(Masked(mflags, kind), Masked(omflags, kind));
      && (change == 0 <==> Level(mflags, kind) == Level(omflags, kind))
      && (change > 0 <==> Level(mflags, kind) && !Level(omflags, kind))
  {
    var bit := BitOf(kind);
    assert bit % WORD == bit && (-bit) % WORD == WORD - bit;
  }

  // ---------- Error counters ----------

  datatype Counters = Counters(frame: u32, overrun: u32, parity: u32, brk: u32)

  /** How far a 32-bit counter has to be counted up to reach `to`. */
  function Distance(from: u32, to: u32): nat {
    (to - from) % WORD
  }

  /** The C increment of a 32-bit counter. */
  function Increment(n: u32): u32 {
    if n == WORD - 1 then 0 else n + 1
  }

  predicate IsCounter(kind: Kind) {
    kind.FE? || kind.OE? || kind.PE? || kind.BI?
  }

  function Count(counters: Counters, kind: Kind): u32 {
    match kind
    case FE => counters.frame
    case OE => counters.overrun
    case PE => counters.parity
    case BI => counters.brk
    case _ => 0
  }

  function Repeat(kind: Kind, n: nat): seq<SerialEvent> {
    seq(n, _ => SerialEvent(kind, true))
  }

  function CounterEvents(before: Counters, after: Counters): seq<SerialEvent> {
    Repeat(FE, Distance(before.frame, after.frame)) + Repeat(OE, Distance(before.overrun, after.overrun))
    + Repeat(PE, Distance(before.parity, after.parity)) + Repeat(BI, Distance(before.brk, after.brk))
  }

  /** What TIOCSERGETLSR gives: nothing, when it or fstat fails, or whether the buffer ran empty. */
  datatype LineStatus = Unreadable | Readable(empty: bool)

  /** One round of eventLoop: whether select failed, the subscriptions, and the driver's answers. */
  datatype Round = Round(selected: bool, wantsData: bool, wantsOutputEmpty: bool,
    lsr: LineStatus, sis: Option<Counters>, mflags: Option<Lines>, pending: bool)
  {
    /** The round gets past the line status. */
    predicate Looks() {
      selected && !(wantsOutputEmpty && lsr.Unreadable?)
    }
  }

  function LineRead(round: Round): Option<Lines> {
    if round.Looks() then round.mflags else None
  }

  function CounterRead(round: Round, hasTiocgicount: bool, kind: Kind): Option<u32> {
    if round.Looks() && hasTiocgicount && round.sis.Some? then Some(Count(round.sis.value, kind)) else None
  }

  function LineReads(rounds: seq<Round>): seq<Option<Lines>> {
    seq(|rounds|, i requires 0 <= i < |rounds| => LineRead(rounds[i]))
  }

  function CounterReads(rounds: seq<Round>, hasTiocgicount: bool, kind: Kind): seq<Option<u32>> {
    seq(|rounds|, i requires 0 <= i < |rounds| => CounterRead(rounds[i], hasTiocgicount, kind))
  }

  class EventInfo {
    var omflags: Lines
    var osis: Counters
    var hasTiocgicount: bool
    var wantsData: bool
    var wantsOutputEmpty: bool
    var sent: seq<SerialEvent>

    constructor (omflags: Lines, osis: Counters, hasTiocgicount: bool)
      ensures this.omflags == omflags && this.osis == osis && this.hasTiocgicount == hasTiocgicount && sent == []
      ensures !wantsData && !wantsOutputEmpty
    {
      this.omflags, this.osis, this.hasTiocgicount, sent := omflags, osis, hasTiocgicount, [];
      wantsData, wantsOutputEmpty := false, false;
    }

    method SendEvent(kind: Kind, flag: bool)
      modifies `sent
      ensures sent == old(sent) + [SerialEvent(kind, flag)]
    {
      sent := sent + [SerialEvent(kind, flag)];
    }

    /** One of the four comparisons of check_tiocmget_changes. */
    method CheckLine(kind: Kind, mflags: Lines)
      requires IsLine(kind)
      modifies `sent
      ensures sent == old(sent) + Edge(kind, omflags, mflags)
    {
      var change := Difference(Masked(mflags, kind), Masked(omflags, kind));
      DifferenceTellsEdge(kind, mflags, omflags);
      if change != 0 {
        SendEvent(kind, change > 0);
      }
    }

    /** check_tiocmget_changes; no word when the ioctl fails. */
    method CheckTiocmgetChanges(mflags: Option<Lines>)
      modifies `omflags, `sent
      ensures omflags == if mflags.Some? then mflags.value else old(omflags)
      ensures sent == old(sent) + Edges(old(omflags), omflags)
    {
      if mflags.None? {
        return;
      }
      CheckLine(CTS, mflags.value);
      CheckLine(DSR, mflags.value);
      CheckLine(RI, mflags.value);
      CheckLine(CD, mflags.value);
      omflags := mflags.value;
    }

    /** One of the four loops of check_cgi_count: an event for each step of the old count to the new. */
    method CountUp(kind: Kind, from: u32, to: u32)
      modifies `sent
      ensures sent == old(sent) + Repeat(kind, Distance(from, to))
    {
      var at := from;
      ghost var n := 0;
      while to != at
        invariant n + Distance(at, to) == Distance(from, to)
        invariant sent == old(sent) + Repeat(kind, n)
        decreases Distance(at, to)
      {
        SendEvent(kind, true);
        DistanceStep(at, to);
        at := Increment(at);
        n := n + 1;
        assert Repeat(kind, n) == Repeat(kind, n - 1) + [SerialEvent(kind, true)];
      }
    }

    /** check_cgi_count; no counters when the ioctl fails. */
    method CheckCgiCount(sis: Option<Counters>)
      modifies `osis, `sent
      ensures osis == if sis.Some? then sis.value else old(osis)
      ensures sent == old(sent) + CounterEvents(old(osis), osis)
    {
      if sis.None? {
        return;
      }
      CountUp(FE, osis.frame, sis.value.frame);
      CountUp(OE, osis.overrun, sis.value.overrun);
      CountUp(PE, osis.parity, sis.value.parity);
      CountUp(BI, osis.brk, sis.value.brk);
      osis := sis.value;
    }

    method CheckLineStatusRegister(lsr: LineStatus) returns (failed: bool)
      modifies `sent
      ensures failed <==> wantsOutputEmpty && lsr.Unreadable?
      ensures sent == old(sent) + When(OutputEmpty, wantsOutputEmpty && lsr == Readable(true))
    {
      if !wantsOutputEmpty {
        return false;
      }
      if lsr.Unreadable? {
        return true;
      }
      if lsr.empty {
        SendEvent(OutputEmpty, true);
      }
      return false;
    }

    /** One poll. An unreadable line status, looked at only for a subscriber, ends it. */
    method ReportSerialEvents(lsr: LineStatus, sis: Option<Counters>, mflags: Option<Lines>, pending: bool)
      modifies `omflags, `osis, `sent
      ensures var ended := wantsOutputEmpty && lsr.Unreadable?;
        && osis == (if !ended && hasTiocgicount && sis.Some? then sis.value else old(osis))
        && omflags == (if !ended && mflags.Some? then mflags.value else old(omflags))
        && sent == old(sent)
                   + When(OutputEmpty, wantsOutputEmpty && lsr == Readable(true))
                   + CounterEvents(old(osis), osis)
                   + Edges(old(omflags), omflags)
                   + When(DataAvailable, !ended && pending && wantsData)
    {
      Unchanged(osis, omflags);
      var failed := CheckLineStatusRegister(lsr);
      Appended(sent);
      if failed {
        return;
      }
      ReportRest(sis, mflags, pending);
    }

    /** The poll past the line status. */
    method ReportRest(sis: Option<Counters>, mflags: Option<Lines>, pending: bool)
      modifies `omflags, `osis, `sent
      ensures osis == if hasTiocgicount && sis.Some? then sis.value else old(osis)
      ensures omflags == if mflags.Some? then mflags.value else old(omflags)
      ensures sent == old(sent) + CounterEvents(old(osis), osis) + Edges(old(omflags), omflags)
                      + When(DataAvailable, pending && wantsData)
    {
      Unchanged(osis, omflags);
      Appended(sent);
      if hasTiocgicount {
        CheckCgiCount(sis);
      }
      CheckTiocmgetChanges(mflags);
      Appended(sent);
      if pending && wantsData {
        SendEvent(DataAvailable, true);
      }
    }

    /** A round of eventLoop, with the flags as subscribers left them. */
    method TakeRound(round: Round)
      modifies this
      ensures hasTiocgicount == old(hasTiocgicount)
      ensures osis == Recounted(round, hasTiocgicount, old(osis))
      ensures omflags == Resampled(round, old(omflags))
      ensures sent == old(sent) + RoundEvents(round, hasTiocgicount, old(osis), old(omflags))
    {
      Appended(sent);
      wantsData, wantsOutputEmpty := round.wantsData, round.wantsOutputEmpty;
      if round.selected {
        ReportSerialEvents(round.lsr, round.sis, round.mflags, round.pending);
        SumOfParts(old(sent),
          When(OutputEmpty, round.wantsOutputEmpty && round.lsr == Readable(true)),
          CounterEvents(old(osis), osis), Edges(old(omflags), omflags),
          When(DataAvailable, round.Looks() && round.pending && round.wantsData));
      }
    }

    /** eventLoop: one poll a round while select does not fail, until the port closes. */
    method EventLoop(rounds: seq<Round>)
      modifies this
      ensures hasTiocgicount == old(hasTiocgicount)
      ensures Engine(osis, omflags, sent) == After(rounds, hasTiocgicount, Engine(old(osis), old(omflags), old(sent)))
    {
      var i := 0;
      while i < |rounds|
        invariant i <= |rounds| && hasTiocgicount == old(hasTiocgicount)
        invariant Engine(osis, omflags, sent)
               == After(rounds[..i], hasTiocgicount, Engine(old(osis), old(omflags), old(sent)))
      {
        TakeRound(rounds[i]);
        i := i + 1;
        assert rounds[..i][..i - 1] == rounds[..i - 1];
      }
      assert rounds[..i] == rounds;
    }
  }

  lemma SumOfParts(s: seq<SerialEvent>, a: seq<SerialEvent>, b: seq<SerialEvent>,
                   c: seq<SerialEvent>, d: seq<SerialEvent>)
    ensures s + a + b + c + d == s + (a + b + c + d)
  {
  }

  /** Appending nothing. */
  lemma Appended(s: seq<SerialEvent>)
    ensures s + [] == s
  {
  }

  function When(kind: Kind, c: bool): seq<SerialEvent> {
    if c then [SerialEvent(kind, true)] else []
  }

  lemma Unchanged(counters: Counters, lines: Lines)
    ensures CounterEvents(counters, counters) == [] && Edges(lines, lines) == []
  {
  }

  lemma DistanceStep(at: u32, to: u32)
    requires at != to
    ensures Distance(at, to) == 1 + Distance(Increment(at), to)
  {
    if to > at {
      assert (to - at) % WORD == to - at;
    } else {
      assert (to - at) % WORD == to - at + WORD;
    }
  }

  // ---------- Runs of polls ----------

  /** The lines as last read: a failed ioctl leaves them. */
  function Polled(before: Lines, samples: seq<Option<Lines>>): Lines
    decreases |samples|
  {
    if samples == [] then before
    else Polled(if samples[0].Some? then samples[0].value else before, samples[1..])
  }

  function Emitted(before: Lines, samples: seq<Option<Lines>>): seq<SerialEvent>
    decreases |samples|
  {
    if samples == [] then [] else
    var after := if samples[0].Some? then samples[0].value else before;
    Edges(before, after) + Emitted(after, samples[1..])
  }

  function With(lines: Lines, e: SerialEvent): Lines {
    match e.kind
    case CTS => lines.(cts := e.state)
    case DSR => lines.(dsr := e.state)
    case RI => lines.(ri := e.state)
    case CD => lines.(cd := e.state)
    case _ => lines
  }

  function Replay(lines: Lines, es: seq<SerialEvent>): Lines
    decreases |es|
  {
    if es == [] then lines else Replay(With(lines, es[0]), es[1..])
  }

  lemma {:induction false} ReplayAppend(lines: Lines, es: seq<SerialEvent>, more: seq<SerialEvent>)
    ensures Replay(lines, es + more) == Replay(Replay(lines, es), more)
    decreases |es|
  {
    if es == [] {
      assert es + more == more;
    } else {
      assert (es + more)[1..] == es[1..] + more;
      ReplayAppend(With(lines, es[0]), es[1..], more);
    }
  }

  lemma ReplayEdge(lines: Lines, kind: Kind, before: Lines, after: Lines)
    requires IsLine(kind) && Level(lines, kind) == Level(before, kind)
    ensures Replay(lines, Edge(kind, before, after)) == With(lines, SerialEvent(kind, Level(after, kind)))
  {
    var es := Edge(kind, before, after);
    if es != [] {
      assert es[1..] == [];
    }
  }

  lemma ReplayEdges(before: Lines, after: Lines)
    ensures Replay(before, Edges(before, after)) == after
  {
    var a := With(before, SerialEvent(CTS, after.cts));
    var b := With(a, SerialEvent(DSR, after.dsr));
    var c := With(b, SerialEvent(RI, after.ri));
    ReplayEdge(before, CTS, before, after);
    ReplayEdge(a, DSR, before, after);
    ReplayEdge(b, RI, before, after);
    ReplayEdge(c, CD, before, after);
    ReplayFour(before, Edge(CTS, before, after), Edge(DSR, before, after),
               Edge(RI, before, after), Edge(CD, before, after));
  }

  lemma ReplayFour(lines: Lines, a: seq<SerialEvent>, b: seq<SerialEvent>, c: seq<SerialEvent>, d: seq<SerialEvent>)
    ensures Replay(lines, a + b + c + d) == Replay(Replay(Replay(Replay(lines, a), b), c), d)
  {
    ReplayAppend(lines, a, b);
    ReplayAppend(lines, a + b, c);
    ReplayAppend(lines, a + b + c, d);
  }

  /** A listener that starts from the lines as initialised and follows the events knows the lines as
      last read, over any run of polls, failed ones included. */
  lemma {:induction false} EventsTrackLines(before: Lines, samples: seq<Option<Lines>>)
    ensures Replay(before, Emitted(before, samples)) == Polled(before, samples)
    decreases |samples|
  {
    if samples != [] {
      var after := if samples[0].Some? then samples[0].value else before;
      ReplayEdges(before, after);
      ReplayAppend(before, Edges(before, after), Emitted(after, samples[1..]));
      EventsTrackLines(after, samples[1..]);
    }
  }

  /** The states reported for one line. */
  function Heard(es: seq<SerialEvent>, kind: Kind): seq<bool>
    decreases |es|
  {
    if es == [] then [] else Own(es[0], kind) + Heard(es[1..], kind)
  }

  function Own(e: SerialEvent, kind: Kind): seq<bool> {
    if e.kind == kind then [e.state] else []
  }

  /** Each the opposite of the one before, the first the opposite of `level`. */
  predicate Alternate(level: bool, heard: seq<bool>)
    decreases |heard|
  {
    heard == [] || (heard[0] != level && Alternate(heard[0], heard[1..]))
  }

  lemma {:induction false} HeardAppend(es: seq<SerialEvent>, more: seq<SerialEvent>, kind: Kind)
    ensures Heard(es + more, kind) == Heard(es, kind) + Heard(more, kind)
    decreases |es|
  {
    if es == [] {
      assert es + more == more;
    } else {
      var rest := es[1..];
      assert (es + more)[1..] == rest + more;
      calc {
        Heard(es + more, kind);
        Own(es[0], kind) + Heard(rest + more, kind);
        { HeardAppend(rest, more, kind); }
        Own(es[0], kind) + (Heard(rest, kind) + Heard(more, kind));
        Own(es[0], kind) + Heard(rest, kind) + Heard(more, kind);
      }
    }
  }

  lemma HeardEdge(kind: Kind, of: Kind, before: Lines, after: Lines)
    ensures Heard(Edge(kind, before, after), of)
         == if kind == of && Level(before, of) != Level(after, of) then [Level(after, of)] else []
  {
    var es := Edge(kind, before, after);
    if es != [] {
      assert es[1..] == [];
    }
  }

  lemma HeardEdges(before: Lines, after: Lines, kind: Kind)
    requires IsLine(kind)
    ensures Heard(Edges(before, after), kind)
         == if Level(before, kind) != Level(after, kind) then [Level(after, kind)] else []
  {
    HeardFour(Edge(CTS, before, after), Edge(DSR, before, after),
              Edge(RI, before, after), Edge(CD, before, after), kind);
    HeardEdge(CTS, kind, before, after);
    HeardEdge(DSR, kind, before, after);
    HeardEdge(RI, kind, before, after);
    HeardEdge(CD, kind, before, after);
    OnlyOne(Own(SerialEvent(kind, Level(after, kind)), kind));
  }

  lemma OnlyOne(s: seq<bool>)
    ensures s + [] + [] + [] == s && [] + s + [] + [] == s && [] + [] + s + [] == s && [] + [] + [] + s == s
  {
  }

  lemma HeardFour(a: seq<SerialEvent>, b: seq<SerialEvent>, c: seq<SerialEvent>, d: seq<SerialEvent>, kind: Kind)
    ensures Heard(a + b + c + d, kind) == Heard(a, kind) + Heard(b, kind) + Heard(c, kind) + Heard(d, kind)
  {
    HeardAppend(a, b, kind);
    HeardAppend(a + b, c, kind);
    HeardAppend(a + b + c, d, kind);
  }

  /** Over any run of polls each line's events alternate TRUE and FALSE, starting from the opposite
      of its level at the start. */
  lemma {:induction false} EventsAlternate(before: Lines, samples: seq<Option<Lines>>, kind: Kind)
    requires IsLine(kind)
    ensures Alternate(Level(before, kind), Heard(Emitted(before, samples), kind))
    decreases |samples|
  {
    if samples != [] {
      var after := if samples[0].Some? then samples[0].value else before;
      var rest := Emitted(after, samples[1..]);
      EventsAlternate(after, samples[1..], kind);
      HeardEdges(before, after, kind);
      HeardAppend(Edges(before, after), rest, kind);
      if Level(before, kind) != Level(after, kind) {
        assert (Heard(Edges(before, after), kind) + Heard(rest, kind))[1..] == Heard(rest, kind);
      } else {
        assert Heard(Edges(before, after), kind) + Heard(rest, kind) == Heard(rest, kind);
      }
    }
  }

  /** The events one 32-bit counter's readings send, counting up from `before`. */
  function Reported(before: u32, answers: seq<Option<u32>>): nat
    decreases |answers|
  {
    if answers == [] then 0
    else if answers[0].None? then Reported(before, answers[1..])
    else Distance(before, answers[0].value) + Reported(answers[0].value, answers[1..])
  }

  function LastRead(before: u32, answers: seq<Option<u32>>): u32
    decreases |answers|
  {
    if answers == [] then before else LastRead(if answers[0].Some? then answers[0].value else before, answers[1..])
  }

  /** What a 32-bit counter shows of the true counts at each read. */
  function Wrapped(polls: seq<Option<nat>>): seq<Option<u32>> {
    seq(|polls|, i requires 0 <= i < |polls| => if polls[i].Some? then Some(polls[i].value % WORD) else None)
  }

  function LastTotal(total: nat, polls: seq<Option<nat>>): nat
    decreases |polls|
  {
    if polls == [] then total else LastTotal(if polls[0].Some? then polls[0].value else total, polls[1..])
  }

  /** A counter only counts up. */
  predicate Rising(total: nat, polls: seq<Option<nat>>)
    decreases |polls|
  {
    polls != [] ==>
      if polls[0].Some? then total <= polls[0].value && Rising(polls[0].value, polls[1..])
      else Rising(total, polls[1..])
  }

  /** Fewer than 2^32 increments between one successful poll and the next. */
  predicate PolledInTime(total: nat, polls: seq<Option<nat>>)
    decreases |polls|
  {
    polls != [] ==>
      if polls[0].Some? then polls[0].value - total < WORD && PolledInTime(polls[0].value, polls[1..])
      else PolledInTime(total, polls[1..])
  }

  lemma DistanceOfTotals(from: nat, to: nat)
    requires from <= to
    ensures Distance(from % WORD, to % WORD) == (to - from) % WORD
  {
    var a, b := from / WORD, to / WORD;
    assert to - from == (to % WORD - from % WORD) + WORD * (b - a);
    assert (to % WORD - from % WORD + WORD * (b - a)) % WORD == (to % WORD - from % WORD) % WORD by {
      ModShift(to % WORD - from % WORD, b - a);
    }
  }

  lemma ModShift(x: int, k: int)
    ensures (x + WORD * k) % WORD == x % WORD
  {
    var q := x / WORD;
    assert x + WORD * k == WORD * (q + k) + x % WORD;
  }

  /** The events never exceed the increments, and over any run of polls they are all the increments
      exactly when no 2^32 of them fell between two successful polls. */
  lemma {:induction false} ReportedExactly(total: nat, polls: seq<Option<nat>>)
    requires Rising(total, polls)
    ensures total <= LastTotal(total, polls)
    ensures Reported(total % WORD, Wrapped(polls)) <= LastTotal(total, polls) - total
    ensures Reported(total % WORD, Wrapped(polls)) == LastTotal(total, polls) - total <==> PolledInTime(total, polls)
    decreases |polls|
  {
    if polls != [] {
      assert Wrapped(polls)[1..] == Wrapped(polls[1..]);
      if polls[0].None? {
        ReportedExactly(total, polls[1..]);
      } else {
        var delta := polls[0].value - total;
        DistanceOfTotals(total, polls[0].value);
        ReportedExactly(polls[0].value, polls[1..]);
        assert delta % WORD <= delta && (delta % WORD == delta <==> delta < WORD);
      }
    }
  }

  // ---------- One more round ----------

  /** The line events among `es`. */
  function OfLines(es: seq<SerialEvent>): seq<SerialEvent>
    decreases |es|
  {
    if es == [] then [] else (if IsLine(es[0].kind) then [es[0]] else []) + OfLines(es[1..])
  }

  lemma {:induction false} OfLinesAppend(es: seq<SerialEvent>, more: seq<SerialEvent>)
    ensures OfLines(es + more) == OfLines(es) + OfLines(more)
    decreases |es|
  {
    if es == [] {
      assert es + more == more;
    } else {
      var head := if IsLine(es[0].kind) then [es[0]] else [];
      assert (es + more)[1..] == es[1..] + more;
      calc {
        OfLines(es + more);
        head + OfLines(es[1..] + more);
        { OfLinesAppend(es[1..], more); }
        head + (OfLines(es[1..]) + OfLines(more));
        head + OfLines(es[1..]) + OfLines(more);
      }
    }
  }

  lemma {:induction false} RepeatIsHeard(kind: Kind, n: nat, of: Kind)
    requires IsCounter(kind)
    ensures OfLines(Repeat(kind, n)) == []
    ensures |Heard(Repeat(kind, n), of)| == if kind == of then n else 0
  {
    if n > 0 {
      assert Repeat(kind, n)[1..] == Repeat(kind, n - 1);
      RepeatIsHeard(kind, n - 1, of);
    }
  }

  lemma {:induction false} ReadsAppend(before: u32, answers: seq<Option<u32>>, last: Option<u32>)
    ensures LastRead(before, answers + [last]) == if last.Some? then last.value else LastRead(before, answers)
    ensures Reported(before, answers + [last])
         == Reported(before, answers) + (if last.Some? then Distance(LastRead(before, answers), last.value) else 0)
    decreases |answers|
  {
    var all := answers + [last];
    if answers == [] {
      assert all[1..] == [];
    } else {
      assert all[1..] == answers[1..] + [last];
      ReadsAppend(if answers[0].Some? then answers[0].value else before, answers[1..], last);
    }
  }

  function OrElse(sample: Option<Lines>, lines: Lines): Lines {
    if sample.Some? then sample.value else lines
  }

  lemma {:induction false} SamplesAppend(before: Lines, samples: seq<Option<Lines>>, last: Option<Lines>)
    ensures Polled(before, samples + [last]) == OrElse(last, Polled(before, samples))
    ensures Emitted(before, samples + [last])
         == Emitted(before, samples) + Edges(Polled(before, samples), OrElse(last, Polled(before, samples)))
    decreases |samples|
  {
    if samples == [] {
      OneSample(before, last);
      assert samples + [last] == [last];
    } else {
      var after, rest := OrElse(samples[0], before), samples[1..];
      var final := Edges(Polled(after, rest), OrElse(last, Polled(after, rest)));
      MoreSamples(before, samples, last);
      SamplesAppend(after, rest, last);
      Regroup(Edges(before, after), Emitted(after, rest), final);
    }
  }

  lemma OneSample(before: Lines, last: Option<Lines>)
    ensures Polled(before, [last]) == OrElse(last, before)
    ensures Emitted(before, [last]) == Edges(before, OrElse(last, before))
  {
    assert [last][1..] == [];
    assert Emitted(OrElse(last, before), []) == [];
    Appended(Edges(before, OrElse(last, before)));
  }

  lemma MoreSamples(before: Lines, samples: seq<Option<Lines>>, last: Option<Lines>)
    requires samples != []
    ensures var after := OrElse(samples[0], before);
      && Polled(before, samples + [last]) == Polled(after, samples[1..] + [last])
      && Emitted(before, samples + [last]) == Edges(before, after) + Emitted(after, samples[1..] + [last])
  {
    assert (samples + [last])[1..] == samples[1..] + [last];
  }

  lemma Regroup(a: seq<SerialEvent>, b: seq<SerialEvent>, c: seq<SerialEvent>)
    ensures (a + b) + c == a + (b + c)
  {
  }

  function Recounted(round: Round, hasTiocgicount: bool, counts: Counters): Counters {
    if round.Looks() && hasTiocgicount && round.sis.Some? then round.sis.value else counts
  }

  function Resampled(round: Round, lines: Lines): Lines {
    OrElse(LineRead(round), lines)
  }

  /** What ReportSerialEvents sends in a round, from the counters and lines it holds. */
  function RoundEvents(round: Round, hasTiocgicount: bool, counts: Counters, lines: Lines): seq<SerialEvent> {
    if !round.selected then [] else
    When(OutputEmpty, round.wantsOutputEmpty && round.lsr == Readable(true))
    + CounterEvents(counts, Recounted(round, hasTiocgicount, counts))
    + Edges(lines, Resampled(round, lines))
    + When(DataAvailable, round.Looks() && round.pending && round.wantsData)
  }

  lemma OfLinesFour(a: seq<SerialEvent>, b: seq<SerialEvent>, c: seq<SerialEvent>, d: seq<SerialEvent>)
    ensures OfLines(a + b + c + d) == OfLines(a) + OfLines(b) + OfLines(c) + OfLines(d)
  {
    OfLinesAppend(a, b);
    OfLinesAppend(a + b, c);
    OfLinesAppend(a + b + c, d);
  }

  lemma EdgesAreLines(before: Lines, after: Lines)
    ensures OfLines(Edges(before, after)) == Edges(before, after)
  {
    OfLinesFour(Edge(CTS, before, after), Edge(DSR, before, after), Edge(RI, before, after), Edge(CD, before, after));
    EdgeIsLine(CTS, before, after);
    EdgeIsLine(DSR, before, after);
    EdgeIsLine(RI, before, after);
    EdgeIsLine(CD, before, after);
  }

  lemma EdgeIsLine(kind: Kind, before: Lines, after: Lines)
    requires IsLine(kind)
    ensures OfLines(Edge(kind, before, after)) == Edge(kind, before, after)
  {
    var es := Edge(kind, before, after);
    if es != [] {
      assert es[1..] == [];
    }
  }

  lemma CounterEventsHeard(before: Counters, after: Counters, kind: Kind)
    requires IsCounter(kind)
    ensures OfLines(CounterEvents(before, after)) == []
    ensures |Heard(CounterEvents(before, after), kind)| == Distance(Count(before, kind), Count(after, kind))
  {
    var fe, oe := Distance(before.frame, after.frame), Distance(before.overrun, after.overrun);
    var pe, bi := Distance(before.parity, after.parity), Distance(before.brk, after.brk);
    HeardFour(Repeat(FE, fe), Repeat(OE, oe), Repeat(PE, pe), Repeat(BI, bi), kind);
    OfLinesFour(Repeat(FE, fe), Repeat(OE, oe), Repeat(PE, pe), Repeat(BI, bi));
    RepeatIsHeard(FE, fe, kind);
    RepeatIsHeard(OE, oe, kind);
    RepeatIsHeard(PE, pe, kind);
    RepeatIsHeard(BI, bi, kind);
  }

  lemma EdgesUnheard(before: Lines, after: Lines, kind: Kind)
    requires !IsLine(kind)
    ensures Heard(Edges(before, after), kind) == []
  {
    HeardFour(Edge(CTS, before, after), Edge(DSR, before, after),
              Edge(RI, before, after), Edge(CD, before, after), kind);
    HeardEdge(CTS, kind, before, after);
    HeardEdge(DSR, kind, before, after);
    HeardEdge(RI, kind, before, after);
    HeardEdge(CD, kind, before, after);
  }

  lemma RoundLineEvents(round: Round, hasTiocgicount: bool, counts: Counters, lines: Lines)
    ensures OfLines(RoundEvents(round, hasTiocgicount, counts, lines)) == Edges(lines, Resampled(round, lines))
  {
    if !round.selected {
      Unchanged(counts, lines);
    } else {
      var a := round.wantsOutputEmpty && round.lsr == Readable(true);
      var d := round.Looks() && round.pending && round.wantsData;
      var b := CounterEvents(counts, Recounted(round, hasTiocgicount, counts));
      var c := Edges(lines, Resampled(round, lines));
      CounterEventsHeard(counts, Recounted(round, hasTiocgicount, counts), FE);
      EdgesAreLines(lines, Resampled(round, lines));
      WhenUnheard(OutputEmpty, a, FE);
      WhenUnheard(DataAvailable, d, FE);
      OnlyLines(When(OutputEmpty, a), b, c, When(DataAvailable, d));
    }
  }

  lemma OnlyLines(a: seq<SerialEvent>, b: seq<SerialEvent>, c: seq<SerialEvent>, d: seq<SerialEvent>)
    requires OfLines(a) == [] && OfLines(b) == [] && OfLines(c) == c && OfLines(d) == []
    ensures OfLines(a + b + c + d) == c
  {
    OfLinesFour(a, b, c, d);
    assert [] + [] + c + [] == c;
  }

  lemma RoundCounted(round: Round, hasTiocgicount: bool, counts: Counters, lines: Lines, kind: Kind)
    requires IsCounter(kind)
    ensures |Heard(RoundEvents(round, hasTiocgicount, counts, lines), kind)|
         == Distance(Count(counts, kind), Count(Recounted(round, hasTiocgicount, counts), kind))
  {
    if round.selected {
      var a := round.wantsOutputEmpty && round.lsr == Readable(true);
      var d := round.Looks() && round.pending && round.wantsData;
      var b := CounterEvents(counts, Recounted(round, hasTiocgicount, counts));
      var c := Edges(lines, Resampled(round, lines));
      CounterEventsHeard(counts, Recounted(round, hasTiocgicount, counts), kind);
      EdgesUnheard(lines, Resampled(round, lines), kind);
      HeardFour(When(OutputEmpty, a), b, c, When(DataAvailable, d), kind);
      WhenUnheard(OutputEmpty, a, kind);
      WhenUnheard(DataAvailable, d, kind);
      OnlySecond(Heard(b, kind));
    } else {
      assert Recounted(round, hasTiocgicount, counts) == counts;
    }
  }

  lemma OnlySecond(s: seq<bool>)
    ensures [] + s + [] + [] == s
  {
  }

  lemma WhenUnheard(of: Kind, c: bool, kind: Kind)
    requires !IsLine(of) && of != kind
    ensures OfLines(When(of, c)) == [] && Heard(When(of, c), kind) == []
  {
    if c {
      assert When(of, c)[1..] == [];
    }
  }

  /** The line events of `out` are those of the rounds' line readings, and `now` is the last of them. */
  ghost predicate LinesTold(first: Lines, now: Lines, rounds: seq<Round>, out: seq<SerialEvent>) {
    && now == Polled(first, LineReads(rounds))
    && OfLines(out) == Emitted(first, LineReads(rounds))
  }

  /** Each counter's events number what its readings tell, and `now` is the last of them. */
  ghost predicate CountersTold(first: Counters, now: Counters, rounds: seq<Round>, hasTiocgicount: bool,
                               out: seq<SerialEvent>)
  {
    forall kind | IsCounter(kind) :: CounterTold(kind, first, now, rounds, hasTiocgicount, out)
  }

  ghost predicate CounterTold(kind: Kind, first: Counters, now: Counters, rounds: seq<Round>, hasTiocgicount: bool,
                              out: seq<SerialEvent>)
  {
    && Count(now, kind) == LastRead(Count(first, kind), CounterReads(rounds, hasTiocgicount, kind))
    && |Heard(out, kind)| == Reported(Count(first, kind), CounterReads(rounds, hasTiocgicount, kind))
  }

  /** What the engine carries from one round to the next. */
  datatype Engine = Engine(counts: Counters, lines: Lines, sent: seq<SerialEvent>)

  function After(rounds: seq<Round>, hasTiocgicount: bool, e: Engine): Engine
    decreases |rounds|
  {
    if rounds == [] then e else
    var last := rounds[|rounds| - 1];
    var before := After(rounds[..|rounds| - 1], hasTiocgicount, e);
    Engine(Recounted(last, hasTiocgicount, before.counts), Resampled(last, before.lines),
      before.sent + RoundEvents(last, hasTiocgicount, before.counts, before.lines))
  }

  /** Whatever the driver answers over the rounds, what the engine sends tells all that was read: the
      line events are those of the successful line readings, and each counter's events number what its
      successful readings tell. */
  lemma {:induction false} EngineTellsWhatItRead(rounds: seq<Round>, hasTiocgicount: bool, e: Engine)
    requires e.sent == []
    ensures var after := After(rounds, hasTiocgicount, e);
      && LinesTold(e.lines, after.lines, rounds, after.sent)
      && CountersTold(e.counts, after.counts, rounds, hasTiocgicount, after.sent)
    decreases |rounds|
  {
    if rounds != [] {
      var i := |rounds| - 1;
      var before := After(rounds[..i], hasTiocgicount, e);
      EngineTellsWhatItRead(rounds[..i], hasTiocgicount, e);
      RoundLines(rounds, i, hasTiocgicount, e.lines, before.lines, before.counts, before.sent);
      RoundCounters(rounds, i, hasTiocgicount, e.counts, before.counts, before.lines, before.sent);
      assert rounds[..i + 1] == rounds;
    }
  }

  lemma RoundLines(rounds: seq<Round>, i: nat, hasTiocgicount: bool, first: Lines, lines: Lines, counts: Counters,
                   out: seq<SerialEvent>)
    requires i < |rounds| && LinesTold(first, lines, rounds[..i], out)
    ensures LinesTold(first, Resampled(rounds[i], lines), rounds[..i + 1],
              out + RoundEvents(rounds[i], hasTiocgicount, counts, lines))
  {
    assert LineReads(rounds[..i + 1]) == LineReads(rounds[..i]) + [LineRead(rounds[i])];
    SamplesAppend(first, LineReads(rounds[..i]), LineRead(rounds[i]));
    OfLinesAppend(out, RoundEvents(rounds[i], hasTiocgicount, counts, lines));
    RoundLineEvents(rounds[i], hasTiocgicount, counts, lines);
  }

  lemma RoundCounters(rounds: seq<Round>, i: nat, hasTiocgicount: bool, first: Counters, counts: Counters,
                      lines: Lines, out: seq<SerialEvent>)
    requires i < |rounds| && CountersTold(first, counts, rounds[..i], hasTiocgicount, out)
    ensures CountersTold(first, Recounted(rounds[i], hasTiocgicount, counts), rounds[..i + 1], hasTiocgicount,
              out + RoundEvents(rounds[i], hasTiocgicount, counts, lines))
  {
    var now := Recounted(rounds[i], hasTiocgicount, counts);
    var more := RoundEvents(rounds[i], hasTiocgicount, counts, lines);
    forall kind | IsCounter(kind)
      ensures CounterTold(kind, first, now, rounds[..i + 1], hasTiocgicount, out + more)
    {
      assert CounterTold(kind, first, counts, rounds[..i], hasTiocgicount, out);
      RoundCounted(rounds[i], hasTiocgicount, counts, lines, kind);
      RoundCounter(kind, rounds, i, hasTiocgicount, first, counts, now, out, more);
    }
  }

  lemma RoundCounter(kind: Kind, rounds: seq<Round>, i: nat, hasTiocgicount: bool, first: Counters, counts: Counters,
                     now: Counters, out: seq<SerialEvent>, more: seq<SerialEvent>)
    requires i < |rounds| && CounterTold(kind, first, counts, rounds[..i], hasTiocgicount, out)
    requires now == Recounted(rounds[i], hasTiocgicount, counts)
    requires |Heard(more, kind)| == Distance(Count(counts, kind), Count(now, kind))
    ensures CounterTold(kind, first, now, rounds[..i + 1], hasTiocgicount, out + more)
  {
    var before, read := CounterReads(rounds[..i], hasTiocgicount, kind), CounterRead(rounds[i], hasTiocgicount, kind);
    assert CounterReads(rounds[..i + 1], hasTiocgicount, kind) == before + [read];
    ReadsAppend(Count(first, kind), before, read);
    HeardAppend(out, more, kind);
  }

  // ---------- What a listener learns ----------

  lemma {:induction false} ReplayOfLines(lines: Lines, es: seq<SerialEvent>)
    ensures Replay(lines, OfLines(es)) == Replay(lines, es)
    decreases |es|
  {
    if es != [] {
      ReplayOfLines(With(lines, es[0]), es[1..]);
      if IsLine(es[0].kind) {
        assert ([es[0]] + OfLines(es[1..]))[1..] == OfLines(es[1..]);
      } else {
        assert [] + OfLines(es[1..]) == OfLines(es[1..]);
      }
    }
  }

  lemma {:induction false} HeardOfLines(es: seq<SerialEvent>, kind: Kind)
    requires IsLine(kind)
    ensures Heard(OfLines(es), kind) == Heard(es, kind)
    decreases |es|
  {
    if es != [] {
      HeardOfLines(es[1..], kind);
      if IsLine(es[0].kind) {
        assert ([es[0]] + OfLines(es[1..]))[1..] == OfLines(es[1..]);
      } else {
        assert [] + OfLines(es[1..]) == OfLines(es[1..]);
      }
    }
  }

  /** What was sent before the rounds makes no difference to them. */
  lemma {:induction false} AfterAppends(rounds: seq<Round>, hasTiocgicount: bool, e: Engine)
    ensures var after, anew := After(rounds, hasTiocgicount, e), After(rounds, hasTiocgicount, e.(sent := []));
      after.counts == anew.counts && after.lines == anew.lines && after.sent == e.sent + anew.sent
    decreases |rounds|
  {
    if rounds == [] {
      Appended(e.sent);
    } else {
      var last, init := rounds[|rounds| - 1], rounds[..|rounds| - 1];
      var anew := After(init, hasTiocgicount, e.(sent := []));
      AfterAppends(init, hasTiocgicount, e);
      Regroup(e.sent, anew.sent, RoundEvents(last, hasTiocgicount, anew.counts, anew.lines));
    }
  }

  /** The events of the rounds. */
  function SentIn(rounds: seq<Round>, hasTiocgicount: bool, e: Engine): seq<SerialEvent> {
    After(rounds, hasTiocgicount, e.(sent := [])).sent
  }

  /** Whatever the driver answers over the rounds, a listener that knows the lines at the start and follows
      every event sent knows the lines as last read, and hears each line's events alternate. */
  lemma ListenerKnowsLines(rounds: seq<Round>, hasTiocgicount: bool, e: Engine)
    ensures var after := After(rounds, hasTiocgicount, e);
      && after.sent == e.sent + SentIn(rounds, hasTiocgicount, e)
      && Replay(e.lines, SentIn(rounds, hasTiocgicount, e)) == after.lines
    ensures forall kind | IsLine(kind) ::
              Alternate(Level(e.lines, kind), Heard(SentIn(rounds, hasTiocgicount, e), kind))
  {
    var out := SentIn(rounds, hasTiocgicount, e);
    AfterAppends(rounds, hasTiocgicount, e);
    EngineTellsWhatItRead(rounds, hasTiocgicount, e.(sent := []));
    EventsTrackLines(e.lines, LineReads(rounds));
    ReplayOfLines(e.lines, out);
    forall kind | IsLine(kind) ensures Alternate(Level(e.lines, kind), Heard(out, kind)) {
      EventsAlternate(e.lines, LineReads(rounds), kind);
      HeardOfLines(out, kind);
    }
  }

  /** Whatever the driver answers, a counter's events sent are never more than its true increments, and they
      are as many exactly when fewer than 2^32 of these fall between one successful reading and the next. */
  lemma ListenerCountsExactly(rounds: seq<Round>, hasTiocgicount: bool, e: Engine, kind: Kind,
                              total: nat, polls: seq<Option<nat>>)
    requires IsCounter(kind) && Count(e.counts, kind) == total % WORD && Rising(total, polls)
    requires CounterReads(rounds, hasTiocgicount, kind) == Wrapped(polls)
    ensures var n := |Heard(SentIn(rounds, hasTiocgicount, e), kind)|;
      && total + n <= LastTotal(total, polls)
      && (total + n == LastTotal(total, polls) <==> PolledInTime(total, polls))
  {
    var anew := e.(sent := []);
    EngineTellsWhatItRead(rounds, hasTiocgicount, anew);
    assert CounterTold(kind, e.counts, After(rounds, hasTiocgicount, anew).counts, rounds, hasTiocgicount,
                       SentIn(rounds, hasTiocgicount, e));
    ReportedExactly(total, polls);
  }

  // ---------- Data and an empty output buffer ----------

  /** A round in which a subscriber is told: of pending input, where select succeeded and an unreadable line status
      did not end the poll before; of an empty output buffer, where the line status says so. */
  predicate Tells(round: Round, kind: Kind) {
    && round.selected
    && match kind
       case DataAvailable =>
         round.pending && round.wantsData && !(round.wantsOutputEmpty && round.lsr.Unreadable?)
       case OutputEmpty => round.wantsOutputEmpty && round.lsr == Readable(true)
       case _ => false
  }

  function RoundsThatTell(rounds: seq<Round>, kind: Kind): nat
    decreases |rounds|
  {
    if rounds == [] then 0 else
    RoundsThatTell(rounds[..|rounds| - 1], kind) + (if Tells(rounds[|rounds| - 1], kind) then 1 else 0)
  }

  predicate Told(heard: seq<bool>, times: nat) {
    |heard| == times && forall i | 0 <= i < times :: heard[i]
  }

  /** Whatever the driver answers over the rounds, a listener hears of pending input, always TRUE, once for every
      round that finds some and has a subscriber, and of an empty output buffer likewise. */
  lemma {:induction false} ListenerHearsDataExactly(rounds: seq<Round>, hasTiocgicount: bool, e: Engine, kind: Kind)
    requires kind.DataAvailable? || kind.OutputEmpty?
    ensures Told(Heard(SentIn(rounds, hasTiocgicount, e), kind), RoundsThatTell(rounds, kind))
    decreases |rounds|
  {
    if rounds != [] {
      var last, init := rounds[|rounds| - 1], rounds[..|rounds| - 1];
      var before := After(init, hasTiocgicount, e.(sent := []));
      ListenerHearsDataExactly(init, hasTiocgicount, e, kind);
      HeardAppend(before.sent, RoundEvents(last, hasTiocgicount, before.counts, before.lines), kind);
      RoundTold(last, hasTiocgicount, before.counts, before.lines, kind);
      ToldMore(Heard(before.sent, kind), RoundsThatTell(init, kind), Tells(last, kind));
    }
  }

  lemma ToldMore(heard: seq<bool>, times: nat, more: bool)
    requires Told(heard, times)
    ensures Told(heard + if more then [true] else [], times + if more then 1 else 0)
  {
  }

  lemma RoundTold(round: Round, hasTiocgicount: bool, counts: Counters, lines: Lines, kind: Kind)
    requires kind.DataAvailable? || kind.OutputEmpty?
    ensures Heard(RoundEvents(round, hasTiocgicount, counts, lines), kind) == if Tells(round, kind) then [true] else []
  {
    if round.selected {
      var a := round.wantsOutputEmpty && round.lsr == Readable(true);
      var d := round.Looks() && round.pending && round.wantsData;
      var b := CounterEvents(counts, Recounted(round, hasTiocgicount, counts));
      var c := Edges(lines, Resampled(round, lines));
      CounterEventsUnheard(counts, Recounted(round, hasTiocgicount, counts), kind);
      EdgesUnheard(lines, Resampled(round, lines), kind);
      HeardFour(When(OutputEmpty, a), b, c, When(DataAvailable, d), kind);
      WhenHeard(OutputEmpty, a, kind);
      WhenHeard(DataAvailable, d, kind);
      OnlyOne([true]);
    }
  }

  lemma WhenHeard(of: Kind, c: bool, kind: Kind)
    ensures Heard(When(of, c), kind) == if c && of == kind then [true] else []
  {
    if c {
      assert When(of, c)[1..] == [];
    }
  }

  lemma {:induction false} RepeatUnheard(kind: Kind, n: nat, of: Kind)
    requires kind != of
    ensures Heard(Repeat(kind, n), of) == []
  {
    if n > 0 {
      assert Repeat(kind, n)[1..] == Repeat(kind, n - 1);
      RepeatUnheard(kind, n - 1, of);
    }
  }

  lemma CounterEventsUnheard(before: Counters, after: Counters, kind: Kind)
    requires !IsCounter(kind)
    ensures Heard(CounterEvents(before, after), kind) == []
  {
    var fe, oe := Distance(before.frame, after.frame), Distance(before.overrun, after.overrun);
    var pe, bi := Distance(before.parity, after.parity), Distance(before.brk, after.brk);
    HeardFour(Repeat(FE, fe), Repeat(OE, oe), Repeat(PE, pe), Repeat(BI, bi), kind);
    RepeatUnheard(FE, fe, kind);
    RepeatUnheard(OE, oe, kind);
    RepeatUnheard(PE, pe, kind);
    RepeatUnheard(BI, bi, kind);
  }

  /** Each line's events are about the line they are named after. */
  lemma EdgesByName(before: Lines, after: Lines)
    ensures var es := Edges(before, after);
      && Heard(es, CTS) == (if before.cts == after.cts then [] else [after.cts])
      && Heard(es, DSR) == (if before.dsr == after.dsr then [] else [after.dsr])
      && Heard(es, RI) == (if before.ri == after.ri then [] else [after.ri])
      && Heard(es, CD) == (if before.cd == after.cd then [] else [after.cd])
  {
    HeardEdges(before, after, CTS);
    HeardEdges(before, after, DSR);
    HeardEdges(before, after, RI);
    HeardEdges(before, after, CD);
  }

  /** And each counter's about the counter. */
  lemma CountersByName(was: Counters, now: Counters, kind: Kind)
    requires kind.FE? || kind.OE? || kind.PE? || kind.BI?
    ensures |Heard(CounterEvents(was, now), kind)|
         == (if kind.FE? then now.frame - was.frame
             else if kind.OE? then now.overrun - was.overrun
             else if kind.PE? then now.parity - was.parity
             else now.brk - was.brk) % 0x1_0000_0000
  {
    CounterEventsHeard(was, now, kind);
  }

  // ---------- The order within a round ----------

  function Place(kind: Kind): nat {
    match kind
    case OutputEmpty => 0
    case FE => 1
    case OE => 2
    case PE => 3
    case BI => 4
    case CTS => 5
    case DSR => 6
    case RI => 7
    case CD => 8
    case DataAvailable => 9
  }

  /** The events stand in the order of their places, all of them from `low` to `high`. */
  predicate InOrder(es: seq<SerialEvent>, low: nat, high: nat) {
    && (forall i | 0 <= i < |es| :: low <= Place(es[i].kind) <= high)
    && forall i, j | 0 <= i <= j < |es| :: Place(es[i].kind) <= Place(es[j].kind)
  }

  lemma FourInOrder(a: seq<SerialEvent>, b: seq<SerialEvent>, c: seq<SerialEvent>, d: seq<SerialEvent>,
                    p: nat, q: nat, r: nat, low: nat, high: nat)
    requires low <= p <= q <= r <= high
    requires InOrder(a, low, p) && InOrder(b, p, q) && InOrder(c, q, r) && InOrder(d, r, high)
    ensures InOrder(a + b + c + d, low, high)
  {
    TwoInOrder(a, b, low, p, q);
    TwoInOrder(a + b, c, low, q, r);
    TwoInOrder(a + b + c, d, low, r, high);
  }

  lemma TwoInOrder(a: seq<SerialEvent>, b: seq<SerialEvent>, low: nat, mid: nat, high: nat)
    requires low <= mid <= high && InOrder(a, low, mid) && InOrder(b, mid, high)
    ensures InOrder(a + b, low, high)
  {
    forall i, j | 0 <= i <= j < |a + b| ensures Place((a + b)[i].kind) <= Place((a + b)[j].kind) {
      assert i < |a| ==> Place(a[i].kind) <= mid;
      assert j >= |a| ==> Place(b[j - |a|].kind) >= mid;
    }
  }

  /** The events of any rounds are those of each round, one after another; within a round an empty output buffer
      comes first, then the counters, the lines, and pending input last. */
  lemma RoundsInOrder(rounds: seq<Round>, round: Round, hasTiocgicount: bool, e: Engine)
    ensures SentIn(rounds + [round], hasTiocgicount, e)
         == SentIn(rounds, hasTiocgicount, e) + SentIn([round], hasTiocgicount, After(rounds, hasTiocgicount, e))
    ensures InOrder(SentIn([round], hasTiocgicount, e), 0, 9)
  {
    assert (rounds + [round])[..|rounds|] == rounds;
    AfterAppends(rounds, hasTiocgicount, e);
    var after := After(rounds, hasTiocgicount, e);
    OneRound(round, hasTiocgicount, after);
    OneRound(round, hasTiocgicount, e);
    RoundInOrder(round, hasTiocgicount, e.counts, e.lines);
  }

  lemma OneRound(round: Round, hasTiocgicount: bool, e: Engine)
    ensures SentIn([round], hasTiocgicount, e) == RoundEvents(round, hasTiocgicount, e.counts, e.lines)
  {
    assert [round][..0] == [];
    assert After([], hasTiocgicount, e.(sent := [])) == e.(sent := []);
    assert [] + RoundEvents(round, hasTiocgicount, e.counts, e.lines)
        == RoundEvents(round, hasTiocgicount, e.counts, e.lines);
  }

  lemma CountersInOrder(before: Counters, after: Counters)
    ensures InOrder(CounterEvents(before, after), 1, 4)
  {
    FourInOrder(Repeat(FE, Distance(before.frame, after.frame)), Repeat(OE, Distance(before.overrun, after.overrun)),
                Repeat(PE, Distance(before.parity, after.parity)), Repeat(BI, Distance(before.brk, after.brk)),
                1, 2, 3, 1, 4);
  }

  lemma EdgesInOrder(before: Lines, after: Lines)
    ensures InOrder(Edges(before, after), 5, 8)
  {
    FourInOrder(Edge(CTS, before, after), Edge(DSR, before, after), Edge(RI, before, after), Edge(CD, before, after),
                5, 6, 7, 5, 8);
  }

  lemma Loosened(es: seq<SerialEvent>, low: nat, high: nat, lower: nat, higher: nat)
    requires lower <= low && high <= higher && InOrder(es, low, high)
    ensures InOrder(es, lower, higher)
  {
  }

  lemma RoundInOrder(round: Round, hasTiocgicount: bool, counts: Counters, lines: Lines)
    ensures InOrder(RoundEvents(round, hasTiocgicount, counts, lines), 0, 9)
  {
    if round.selected {
      var a := round.wantsOutputEmpty && round.lsr == Readable(true);
      var d := round.Looks() && round.pending && round.wantsData;
      var now, sample := Recounted(round, hasTiocgicount, counts), Resampled(round, lines);
      CountersInOrder(counts, now);
      EdgesInOrder(lines, sample);
      Loosened(CounterEvents(counts, now), 1, 4, 0, 4);
      Loosened(Edges(lines, sample), 5, 8, 4, 8);
      FourInOrder(When(OutputEmpty, a), CounterEvents(counts, now), Edges(lines, sample), When(DataAvailable, d),
                  0, 4, 8, 0, 9);
    }
  }

  // ---------- The states ----------

  /** Only the events of modem lines say FALSE. */
  predicate OnlyLinesFall(es: seq<SerialEvent>) {
    forall i | 0 <= i < |es| ::
      es[i].state || es[i].kind.CTS? || es[i].kind.DSR? || es[i].kind.RI? || es[i].kind.CD?
  }

  lemma FourFall(a: seq<SerialEvent>, b: seq<SerialEvent>, c: seq<SerialEvent>, d: seq<SerialEvent>)
    requires OnlyLinesFall(a) && OnlyLinesFall(b) && OnlyLinesFall(c) && OnlyLinesFall(d)
    ensures OnlyLinesFall(a + b + c + d)
  {
    TwoFall(a, b);
    TwoFall(a + b, c);
    TwoFall(a + b + c, d);
  }

  lemma TwoFall(a: seq<SerialEvent>, b: seq<SerialEvent>)
    requires OnlyLinesFall(a) && OnlyLinesFall(b)
    ensures OnlyLinesFall(a + b)
  {
  }

  lemma RoundFalls(round: Round, hasTiocgicount: bool, counts: Counters, lines: Lines)
    ensures OnlyLinesFall(RoundEvents(round, hasTiocgicount, counts, lines))
  {
    if round.selected {
      var now, sample := Recounted(round, hasTiocgicount, counts), Resampled(round, lines);
      FourFall(Repeat(FE, Distance(counts.frame, now.frame)), Repeat(OE, Distance(counts.overrun, now.overrun)),
               Repeat(PE, Distance(counts.parity, now.parity)), Repeat(BI, Distance(counts.brk, now.brk)));
      FourFall(Edge(CTS, lines, sample), Edge(DSR, lines, sample), Edge(RI, lines, sample), Edge(CD, lines, sample));
      FourFall(When(OutputEmpty, round.wantsOutputEmpty && round.lsr == Readable(true)), CounterEvents(counts, now),
               Edges(lines, sample), When(DataAvailable, round.Looks() && round.pending && round.wantsData));
    }
  }

  /** Over any rounds every event of a counter, of pending input or of an empty buffer says TRUE. */
  lemma {:induction false} CountersSayTrue(rounds: seq<Round>, hasTiocgicount: bool, e: Engine)
    ensures OnlyLinesFall(SentIn(rounds, hasTiocgicount, e))
    decreases |rounds|
  {
    if rounds != [] {
      var last, init := rounds[|rounds| - 1], rounds[..|rounds| - 1];
      var before := After(init, hasTiocgicount, e.(sent := []));
      CountersSayTrue(init, hasTiocgicount, e);
      RoundFalls(last, hasTiocgicount, before.counts, before.lines);
      TwoFall(before.sent, RoundEvents(last, hasTiocgicount, before.counts, before.lines));
    }
  }
}
