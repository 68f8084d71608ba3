/** The single-slot hand-off of comm events on Windows CE.

    CommEventThread stores each mask WaitCommEvent reports in the one `event`
    word, raises an auto-reset signal and spins until the word is zero. eventLoop
    waits for the signal, reads the word, clears it and passes what it read to
    SendEvents. Each of these is one step and the two threads interleave freely. */
module EventHandoff {
  import opened Wrappers

  datatype Producer = AtWait | Stored | Spinning
  datatype Consumer = Looping | Woken | HasRead(mask: nat) | Sending(mask: nat)

  /** `produced`: the masks WaitCommEvent stored; `delivered`: those SendEvents was given. */
  datatype State = State(event: nat, signal: bool, producer: Producer, consumer: Consumer,
                         produced: seq<nat>, delivered: seq<nat>)

  datatype Event = Store(mask: nat) | Signal | SpinEnds | Wake | ReadSlot | ClearSlot | Send

  const Start := State(0, false, AtWait, Looping, [], [])

  /** `fused`: the consumer reads and clears the slot in one step. */
  function Next(fused: bool, s: State, e: Event): Option<State> {
    if fused && s.consumer.HasRead? && !e.ClearSlot? then None else
    match e
    case Store(m) =>
      if s.producer.AtWait? then Some(s.(event := m, producer := Stored, produced := s.produced + [m])) else None
    case Signal => if s.producer.Stored? then Some(s.(signal := true, producer := Spinning)) else None
    case SpinEnds => if s.producer.Spinning? && s.event == 0 then Some(s.(producer := AtWait)) else None
    case Wake => if s.consumer.Looping? && s.signal then Some(s.(signal := false, consumer := Woken)) else None
    case ReadSlot => if s.consumer.Woken? then Some(s.(consumer := HasRead(s.event))) else None
    case ClearSlot =>
      if s.consumer.HasRead? then Some(s.(event := 0, consumer := Sending(s.consumer.mask))) else None
    case Send =>
      if s.consumer.Sending? then Some(s.(delivered := s.delivered + [s.consumer.mask], consumer := Looping))
      else None
  }

  function Run(fused: bool, s: State, es: seq<Event>): Option<State>
    decreases |es|
  {
    if es == [] then Some(s) else
    var r := Next(fused, s, es[0]);
    if r.None? then None else Run(fused, r.value, es[1..])
  }

  /** The masks that report something. */
  function Real(masks: seq<nat>): seq<nat> {
    if masks == [] then []
    else Real(masks[..|masks| - 1]) + if masks[|masks| - 1] != 0 then [masks[|masks| - 1]] else []
  }

  function One(mask: nat): seq<nat> {
    if mask != 0 then [mask] else []
  }

  function InHand(s: State): seq<nat> {
    if s.consumer.Sending? then One(s.consumer.mask) else []
  }

  /** Delivered, then in the consumer's hand, then in the slot: the masks produced, in order. */
  ghost predicate Lossless(s: State) {
    Real(s.delivered) + InHand(s) + One(s.event) == Real(s.produced)
  }

  ghost predicate ZerosLast(masks: seq<nat>) {
    forall i, j | 0 <= i < j < |masks| && masks[i] == 0 :: masks[j] == 0
  }

  lemma {:induction false} RealAppend(a: seq<nat>, b: seq<nat>)
    ensures Real(a + b) == Real(a) + Real(b)
    decreases |b|
  {
    if b == [] {
      assert a + b == a;
    } else {
      assert (a + b)[..|a + b| - 1] == a + b[..|b| - 1];
      RealAppend(a, b[..|b| - 1]);
    }
  }

  lemma {:induction false} RealAll(a: seq<nat>)
    requires forall i | 0 <= i < |a| :: a[i] != 0
    ensures Real(a) == a
    decreases |a|
  {
    if a != [] {
      RealAll(a[..|a| - 1]);
      assert a == a[..|a| - 1] + [a[|a| - 1]];
    }
  }

  lemma {:induction false} RunAppend(fused: bool, s: State, es: seq<Event>, more: seq<Event>)
    requires Run(fused, s, es).Some?
    ensures Run(fused, s, es + more) == Run(fused, Run(fused, s, es).value, more)
    decreases |es|
  {
    if es == [] {
      assert es + more == more;
    } else {
      assert (es + more)[1..] == es[1..] + more;
      RunAppend(fused, Next(fused, s, es[0]).value, es[1..], more);
    }
  }

  lemma {:induction false} ProducedGrows(fused: bool, s: State, es: seq<Event>)
    requires Run(fused, s, es).Some?
    ensures s.produced <= Run(fused, s, es).value.produced
    decreases |es|
  {
    if es != [] {
      ProducedGrows(fused, Next(fused, s, es[0]).value, es[1..]);
    }
  }

  // ---------- What the steps keep ----------

  /** Every mask so far reports something: the slot is refilled only after its last mask was taken,
      and the signal is up only for a mask not yet taken. */
  ghost predicate Handshake(s: State) {
    var taking := s.consumer.Woken? || s.consumer.HasRead?;
    && 0 !in s.delivered && (s.consumer.Sending? ==> s.consumer.mask != 0)
    && (s.signal ==> s.producer.Spinning? && !taking)
    && (taking ==> s.producer.Spinning?)
    && (s.event == 0 <==> s.producer.AtWait? || (s.producer.Spinning? && !s.signal && !taking))
  }

  ghost predicate Inv(fused: bool, s: State) {
    && Lossless(s)
    && (s.producer.AtWait? ==> s.event == 0)
    && (s.consumer.HasRead? ==> s.consumer.mask == s.event)
    && (0 !in s.produced ==> Handshake(s))
    && (!fused && 0 in s.produced ==> s.event == 0)
  }

  lemma RealSnoc(a: seq<nat>, mask: nat)
    ensures Real(a + [mask]) == Real(a) + One(mask)
  {
    assert (a + [mask])[..|a|] == a;
  }

  lemma LosslessStore(s: State, r: State, mask: nat)
    requires Lossless(s) && s.event == 0 && r.event == mask && r.produced == s.produced + [mask]
    requires r.delivered == s.delivered && r.consumer == s.consumer
    ensures Lossless(r)
  {
    RealSnoc(s.produced, mask);
  }

  lemma LosslessSend(s: State, r: State)
    requires Lossless(s) && s.consumer.Sending? && r.consumer.Looping?
    requires r.delivered == s.delivered + [s.consumer.mask] && r.event == s.event && r.produced == s.produced
    ensures Lossless(r)
  {
    RealSnoc(s.delivered, s.consumer.mask);
  }

  lemma LosslessTake(s: State, r: State)
    requires Lossless(s) && s.consumer == HasRead(s.event) && r.consumer == Sending(s.event) && r.event == 0
    requires r.delivered == s.delivered && r.produced == s.produced
    ensures Lossless(r)
  {
  }

  lemma LosslessNext(fused: bool, s: State, e: Event)
    requires Lossless(s) && Next(fused, s, e).Some?
    requires s.producer.AtWait? ==> s.event == 0
    requires s.consumer.HasRead? ==> s.consumer.mask == s.event
    ensures Lossless(Next(fused, s, e).value)
  {
    var r := Next(fused, s, e).value;
    match e
    case Store(m) => LosslessStore(s, r, m);
    case Send => LosslessSend(s, r);
    case ClearSlot => LosslessTake(s, r);
    case _ => assert InHand(r) == InHand(s);
  }

  lemma InvNext(fused: bool, s: State, e: Event)
    requires Inv(fused, s) && Next(fused, s, e).Some?
    requires fused || ZerosLast(Next(fused, s, e).value.produced)
    ensures Inv(fused, Next(fused, s, e).value)
  {
    LosslessNext(fused, s, e);
    if e.Store? && 0 in s.produced && !fused {
      var r := Next(fused, s, e).value;
      var i :| 0 <= i < |s.produced| && s.produced[i] == 0;
      assert r.produced[i] == 0 && r.produced[|s.produced|] == e.mask;
    }
  }

  lemma {:induction false} InvRun(fused: bool, s: State, es: seq<Event>)
    requires Inv(fused, s) && Run(fused, s, es).Some?
    requires fused || ZerosLast(Run(fused, s, es).value.produced)
    ensures Inv(fused, Run(fused, s, es).value)
    decreases |es|
  {
    if es != [] {
      var r := Next(fused, s, es[0]).value;
      ProducedGrows(fused, r, es[1..]);
      InvNext(fused, s, es[0]);
      InvRun(fused, r, es[1..]);
    }
  }

  // ---------- A run that loses a mask ----------

  /** Between two events: the slot empty, nothing in hand, everything delivered. */
  function Quiet(masks: seq<nat>): State {
    State(0, false, AtWait, Looping, masks, masks)
  }

  const Polite := [Signal, Wake, ReadSlot, ClearSlot, SpinEnds, Send]

  lemma PoliteDelivers(fused: bool, masks: seq<nat>, mask: nat)
    ensures Run(fused, Quiet(masks), [Store(mask)] + Polite) == Some(Quiet(masks + [mask]))
  {
    var s1 := State(mask, false, Stored, Looping, masks + [mask], masks);
    var s2 := s1.(signal := true, producer := Spinning);
    var s3 := s2.(signal := false, consumer := Woken);
    var s4 := s3.(consumer := HasRead(mask));
    var s5 := s4.(event := 0, consumer := Sending(mask));
    var s6 := s5.(producer := AtWait);
    assert Run(fused, s6, Polite[5..]) == Run(fused, Quiet(masks + [mask]), []);
    assert Run(fused, s5, Polite[4..]) == Run(fused, s6, Polite[5..]);
    assert Run(fused, s4, Polite[3..]) == Run(fused, s5, Polite[4..]);
    assert Run(fused, s3, Polite[2..]) == Run(fused, s4, Polite[3..]);
    assert Run(fused, s2, Polite[1..]) == Run(fused, s3, Polite[2..]);
    assert ([Store(mask)] + Polite)[1..] == Polite;
    assert Run(fused, s1, Polite) == Run(fused, s2, Polite[1..]);
  }

  lemma {:induction false} PoliteRun(fused: bool, masks: seq<nat>) returns (es: seq<Event>)
    ensures Run(fused, Start, es) == Some(Quiet(masks))
    decreases |masks|
  {
    if masks == [] {
      es := [];
    } else {
      var last := |masks| - 1;
      es := PoliteRun(fused, masks[..last]);
      PoliteDelivers(fused, masks[..last], masks[last]);
      RunAppend(fused, Start, es, [Store(masks[last])] + Polite);
      es := es + ([Store(masks[last])] + Polite);
      assert masks == masks[..last] + [masks[last]];
    }
  }

  const Racing := [Signal, SpinEnds, Wake, ReadSlot]

  /** A zero mask lets the producer past the spin while the consumer is between its read and its
      clear, so the next mask is stored and wiped. */
  lemma RaceLoses(masks: seq<nat>, mask: nat)
    ensures Run(false, Quiet(masks), [Store(0)] + Racing + [Store(mask), ClearSlot])
         == Some(State(0, false, Stored, Sending(0), masks + [0, mask], masks))
  {
    var es := [Store(0)] + Racing + [Store(mask), ClearSlot];
    var s1 := State(0, false, Stored, Looping, masks + [0], masks);
    var s2 := s1.(signal := true, producer := Spinning);
    var s3 := s2.(producer := AtWait);
    var s4 := s3.(signal := false, consumer := Woken);
    var s5 := s4.(consumer := HasRead(0));
    var s6 := s5.(event := mask, producer := Stored, produced := masks + [0, mask]);
    assert masks + [0] + [mask] == masks + [0, mask];
    assert Run(false, s6, es[6..]) == Run(false, s6.(event := 0, consumer := Sending(0)), []);
    assert Run(false, s5, es[5..]) == Run(false, s6, es[6..]);
    assert Run(false, s4, es[4..]) == Run(false, s5, es[5..]);
    assert Run(false, s3, es[3..]) == Run(false, s4, es[4..]);
    assert Run(false, s2, es[2..]) == Run(false, s3, es[3..]);
    assert Run(false, s1, es[1..]) == Run(false, s2, es[2..]);
  }

  lemma LossyRun(masks: seq<nat>, k: nat) returns (es: seq<Event>)
    requires k + 1 < |masks| && masks[k] == 0 && masks[k + 1] != 0
    ensures Run(false, Start, es).Some?
    ensures Run(false, Start, es).value.produced <= masks && !Lossless(Run(false, Start, es).value)
  {
    var before, mask := masks[..k], masks[k + 1];
    es := PoliteRun(false, before);
    RaceLoses(before, mask);
    RunAppend(false, Start, es, [Store(0)] + Racing + [Store(mask), ClearSlot]);
    es := es + ([Store(0)] + Racing + [Store(mask), ClearSlot]);
    assert before + [0, mask] == before + [0] + [mask] == masks[..k + 2];
    RealSnoc(before, 0);
    RealSnoc(before + [0], mask);
  }

  lemma {:induction false} ZeroThenReal(masks: seq<nat>, i: nat, j: nat) returns (k: nat)
    requires i < j < |masks| && masks[i] == 0 && masks[j] != 0
    ensures k + 1 < |masks| && masks[k] == 0 && masks[k + 1] != 0
    decreases j - i
  {
    if masks[i + 1] != 0 {
      k := i;
    } else {
      k := ZeroThenReal(masks, i + 1, j);
    }
  }

  // ---------- The results ----------

  /** Whatever the interleaving, the masks that report something are delivered in order, none lost
      and none repeated, exactly when the consumer takes the slot in one step or no such mask ever
      follows a zero one. */
  lemma LosslessExactly(fused: bool, masks: seq<nat>)
    ensures (forall es | Run(fused, Start, es).Some? && Run(fused, Start, es).value.produced <= masks ::
               Lossless(Run(fused, Start, es).value))
       <==> fused || ZerosLast(masks)
  {
    if fused || ZerosLast(masks) {
      forall es | Run(fused, Start, es).Some? && Run(fused, Start, es).value.produced <= masks
        ensures Lossless(Run(fused, Start, es).value)
      {
        InvRun(fused, Start, es);
      }
    } else {
      var i, j :| 0 <= i < j < |masks| && masks[i] == 0 && masks[j] != 0;
      var k := ZeroThenReal(masks, i, j);
      var es := LossyRun(masks, k);
    }
  }

  /** When WaitCommEvent reports no zero mask, SendEvents is given exactly the masks reported. */
  lemma ExactlyOnceInOrder(fused: bool, es: seq<Event>)
    requires Run(fused, Start, es).Some?
    requires 0 !in Run(fused, Start, es).value.produced
    ensures var s := Run(fused, Start, es).value;
      s.delivered + InHand(s) + One(s.event) == s.produced
  {
    var s := Run(fused, Start, es).value;
    InvRun(fused, Start, es);
    RealAll(s.produced);
    RealAll(s.delivered);
  }
}
