/** The WinCE event mask and its dispatch: nativeSetEventFlag keeps one mask per port, SendEvents
    filters what WaitCommEvent reported by it and calls the listener.

    The masks are sets of condition classes in place of words of EV_ bits. */
module SerialEvents {
  import opened Wrappers

  /** The EV_ classes in use. `Sentinel` is the otherwise unused EV_POWER (or EV_EVENT2). */
  datatype Class = RxChar | TxEmpty | Cts | Dsr | Ring | Rlsd | Err | Break | Sentinel

  // The SPE_ events.
  const DATA_AVAILABLE: int := 1
  const OUTPUT_BUFFER_EMPTY: int := 2
  const CTS: int := 3
  const DSR: int := 4
  const RI: int := 5
  const CD: int := 6
  const OE: int := 7
  const PE: int := 8
  const FE: int := 9
  const BI: int := 10

  function ClassOf(event: int): Option<Class> {
    if event == DATA_AVAILABLE then Some(RxChar)
    else if event == OUTPUT_BUFFER_EMPTY then Some(TxEmpty)
    else if event == CTS then Some(Cts)
    else if event == DSR then Some(Dsr)
    else if event == RI then Some(Ring)
    else if event == CD then Some(Rlsd)
    else if event == OE || event == PE || event == FE then Some(Err)
    else if event == BI then Some(Break)
    else None
  }

  /** The errors ClearCommError reports. */
  datatype Errors = Errors(overrun: bool, parity: bool, frame: bool)

  /** Whether an event is to be sent: its class is reported and in the mask, and an error event's own
      error is among those reported. */
  predicate Wanted(ef: set<Class>, reported: set<Class>, errors: Errors, event: int) {
    && ClassOf(event).Some? && ClassOf(event).value in reported && ClassOf(event).value in ef
    && HasError(errors, event)
  }

  predicate HasError(errors: Errors, event: int) {
    (event == OE ==> errors.overrun) && (event == PE ==> errors.parity) && (event == FE ==> errors.frame)
  }

  /** A call of sendEvent. */
  datatype Call = Call(event: int, state: bool)

  /** The wanted events up to `n`, in order. Every one is sent with the state TRUE, whatever the line's level. */
  function WantedUpTo(ef: set<Class>, reported: set<Class>, errors: Errors, n: nat): seq<Call> {
    if n == 0 then []
    else WantedUpTo(ef, reported, errors, n - 1) + (if Wanted(ef, reported, errors, n) then [Call(n, true)] else [])
  }

  lemma {:induction false} WantedUpToHoldsEach(ef: set<Class>, reported: set<Class>, errors: Errors, n: nat, event: int,
                                               state: bool)
    ensures Call(event, state) in WantedUpTo(ef, reported, errors, n)
       <==> state && 1 <= event <= n && Wanted(ef, reported, errors, event)
    ensures var wanted := WantedUpTo(ef, reported, errors, n);
      forall i, j :: 0 <= i < j < |wanted| ==> wanted[i].event < wanted[j].event
  {
    if n > 0 {
      var before := WantedUpTo(ef, reported, errors, n - 1);
      WantedUpToHoldsEach(ef, reported, errors, n - 1, event, state);
      forall i | 0 <= i < |before| ensures before[i].event < n {
        WantedUpToHoldsEach(ef, reported, errors, n - 1, before[i].event, before[i].state);
      }
    }
  }

  /** Event by event, what has to be reported and in the mask for it to be sent. */
  lemma SentByOwnCondition(ef: set<Class>, reported: set<Class>, errors: Errors)
    ensures var sent, both := WantedUpTo(ef, reported, errors, 10), reported * ef;
      && (Call(1, true) in sent <==> RxChar in both) && (Call(2, true) in sent <==> TxEmpty in both)
      && (Call(3, true) in sent <==> Cts in both) && (Call(4, true) in sent <==> Dsr in both)
      && (Call(5, true) in sent <==> Ring in both) && (Call(6, true) in sent <==> Rlsd in both)
      && (Call(7, true) in sent <==> Err in both && errors.overrun)
      && (Call(8, true) in sent <==> Err in both && errors.parity)
      && (Call(9, true) in sent <==> Err in both && errors.frame)
      && (Call(10, true) in sent <==> Break in both)
  {
    forall event: int ensures Call(event, true) in WantedUpTo(ef, reported, errors, 10)
                              <==> 1 <= event <= 10 && Wanted(ef, reported, errors, event) {
      WantedUpToHoldsEach(ef, reported, errors, 10, event, true);
    }
  }

  class EventInfo {
    var ef: set<Class>
    /** The mask the driver was last given. */
    var commMask: set<Class>
    /** Every call of sendEvent, in order. */
    var calls: seq<Call>

    constructor ()
      ensures ef == {Sentinel} && commMask == {} && calls == []
    {
      ef, commMask, calls := {Sentinel}, {}, [];
    }

    /** `accepted`: SetCommMask succeeds. */
    method NativeSetEventFlag(event: int, flag: bool, accepted: bool)
      modifies `ef, `commMask
      ensures ef == Flagged(old(ef), Flag(event, flag))
      ensures commMask == if accepted && ClassOf(event).Some? then ef else old(commMask)
    {
      var newFlag;
      match ClassOf(event) {
        case None => return;
        case Some(c) => newFlag := c;
      }
      if flag {
        ef := ef + {newFlag};
      } else {
        ef := ef - {newFlag};
      }
      if accepted {
        commMask := ef;
      }
    }

    method CallSendEvent(event: int, state: bool, listener: int -> bool) returns (handled: bool)
      modifies `calls
      ensures calls == old(calls) + [Call(event, state)] && handled == listener(event)
    {
      calls := calls + [Call(event, state)];
      handled := listener(event);
    }

    /** One of the ten branches of SendEvents: `handled` makes it return. */
    method Offer(event: nat, c: Class, occurred: bool, mask: set<Class>, listener: int -> bool,
                 ghost before: seq<Call>, ghost reported: set<Class>, ghost errors: Errors)
      returns (handled: bool)
      requires 1 <= event && mask == reported * ef
      requires ClassOf(event) == Some(c) && occurred == HasError(errors, event)
      requires SentUpTo(before, reported, errors, listener, event - 1)
      modifies `calls
      ensures !handled ==> SentUpTo(before, reported, errors, listener, event)
      ensures handled ==> Answered(before, reported, errors, listener, event)
    {
      handled := false;
      if c in mask && occurred {
        handled := CallSendEvent(event, true, listener);
      }
    }

    /** The wanted events up to `n` were sent, and none was answered TRUE. */
    ghost predicate SentUpTo(before: seq<Call>, reported: set<Class>, errors: Errors, listener: int -> bool, n: nat)
      reads `ef, `calls
    {
      && calls == before + WantedUpTo(ef, reported, errors, n)
      && Unanswered(ef, reported, errors, listener, n)
    }

    /** The wanted events up to `event` were sent, and it is the first that was answered TRUE. */
    ghost predicate Answered(before: seq<Call>, reported: set<Class>, errors: Errors, listener: int -> bool, event: nat)
      reads `ef, `calls
    {
      && Wanted(ef, reported, errors, event) && listener(event)
      && calls == before + WantedUpTo(ef, reported, errors, event)
      && Unanswered(ef, reported, errors, listener, event - 1)
    }

    /** `cleared` is None when ClearCommError fails; `listener` gives sendEvent's answers. The events
        sent are the wanted ones in order, up to the first the listener answers TRUE to. */
    method SendEvents(dwEvent: set<Class>, cleared: Option<Errors>, listener: int -> bool) returns (r: int)
      modifies `calls
      ensures r == -1 <==> cleared.None?
      ensures r == -1 ==> calls == old(calls)
      ensures r == 0 ==> SentUpTo(old(calls), dwEvent, cleared.value, listener, BI)
      ensures r != 0 && r != -1 ==> 1 <= r <= BI && Answered(old(calls), dwEvent, cleared.value, listener, r)
    {
      if cleared.None? {
        return -1;
      }
      var dwErrors := cleared.value;
      var mask := dwEvent * ef;
      ghost var before := calls;
      var handled := Offer(DATA_AVAILABLE, RxChar, true, mask, listener, before, dwEvent, dwErrors);
      if handled { return DATA_AVAILABLE; }
      handled := Offer(OUTPUT_BUFFER_EMPTY, TxEmpty, true, mask, listener, before, dwEvent, dwErrors);
      if handled { return OUTPUT_BUFFER_EMPTY; }
      handled := Offer(CTS, Cts, true, mask, listener, before, dwEvent, dwErrors);
      if handled { return CTS; }
      handled := Offer(DSR, Dsr, true, mask, listener, before, dwEvent, dwErrors);
      if handled { return DSR; }
      handled := Offer(RI, Ring, true, mask, listener, before, dwEvent, dwErrors);
      if handled { return RI; }
      handled := Offer(CD, Rlsd, true, mask, listener, before, dwEvent, dwErrors);
      if handled { return CD; }
      handled := Offer(OE, Err, dwErrors.overrun, mask, listener, before, dwEvent, dwErrors);
      if handled { return OE; }
      handled := Offer(PE, Err, dwErrors.parity, mask, listener, before, dwEvent, dwErrors);
      if handled { return PE; }
      handled := Offer(FE, Err, dwErrors.frame, mask, listener, before, dwEvent, dwErrors);
      if handled { return FE; }
      handled := Offer(BI, Break, true, mask, listener, before, dwEvent, dwErrors);
      if handled { return BI; }
      return 0;
    }
  }

  /** No wanted event up to `n` is answered TRUE. */
  ghost predicate Unanswered(ef: set<Class>, reported: set<Class>, errors: Errors, listener: int -> bool, n: int) {
    forall e | 1 <= e <= n && Wanted(ef, reported, errors, e) :: !listener(e)
  }

  // ---------- Runs of nativeSetEventFlag ----------

  datatype Flag = Flag(event: int, flag: bool)

  function Flagged(ef: set<Class>, call: Flag): set<Class> {
    match ClassOf(call.event)
    case None => ef
    case Some(c) => if call.flag then ef + {c} else ef - {c}
  }

  /** The mask after the calls, from the mask set at initialisation. */
  function MaskAfter(calls: seq<Flag>): set<Class>
    decreases |calls|
  {
    if calls == [] then {Sentinel} else Flagged(MaskAfter(calls[..|calls| - 1]), calls[|calls| - 1])
  }

  /** Event by event, the bit a call of nativeSetEventFlag sets or clears; for any other event, none. */
  lemma FlagSetsOwnBit(ef: set<Class>, flag: bool, event: int)
    ensures var after := Flagged(ef, Flag(event, flag));
      var bit := if event == 1 then {RxChar} else if event == 2 then {TxEmpty} else if event == 3 then {Cts}
                 else if event == 4 then {Dsr} else if event == 5 then {Ring} else if event == 6 then {Rlsd}
                 else if 7 <= event <= 9 then {Err} else if event == 10 then {Break} else {};
      after == if flag then ef + bit else ef - bit
  {
  }

  /** The flag last given for any event of `events`, FALSE if none was. */
  function LastFlag(calls: seq<Flag>, events: set<int>): bool
    decreases |calls|
  {
    if calls == [] then false
    else if calls[|calls| - 1].event in events then calls[|calls| - 1].flag
    else LastFlag(calls[..|calls| - 1], events)
  }

  function EventsOf(c: Class): set<int> {
    set e | 1 <= e <= 10 && ClassOf(e) == Some(c)
  }

  /** Over any calls, unknown events included, the sentinel stays, so that the mask is never empty, and
      each class bit is the flag last given for an event of the class. */
  lemma {:induction false} MaskIsLastFlags(calls: seq<Flag>, c: Class)
    ensures c in MaskAfter(calls) <==> c == Sentinel || LastFlag(calls, EventsOf(c))
    ensures MaskAfter(calls) != {}
    decreases |calls|
  {
    if calls != [] {
      var last := calls[|calls| - 1];
      MaskIsLastFlags(calls[..|calls| - 1], c);
      MaskIsLastFlags(calls[..|calls| - 1], Sentinel);
      assert last.event in EventsOf(c) <==> ClassOf(last.event) == Some(c);
    }
  }

  /** What the caller asked for: the flag last given for the event itself. */
  predicate Subscribed(calls: seq<Flag>, event: int) {
    LastFlag(calls, {event})
  }

  predicate ErrorsAskedAlike(calls: seq<Flag>) {
    Subscribed(calls, OE) == Subscribed(calls, PE) == Subscribed(calls, FE)
  }

  /** Each single event's subscription shows in the mask exactly when the overrun, parity and frame
      errors, which share a bit, were last asked for alike. */
  lemma MaskMeansSubscriptionExactly(calls: seq<Flag>)
    ensures (forall e | 1 <= e <= 10 :: Subscribed(calls, e) <==> ClassOf(e).value in MaskAfter(calls))
       <==> ErrorsAskedAlike(calls)
  {
    forall e | 1 <= e <= 10
      ensures ClassOf(e).value in MaskAfter(calls) <==> LastFlag(calls, EventsOf(ClassOf(e).value))
      ensures ClassOf(e).value != Err ==> EventsOf(ClassOf(e).value) == {e}
    {
      MaskIsLastFlags(calls, ClassOf(e).value);
    }
    assert EventsOf(Err) == {OE, PE, FE};
    LastIsOneOfThree(calls);
    assert ClassOf(OE) == ClassOf(PE) == ClassOf(FE) == Some(Err);
    if forall e | 1 <= e <= 10 :: Subscribed(calls, e) <==> ClassOf(e).value in MaskAfter(calls) {
      assert Subscribed(calls, OE) == Subscribed(calls, PE) == Subscribed(calls, FE);
    }
  }

  lemma {:induction false} LastIsOneOfThree(calls: seq<Flag>)
    ensures var shared := LastFlag(calls, {OE, PE, FE});
      shared == LastFlag(calls, {OE}) || shared == LastFlag(calls, {PE}) || shared == LastFlag(calls, {FE})
    decreases |calls|
  {
    if calls != [] {
      LastIsOneOfThree(calls[..|calls| - 1]);
    }
  }

  /** What SendEvents sends was reported; and it was asked for, unless it is an error event and the
      three errors were not last asked for alike. */
  lemma OnlySubscribedSent(calls: seq<Flag>, reported: set<Class>, errors: Errors, n: nat, event: int, state: bool)
    requires n <= 10 && Call(event, state) in WantedUpTo(MaskAfter(calls), reported, errors, n)
    ensures ClassOf(event).Some? && ClassOf(event).value in reported
    ensures ErrorsAskedAlike(calls) || ClassOf(event) != Some(Err) ==> Subscribed(calls, event)
  {
    WantedUpToHoldsEach(MaskAfter(calls), reported, errors, n, event, state);
    var c := ClassOf(event).value;
    MaskIsLastFlags(calls, c);
    if c == Err {
      MaskMeansSubscriptionExactly(calls);
    } else {
      assert EventsOf(c) == {event};
    }
  }

  /** Asking for overruns and then not for framing errors loses the overruns. */
  lemma SharedBitLosesOverruns(reported: set<Class>, errors: Errors, n: nat)
    ensures var calls := [Flag(OE, true), Flag(FE, false)];
      Subscribed(calls, OE) && Call(OE, true) !in WantedUpTo(MaskAfter(calls), reported, errors, n)
  {
    var calls := [Flag(OE, true), Flag(FE, false)];
    assert calls[..1] == [Flag(OE, true)] && calls[..1][..0] == [];
    assert LastFlag(calls[..1], {OE}) && !LastFlag(calls, EventsOf(Err));
    MaskIsLastFlags(calls, Err);
    WantedUpToHoldsEach(MaskAfter(calls), reported, errors, n, OE, true);
  }
}
