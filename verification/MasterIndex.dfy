/** The global list of event_info_struct records, one for each event loop.

    The list is doubly linked through the records themselves; `nodes` is the
    sequence it stands for. Calls are taken one after another. */
module MasterIndex {

  class EventInfo {
    var fd: int
    var eventflags: seq<int>
    var initialised: bool
    var eventloopInterrupted: bool
    var closing: bool
    var writing: bool
    var next: EventInfo?
    var prev: EventInfo?

    /** What eventLoop starts with, on its stack. */
    constructor ()
      ensures !initialised
    {
      initialised := false;
    }
  }

  /** The first of the fds that is `fd`, or the number of them when none is. */
  function First(fds: seq<int>, fd: int): (k: nat)
    ensures k <= |fds| && (k < |fds| ==> fds[k] == fd) && forall i | 0 <= i < k :: fds[i] != fd
  {
    if fds == [] || fds[0] == fd then 0 else 1 + First(fds[1..], fd)
  }

  lemma {:induction false} FirstUnique(fds: seq<int>, fd: int, k: nat)
    requires k <= |fds| && (k < |fds| ==> fds[k] == fd) && forall i | 0 <= i < k :: fds[i] != fd
    ensures First(fds, fd) == k
  {
    if fds != [] && k > 0 {
      assert fds[0] != fd;
      FirstUnique(fds[1..], fd, k - 1);
    }
  }

  /** The calls that count: a record linked by its first initialisation, a record finalized. */
  datatype Call = Linked(who: EventInfo) | Unlinked(who: EventInfo)

  function Without(s: seq<EventInfo>, w: EventInfo): seq<EventInfo> {
    if s == [] then [] else (if s[0] == w then [] else [s[0]]) + Without(s[1..], w)
  }

  /** The list after the calls, one at a time: append at the tail, take out wherever it stands. */
  function Standing(calls: seq<Call>): seq<EventInfo> {
    if calls == [] then [] else
    var before := Standing(calls[..|calls| - 1]);
    match calls[|calls| - 1]
    case Linked(w) => before + [w]
    case Unlinked(w) => Without(before, w)
  }

  /** The records linked, in order, leaving out those in `gone`. */
  function LinkedBut(calls: seq<Call>, gone: set<EventInfo>): seq<EventInfo> {
    if calls == [] then [] else
    var before := LinkedBut(calls[..|calls| - 1], gone);
    var last := calls[|calls| - 1];
    if last.Linked? && last.who !in gone then before + [last.who] else before
  }

  function Unlinks(calls: seq<Call>): set<EventInfo> {
    set c | c in calls && c.Unlinked? :: c.who
  }

  /** Each record is linked at most once, and unlinked only after that. */
  ghost predicate OnceEach(calls: seq<Call>) {
    && (forall i, j | 0 <= i < j < |calls| && calls[i].Linked? && calls[j].Linked? :: calls[i].who != calls[j].who)
    && (forall i, j | 0 <= i < j < |calls| && calls[i].Unlinked? && calls[j].Linked? :: calls[i].who != calls[j].who)
  }

  lemma {:induction false} WithoutAppend(s: seq<EventInfo>, t: seq<EventInfo>, w: EventInfo)
    ensures Without(s + t, w) == Without(s, w) + Without(t, w)
  {
    if s == [] {
      assert s + t == t;
    } else {
      assert (s + t)[1..] == s[1..] + t;
      WithoutAppend(s[1..], t, w);
    }
  }

  lemma {:induction false} WithoutLinked(calls: seq<Call>, gone: set<EventInfo>, w: EventInfo)
    ensures Without(LinkedBut(calls, gone), w) == LinkedBut(calls, gone + {w})
    decreases |calls|
  {
    if calls != [] {
      var init, last := calls[..|calls| - 1], calls[|calls| - 1];
      WithoutLinked(init, gone, w);
      if last.Linked? && last.who !in gone {
        WithoutAppend(LinkedBut(init, gone), [last.who], w);
        assert [last.who][1..] == [];
      }
    }
  }

  lemma {:induction false} WithoutOne(s: seq<EventInfo>, k: nat)
    requires k < |s| && forall i, j | 0 <= i < j < |s| :: s[i] != s[j]
    ensures Without(s, s[k]) == s[..k] + s[k + 1..]
  {
    var rest := s[1..];
    if k == 0 {
      WithoutNone(rest, s[0]);
      assert s[..0] + s[1..] == rest;
      assert Without(s, s[0]) == [] + Without(rest, s[0]);
    } else {
      assert rest[k - 1] == s[k] && s[0] != s[k];
      WithoutOne(rest, k - 1);
      assert Without(s, s[k]) == [s[0]] + Without(rest, s[k]);
      WithoutAt(s, k);
    }
  }

  lemma WithoutAt(s: seq<EventInfo>, k: nat)
    requires 0 < k < |s|
    ensures [s[0]] + (s[1..][..k - 1] + s[1..][k..]) == s[..k] + s[k + 1..]
  {
  }

  lemma {:induction false} WithoutNone(s: seq<EventInfo>, w: EventInfo)
    requires w !in s
    ensures Without(s, w) == s
  {
    if s != [] {
      WithoutNone(s[1..], w);
    }
  }

  lemma {:induction false} WithoutIn(s: seq<EventInfo>, w: EventInfo, x: EventInfo)
    requires x in Without(s, w)
    ensures x in s && x != w
  {
    if s[0] == w || x != s[0] {
      WithoutIn(s[1..], w, x);
    }
  }

  lemma {:induction false} StandingLinked(calls: seq<Call>, w: EventInfo)
    requires w in Standing(calls)
    ensures Linked(w) in calls
    decreases |calls|
  {
    var init, last := calls[..|calls| - 1], calls[|calls| - 1];
    if last != Linked(w) {
      if last.Unlinked? {
        WithoutIn(Standing(init), last.who, w);
      }
      StandingLinked(init, w);
    }
  }

  lemma LinkedNext(calls: seq<Call>, w: EventInfo)
    requires OnceEach(calls) && forall c | c in calls :: c.who != w
    ensures OnceEach(calls + [Linked(w)]) && Standing(calls + [Linked(w)]) == Standing(calls) + [w]
  {
    assert (calls + [Linked(w)])[..|calls|] == calls;
  }

  lemma UnlinkedNext(calls: seq<Call>, w: EventInfo)
    requires OnceEach(calls) && w in Standing(calls)
    ensures OnceEach(calls + [Unlinked(w)]) && Standing(calls + [Unlinked(w)]) == Without(Standing(calls), w)
    ensures Linked(w) in calls
  {
    StandingLinked(calls, w);
    assert (calls + [Unlinked(w)])[..|calls|] == calls;
  }

  /** Whatever the calls were, the list holds the records in the order of their first
      initialisation, less those finalized. */
  lemma {:induction false} StandingExactly(calls: seq<Call>)
    requires OnceEach(calls)
    ensures Standing(calls) == LinkedBut(calls, Unlinks(calls))
    decreases |calls|
  {
    if calls != [] {
      var init, last := calls[..|calls| - 1], calls[|calls| - 1];
      StandingExactly(init);
      assert calls == init + [last];
      if last.Linked? {
        assert Unlinks(calls) == Unlinks(init);
        assert last.who !in Unlinks(calls);
      } else {
        assert Unlinks(calls) == Unlinks(init) + {last.who};
        WithoutLinked(init, Unlinks(init), last.who);
      }
    }
  }

  function Nth(nodes: seq<EventInfo>, i: int): EventInfo? {
    if 0 <= i < |nodes| then nodes[i] else null
  }

  /** A node of the list with the `k`-th taken out, and its neighbours, in the list before. */
  lemma CutNth(was: seq<EventInfo>, k: nat, i: nat)
    requires k < |was| && i < |was| - 1
    ensures var cut := was[..k] + was[k + 1..];
      && cut[i] == was[if i < k then i else i + 1]
      && Nth(cut, i + 1) == Nth(was, if i + 1 < k then i + 1 else i + 2)
      && Nth(cut, i - 1) == Nth(was, if i - 1 < k then i - 1 else i)
  {
  }

  class Registry {
    var masterIndex: EventInfo?
    ghost var nodes: seq<EventInfo>
    ghost var calls: seq<Call>

    constructor ()
      ensures Valid() && calls == []
    {
      masterIndex, nodes, calls := null, [], [];
    }

    ghost predicate Distinct()
      reads `nodes
    {
      forall i, j | 0 <= i < j < |nodes| :: nodes[i] != nodes[j]
    }

    /** The pointers run through the nodes in order, both ways, and end at both ends. */
    ghost predicate Linked()
      reads `masterIndex, `nodes, nodes`next, nodes`prev
    {
      masterIndex == Nth(nodes, 0) && forall i | 0 <= i < |nodes| :: LinkedAt(i)
    }

    ghost predicate LinkedAt(i: nat)
      requires i < |nodes|
      reads `masterIndex, `nodes, nodes`next, nodes`prev
    {
      nodes[i].next == Nth(nodes, i + 1) && nodes[i].prev == Nth(nodes, i - 1)
    }

    /** The nodes are what the calls so far leave standing, and every record they name knows it was linked. */
    ghost predicate Recorded()
      reads `nodes, `calls, (set c | c in calls :: c.who)`initialised
    {
      nodes == Standing(calls) && OnceEach(calls) && forall c | c in calls :: c.who.initialised
    }

    ghost predicate Valid()
      reads this, nodes, set c | c in calls :: c.who
    {
      Distinct() && Linked() && Recorded() && Prepared()
    }

    ghost predicate Prepared()
      reads `nodes, nodes`initialised, nodes`eventflags
    {
      forall i | 0 <= i < |nodes| :: nodes[i].initialised && |nodes[i].eventflags| == 11
    }

    ghost function Fds(): (fds: seq<int>)
      reads this, nodes
      ensures |fds| == |nodes| && forall i | 0 <= i < |fds| :: fds[i] == nodes[i].fd
    {
      seq(|nodes|, i reads this, nodes requires 0 <= i < |nodes| => nodes[i].fd)
    }

    /** The linking of initialise_event_info_struct: walk to the last record and hang the new one there. */
    method Append(eis: EventInfo)
      requires Distinct() && Linked() && eis !in nodes
      modifies `masterIndex, `nodes, nodes`next, eis`next, eis`prev
      ensures Distinct() && Linked()
      ensures nodes == old(nodes) + [eis]
    {
      var index := masterIndex;
      if index != null {
        ghost var k := 0;
        assert index == nodes[0];
        while index.next != null
          invariant k < |nodes| && index == nodes[k]
          decreases |nodes| - k
        {
          assert LinkedAt(k);
          index := index.next;
          k := k + 1;
        }
        assert LinkedAt(k);
        index.next := eis;
        eis.prev := index;
        eis.next := null;
      } else {
        masterIndex := eis;
        masterIndex.next := null;
        masterIndex.prev := null;
      }
      ghost var was := nodes;
      nodes := nodes + [eis];
      forall i | 0 <= i < |nodes| ensures LinkedAt(i) {
        assert i < |was| ==> old(LinkedAt(i));
      }
    }

    /** The unlinking of finalize_event_info_struct. */
    method Unlink(eis: EventInfo, ghost k: nat)
      requires Distinct() && Linked()
      requires k < |nodes| && nodes[k] == eis
      modifies `masterIndex, `nodes, nodes`next, nodes`prev
      ensures Distinct() && Linked()
      ensures nodes == old(nodes[..k] + nodes[k + 1..])
    {
      ghost var was := nodes;
      assert LinkedAt(k);
      if eis.next != null && eis.prev != null {
        eis.prev.next := eis.next;
        eis.next.prev := eis.prev;
      } else if eis.next != null {
        eis.next.prev := null;
        masterIndex := eis.next;
      } else if eis.prev != null {
        eis.prev.next := null;
      } else {
        masterIndex := null;
      }
      nodes := nodes[..k] + nodes[k + 1..];
      forall i | 0 <= i < |nodes| ensures LinkedAt(i) {
        CutNth(was, k, i);
        assert old(LinkedAt(if i < k then i else i + 1));
      }
    }

    /** Unlink, wherever the record stands, among records ready for use. */
    method TakeOut(eis: EventInfo)
      requires Distinct() && Linked() && Prepared() && eis in nodes
      modifies `masterIndex, `nodes, nodes`next, nodes`prev
      ensures Distinct() && Linked() && Prepared()
      ensures nodes == Without(old(nodes), eis)
    {
      ghost var k :| 0 <= k < |nodes| && nodes[k] == eis;
      ghost var before := nodes;
      WithoutOne(nodes, k);
      Unlink(eis, k);
      forall i | 0 <= i < |nodes| ensures nodes[i].initialised && |nodes[i].eventflags| == 11 {
        assert nodes[i] == before[if i < k then i else i + 1];
      }
    }

    /** The first initialisation of a record: linked at the tail, its fields set. */
    method LinkNew(eis: EventInfo, fd: int)
      requires Distinct() && Linked() && eis !in nodes
      modifies `masterIndex, `nodes, nodes`next, eis`next, eis`prev
      modifies eis`eventflags, eis`writing, eis`eventloopInterrupted, eis`closing, eis`fd
      ensures Distinct() && Linked() && nodes == old(nodes) + [eis]
      ensures eis.fd == fd && eis.eventflags == seq(11, _ => 0)
      ensures !eis.writing && !eis.eventloopInterrupted && !eis.closing
    {
      Append(eis);
      eis.eventflags := seq(11, _ => 0);
      eis.writing := false;
      eis.eventloopInterrupted := false;
      eis.closing := false;
      eis.fd := fd;
    }

    /** initialise_event_info_struct, called again on every round of the event loop: links the record
        at the tail the first time, and takes it out again when sendEvent cannot be found. */
    method Initialise(eis: EventInfo, fd: int, sendEventFound: bool) returns (ok: bool)
      requires Valid()
      modifies this, nodes`next, nodes`prev, eis
      ensures Valid()
      ensures ok <==> old(eis.initialised) || sendEventFound
      ensures nodes == if !old(eis.initialised) && ok then old(nodes) + [eis] else old(nodes)
      ensures calls == if !old(eis.initialised) && ok then old(calls) + [Call.Linked(eis)] else old(calls)
      ensures old(eis.initialised) ==>
                && eis.fd == old(eis.fd) && eis.eventflags == old(eis.eventflags) && eis.writing == old(eis.writing)
                && eis.closing == old(eis.closing) && eis.eventloopInterrupted == old(eis.eventloopInterrupted)
      ensures !old(eis.initialised) ==>
                && eis.fd == fd && eis.eventflags == seq(11, _ => 0)
                && !eis.writing && !eis.closing && !eis.eventloopInterrupted
      ensures eis.initialised == ok
    {
      if eis.initialised {
        return true;
      }
      LinkNew(eis, fd);
      if !sendEventFound {
        UnlinkLast(eis, old(nodes));
        return false;
      }
      eis.initialised := true;
      LinkedNext(calls, eis);
      calls := calls + [Call.Linked(eis)];
      return true;
    }

    /** Unlink for the record just linked. */
    method UnlinkLast(eis: EventInfo, ghost before: seq<EventInfo>)
      requires Distinct() && Linked() && nodes == before + [eis]
      modifies `masterIndex, `nodes, nodes`next, nodes`prev
      ensures Distinct() && Linked() && nodes == before
    {
      Unlink(eis, |nodes| - 1);
      assert nodes == before;
    }

    /** finalize_event_info_struct, by the event loop the record belongs to. */
    method Finalize(eis: EventInfo)
      requires Valid() && eis in nodes
      modifies this, nodes`next, nodes`prev
      ensures Valid()
      ensures nodes == Without(old(nodes), eis) && calls == old(calls) + [Unlinked(eis)]
    {
      UnlinkedNext(calls, eis);
      TakeOut(eis);
      calls := calls + [Unlinked(eis)];
    }

    /** The walk nativeSetEventFlag, interruptEventLoop and the writers share: it stops at the first
        record with the fd, or at the last record. */
    method WalkTo(fd: int) returns (index: EventInfo)
      requires Valid() && masterIndex != null
      ensures var k := First(Fds(), fd);
        |nodes| > 0 && index == nodes[if k < |nodes| then k else |nodes| - 1] && (index.fd == fd <==> k < |nodes|)
    {
      index := masterIndex;
      ghost var k := 0;
      while index.fd != fd && index.next != null
        invariant k < |nodes| && index == nodes[k]
        invariant forall i | 0 <= i < k :: nodes[i].fd != fd
        decreases |nodes| - k
      {
        assert LinkedAt(k);
        index := index.next;
        k := k + 1;
      }
      assert LinkedAt(k);
      FirstUnique(Fds(), fd, if index.fd == fd then k else |nodes|);
    }

    method NativeSetEventFlag(fd: int, event: nat, flag: bool)
      requires Valid() && event < 11
      modifies nodes`eventflags
      ensures Valid()
      ensures var k := First(old(Fds()), fd);
        forall i | 0 <= i < |nodes| ::
          nodes[i].eventflags == if i == k then old(nodes[i].eventflags)[event := if flag then 1 else 0]
                                 else old(nodes[i].eventflags)
    {
      var index := Search(fd);
      if index == null {
        return;
      }
      index.eventflags := index.eventflags[event := if flag then 1 else 0];
    }

    /** One pass of interruptEventLoop over the list; while `searching` it sleeps and makes another. */
    method InterruptEventLoop(fd: int) returns (searching: bool)
      requires Valid()
      modifies nodes`eventloopInterrupted, nodes`closing
      ensures Valid()
      ensures searching <==> First(old(Fds()), fd) == |nodes|
      ensures var k := First(old(Fds()), fd);
        forall i | 0 <= i < |nodes| ::
          && (nodes[i].closing <==> i == k || old(nodes[i].closing))
          && (nodes[i].eventloopInterrupted <==> i == k || old(nodes[i].eventloopInterrupted))
    {
      var index := Search(fd);
      if index == null {
        return true;
      }
      index.eventloopInterrupted := true;
      index.closing := true;
      return false;
    }

    /** The first record with the fd, or null. */
    method Search(fd: int) returns (index: EventInfo?)
      requires Valid()
      ensures var k := First(Fds(), fd); index == if k < |nodes| then nodes[k] else null
    {
      if masterIndex == null {
        return null;
      }
      index := WalkTo(fd);
      if index.fd != fd {
        index := null;
      }
    }

    /** What a writer does with the list: without a record of its port it marks the last one, and
        with no record at all it goes through a null pointer. */
    method MarkWriting(fd: int) returns (faults: bool)
      requires Valid()
      modifies nodes`writing
      ensures Valid()
      ensures faults <==> nodes == []
      ensures var k := First(old(Fds()), fd);
        forall i | 0 <= i < |nodes| ::
          nodes[i].writing <==> old(nodes[i].writing) || i == (if k < |nodes| then k else |nodes| - 1)
    {
      if masterIndex == null {
        return true;
      }
      var index := WalkTo(fd);
      index.writing := true;
      return false;
    }
  }
}
