/** The linked list of CommPortIdentifiers, its lookups, the enumerator over the
    live list, and one identifier's fields as open and internalClosePort set them. */
module PortRegistry {
  import opened Wrappers
  import PortOwnership

  class CommPort {
    const number: nat

    constructor (number: nat)
      ensures this.number == number
    {
      this.number := number;
    }
  }

  class CommPortIdentifier {
    const portName: string
    const portType: int
    var available: bool
    var owner: Option<string>
    var commport: CommPort?
    var next: CommPortIdentifier?
    /** The events passed to the ownership listeners. */
    var fired: seq<PortOwnership.Fired>

    constructor (pn: string, pt: int)
      ensures portName == pn && portType == pt && next == null && View() == PortOwnership.Unowned
    {
      portName, portType := pn, pt;
      available, owner, commport, next, fired := true, None, null, null, [];
    }

    /** The identifier as the ownership protocol sees it. */
    function View(): PortOwnership.Identifier
      reads this, commport
    {
      PortOwnership.Identifier(available, owner, if commport == null then None else Some(commport.number), fired)
    }

    /** open from the point where Available is tested for good. `made` is what the driver would return. */
    method Open(theOwner: string, made: CommPort?) returns (r: CommPort?)
      modifies this
      ensures r == if !old(available) then null else if old(commport) != null then old(commport) else made
      ensures View() == if r == null then old(View()) else PortOwnership.Granted(old(View()), theOwner, r.number)
      ensures next == old(next)
    {
      if !available {
        return null;
      }
      if commport == null {
        commport := made;
      }
      if commport != null {
        owner := Some(theOwner);
        available := false;
        fired := fired + [PortOwnership.PortOwned];
        return commport;
      }
      return null;
    }

    method InternalClosePort()
      modifies this
      ensures View() == PortOwnership.Vacated(old(View()))
      ensures next == old(next)
    {
      owner := None;
      available := true;
      commport := null;
      fired := fired + [PortOwnership.PortUnowned];
    }
  }

  function Nth(ids: seq<CommPortIdentifier>, i: nat): CommPortIdentifier? {
    if i < |ids| then ids[i] else null
  }

  /** CommPortIndex, the head of the list. */
  class Registry {
    var index: CommPortIdentifier?
    ghost var ids: seq<CommPortIdentifier>

    constructor ()
      ensures Valid() && ids == []
    {
      index, ids := null, [];
    }

    ghost predicate LinkedAt(i: nat)
      requires i < |ids|
      reads `ids, ids`next
    {
      ids[i].next == Nth(ids, i + 1)
    }

    ghost predicate Valid()
      reads this, ids`next
    {
      && (forall i, j | 0 <= i < j < |ids| :: ids[i] != ids[j])
      && index == Nth(ids, 0)
      && forall i | 0 <= i < |ids| :: LinkedAt(i)
    }

    method AddIdentifierToList(cpi: CommPortIdentifier)
      requires Valid() && cpi !in ids && cpi.next == null
      modifies this, ids`next
      ensures Valid() && ids == old(ids) + [cpi]
    {
      if index == null {
        index := cpi;
      } else {
        var i := index;
        ghost var k := 0;
        while i.next != null
          invariant k < |ids| && i == ids[k]
          decreases |ids| - k
        {
          assert LinkedAt(k);
          i := i.next;
          k := k + 1;
        }
        assert LinkedAt(k);
        i.next := cpi;
      }
      ids := ids + [cpi];
      forall i | 0 <= i < |ids| ensures LinkedAt(i) {
        assert i < |old(ids)| ==> old(LinkedAt(i));
      }
    }

    method AddPortName(s: string, portType: int)
      requires Valid()
      modifies this, ids`next
      ensures Valid() && |ids| == |old(ids)| + 1 && old(ids) <= ids
      ensures var cpi := ids[|old(ids)|];
        fresh(cpi) && cpi.portName == s && cpi.portType == portType && cpi.View() == PortOwnership.Unowned
    {
      var cpi := new CommPortIdentifier(s, portType);
      AddIdentifierToList(cpi);
    }

    /** The first identifier registered under the name; null stands for NoSuchPortException. */
    method GetPortIdentifierByName(s: string) returns (r: CommPortIdentifier?)
      requires Valid()
      ensures r == null ==> forall i | 0 <= i < |ids| :: ids[i].portName != s
      ensures r != null ==> exists k | 0 <= k < |ids| ::
                ids[k] == r && r.portName == s && forall i | 0 <= i < k :: ids[i].portName != s
    {
      r := index;
      ghost var k := 0;
      while r != null && r.portName != s
        invariant k <= |ids| && r == Nth(ids, k)
        invariant forall i | 0 <= i < k :: ids[i].portName != s
        decreases |ids| - k
      {
        assert LinkedAt(k);
        r := r.next;
        k := k + 1;
      }
    }

    /** The first identifier that has the port. */
    method GetPortIdentifierByPort(p: CommPort) returns (r: CommPortIdentifier?)
      requires Valid()
      ensures r == null ==> forall i | 0 <= i < |ids| :: ids[i].commport != p
      ensures r != null ==> exists k | 0 <= k < |ids| ::
                ids[k] == r && r.commport == p && forall i | 0 <= i < k :: ids[i].commport != p
    {
      r := index;
      ghost var k := 0;
      while r != null && r.commport != p
        invariant k <= |ids| && r == Nth(ids, k)
        invariant forall i | 0 <= i < k :: ids[i].commport != p
        decreases |ids| - k
      {
        assert LinkedAt(k);
        r := r.next;
        k := k + 1;
      }
    }

    /** CommPort.close: a port no identifier has is let go without a word. */
    method Close(p: CommPort)
      requires Valid()
      modifies ids
      ensures Valid() && ids == old(ids)
      ensures forall i | 0 <= i < |ids| ::
                ids[i].View() == if old(ids[i].commport) == p && (forall j | 0 <= j < i :: old(ids[j].commport) != p)
                                 then PortOwnership.Vacated(old(ids[i].View())) else old(ids[i].View())
    {
      var cp := GetPortIdentifierByPort(p);
      if cp != null {
        cp := GetPortIdentifierByPort(p);
        ghost var k :| 0 <= k < |ids| && ids[k] == cp && forall i | 0 <= i < k :: ids[i].commport != p;
        cp.InternalClosePort();
        forall i | 0 <= i < |ids| ensures LinkedAt(i) {
          assert old(LinkedAt(i));
        }
      }
    }
  }

  class CommPortEnumerator {
    const registry: Registry
    var index: CommPortIdentifier?
    /** What the enumeration has returned since it began, or began again. */
    ghost var yielded: seq<CommPortIdentifier>

    ghost predicate Valid()
      reads this, registry`ids
    {
      yielded <= registry.ids && index == if yielded == [] then null else yielded[|yielded| - 1]
    }

    constructor (registry: Registry)
      ensures Valid() && this.registry == registry && yielded == []
    {
      this.registry := registry;
      index, yielded := null, [];
    }

    /** The next identifier in registration order; past the last one null, and then from the first again. */
    method NextElement() returns (r: CommPortIdentifier?)
      requires Valid() && registry.Valid()
      modifies this
      ensures Valid()
      ensures r == Nth(registry.ids, |old(yielded)|)
      ensures yielded == if r == null then [] else old(yielded) + [r]
    {
      if index != null {
        assert registry.LinkedAt(|yielded| - 1);
        index := index.next;
      } else {
        index := registry.index;
      }
      r := index;
      yielded := if r == null then [] else yielded + [r];
    }

    /** False only when every identifier registered by now has been returned, once and in order. */
    method HasMoreElements() returns (more: bool)
      requires Valid() && registry.Valid()
      ensures more <==> |yielded| < |registry.ids|
      ensures !more ==> yielded == registry.ids
    {
      if index != null {
        assert registry.LinkedAt(|yielded| - 1);
        more := index.next != null;
      } else {
        more := registry.index != null;
      }
    }

    /** An identifier registered meanwhile leaves the enumeration where it was. */
    twostate lemma SurvivesRegistration()
      requires old(Valid()) && unchanged(this) && old(registry.ids) <= registry.ids
      ensures Valid()
    {
    }
  }
}
