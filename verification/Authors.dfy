/** Which block authors let their slots pass between a block and its parent. */
module Authors {
  import opened Prelude

  type Author = nat

  /** What the node answers: the drawn number of a slot, the authority keys, and the owner of a key. */
  datatype Babe = Babe(draw: Option<nat -> nat>, authorities: seq<nat>, owner: nat -> Option<Author>)

  /** Slots were skipped; the subtraction saturates at zero. */
  predicate Skips(current: nat, parent: nat) { (if current > 0 then current - 1 else 0) > parent }

  /** The owner of the authority whose turn the slot was; nobody without randomness. */
  function TurnOf(babe: Babe, slot: nat): Option<Author>
    requires babe.draw.Some? ==> babe.authorities != []
  {
    if babe.draw.None? then None else babe.owner(babe.authorities[babe.draw.value(slot) % |babe.authorities|])
  }

  /** The slots from `slot` down to the one after `parent`. */
  function Missing(babe: Babe, slot: nat, parent: nat): seq<Author>
    requires babe.draw.Some? ==> babe.authorities != []
    decreases slot
  {
    if slot <= parent then []
    else
      match TurnOf(babe, slot)
      case Some(a) => [a] + Missing(babe, slot - 1, parent)
      case None => Missing(babe, slot - 1, parent)
  }

  /** An empty authority set would stop the program in the remainder, but only once a slot was skipped. */
  method AuthorsMissingTheirSlots(current: Option<nat>, parent: Option<nat>, babe: Babe) returns (authors: seq<Author>)
    requires current.Some? && parent.Some? && current.value > parent.value + 1 && babe.draw.Some? ==>
        babe.authorities != []
    ensures current.None? || parent.None? || current.value <= parent.value + 1 ==> authors == []
    ensures current.Some? && parent.Some? && current.value > parent.value + 1 ==>
              authors == Missing(babe, current.value - 1, parent.value)
  {
    authors := [];
    if current.None? || parent.None? || !Skips(current.value, parent.value) {
      return;
    }
    var missed := current.value - 1;
    while missed > parent.value
      invariant parent.value <= missed
      invariant authors + Missing(babe, missed, parent.value) == Missing(babe, current.value - 1, parent.value)
    {
      if babe.draw.Some? {
        var key := babe.authorities[babe.draw.value(missed) % |babe.authorities|];
        var owner := babe.owner(key);
        if owner.Some? {
          authors := authors + [owner.value];
        }
      }
      missed := missed - 1;
    }
  }

  /** The authors named are exactly the known owners of the turns strictly between the two slots. */
  lemma {:induction false} MissingExactly(babe: Babe, slot: nat, parent: nat, a: Author)
    requires babe.draw.Some? ==> babe.authorities != []
    ensures a in Missing(babe, slot, parent) <==> exists k: nat :: parent < k <= slot && Owns(babe, a, k)
    decreases slot
  {
    if slot > parent {
      MissingExactly(babe, slot - 1, parent, a);
      if Owns(babe, a, slot) {
        assert a in Missing(babe, slot, parent);
      }
    }
  }

  /** The author owns the key whose turn the slot was, by the number drawn for it. */
  predicate Owns(babe: Babe, a: Author, slot: nat) {
    && babe.draw.Some? && babe.authorities != []
    && exists i :: 0 <= i < |babe.authorities| && i == babe.draw.value(slot) % |babe.authorities| &&
                   babe.owner(babe.authorities[i]) == Some(a)
  }

  /** The newest slot comes first. */
  lemma {:induction false} MissingInOrder(babe: Babe, slot: nat, middle: nat, parent: nat)
    requires babe.draw.Some? ==> babe.authorities != []
    requires parent <= middle <= slot
    ensures Missing(babe, slot, parent) == Missing(babe, slot, middle) + Missing(babe, middle, parent)
    decreases slot
  {
    if slot > middle {
      MissingInOrder(babe, slot - 1, middle, parent);
    }
  }

  /** Each skipped slot names at most one author, and exactly one when every turn has a known owner. */
  lemma {:induction false} OnePerSlot(babe: Babe, slot: nat, parent: nat)
    requires babe.draw.Some? ==> babe.authorities != []
    requires parent <= slot
    ensures |Missing(babe, slot, parent)| <= slot - parent
    ensures |Missing(babe, slot, parent)| == slot - parent <==> forall k: nat :: parent < k <= slot ==>
        TurnOf(babe, k).Some?
    decreases slot
  {
    if slot > parent {
      OnePerSlot(babe, slot - 1, parent);
    }
  }
}
