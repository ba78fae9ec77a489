/**
 * The receiver of events: the event service keeps the id of every event it has processed and ignores
 * an event whose id it knows. A known id is never forgotten here.
 */
module Receiver {
  import opened Outbox

  datatype Item = Item(task: string, event: Event)

  /** What a delivery comes to. */
  datatype Fate = AppliedAcked | AppliedAckLost | NotApplied

  predicate Knows(applied: seq<Item>, id: string) {
    exists i :: 0 <= i < |applied| && applied[i].event.id == id
  }

  /** The effects on the receiver, oldest first. */
  function Receive(applied: seq<Item>, m: Item): seq<Item> {
    if Knows(applied, m.event.id) then applied else applied + [m]
  }

  /** What the receiver has applied after a delivery with this fate. */
  function Arrive(applied: seq<Item>, m: Item, fate: Fate): seq<Item> {
    if fate == NotApplied then applied else Receive(applied, m)
  }

  ghost predicate DistinctIds(items: seq<Item>) {
    forall i, j :: 0 <= i < j < |items| ==> items[i].event.id != items[j].event.id
  }

  ghost predicate Includes(all: seq<Item>, some: seq<Item>) {
    forall m :: m in some ==> m in all
  }

  /** No id is applied twice, nothing is applied that was not accepted, and what arrives is applied. */
  lemma ReceiveAppliesOnce(accepted: seq<Item>, applied: seq<Item>, m: Item)
    requires DistinctIds(accepted) && DistinctIds(applied) && Includes(accepted, applied) && m in accepted
    ensures var after := Receive(applied, m);
            DistinctIds(after) && Includes(accepted, after) && Includes(after, applied) && m in after
  {
    if Knows(applied, m.event.id) {
      var i :| 0 <= i < |applied| && applied[i].event.id == m.event.id;
      SameIdSameItem(accepted, applied[i], m);
    } else {
      assert (applied + [m])[|applied|] == m;
    }
  }

  lemma SameIdSameItem(items: seq<Item>, a: Item, b: Item)
    requires DistinctIds(items) && a in items && b in items && a.event.id == b.event.id
    ensures a == b
  {
    var i :| 0 <= i < |items| && items[i] == a;
    var j :| 0 <= j < |items| && items[j] == b;
    assert i == j;
  }

  lemma DistinctExtend(items: seq<Item>, m: Item)
    requires DistinctIds(items) && !Knows(items, m.event.id)
    ensures DistinctIds(items + [m])
  {
  }
}
