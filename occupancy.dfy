/**
 * The time-slot occupancy tests of the strategic router. A node or an edge
 * of the street graph carries the slots already reserved on it; a new
 * reservation `(t0, t1)` is refused when it meets one of them. The router
 * (`routingTactical.nodeIsFree`/`edgeIsFree`) uses five overlap tests; the
 * earlier prototype script refuses only an exact repeat.
 */
module Occupancy {
  import opened Wrappers

  /** A reserved (or requested) slot `(start, end)` in seconds. */
  type Slot = (int, int)

  /** A node of the street graph, by its OSM id. */
  type Node = int

  /**
   * The occupation field of a node or an edge once `eval`-ed: `Unset` for the
   * texts '[None]' and '', else the listed slots; on edges an entry may be
   * `None`, which the edge test skips.
   */
  datatype Occupation<T> = Unset | Listed(slots: seq<T>)

  /** The five tests of `nodeIsFree`/`edgeIsFree` under which a reserved slot refuses the request. */
  predicate Meets(slot: Slot, req: Slot)
  {
    || slot == req
    || slot.0 <= req.0 < slot.1
    || slot.0 < req.1 <= slot.1
    || req.0 <= slot.0 < req.1
    || req.0 < slot.1 <= req.1
  }

  /**
   * For proper half-open slots, the five tests together are exactly the
   * overlap of [a, b) and [c, d): a < d and c < b.
   */
  lemma MeetsIsOverlap(slot: Slot, req: Slot)
    requires slot.0 < slot.1 && req.0 < req.1
    ensures Meets(slot, req) <==> slot.0 < req.1 && req.0 < slot.1
  {
  }

  /** A slot that ends when the other starts does not meet it: back-to-back reservations are allowed. */
  lemma BackToBackFree(a: int, b: int, c: int)
    requires a < b < c
    ensures !Meets((a, b), (b, c)) && !Meets((b, c), (a, b))
  {
  }

  /** The `for … else` of `nodeIsFree`: true unless some listed slot meets the request. */
  function SlotsFree(slots: seq<Slot>, req: Slot): (free: bool)
    ensures free <==> forall k :: 0 <= k < |slots| ==> !Meets(slots[k], req)
  {
    if slots == [] then true
    else if Meets(slots[0], req) then false
    else SlotsFree(slots[1..], req)
  }

  /** `nodeIsFree(node, (t0, t1))` on the node's occupation field. */
  function NodeIsFree(occ: Occupation<Slot>, req: Slot): bool
  {
    match occ
    case Unset => true
    case Listed(slots) => SlotsFree(slots, req)
  }

  /** The edge version of the scan: `None` entries are skipped. */
  function SomeSlotsFree(slots: seq<Option<Slot>>, req: Slot): (free: bool)
    ensures free <==> forall k :: 0 <= k < |slots| && slots[k].Some? ==> !Meets(slots[k].value, req)
  {
    if slots == [] then true
    else if slots[0].Some? && Meets(slots[0].value, req) then false
    else SomeSlotsFree(slots[1..], req)
  }

  /** `edgeIsFree(a, b, (t0, t1))`: a "street" from a node to itself is always free. */
  function EdgeIsFree(a: Node, b: Node, occ: Occupation<Option<Slot>>, req: Slot): bool
  {
    if a == b then true
    else match occ
      case Unset => true
      case Listed(slots) => SomeSlotsFree(slots, req)
  }

  /**
   * A node is free exactly when its field is unset or no reserved slot meets
   * the request; for proper slots that is: no reserved slot overlaps it.
   */
  lemma NodeIsFreeCases(occ: Occupation<Slot>, req: Slot)
    ensures NodeIsFree(occ, req) <==> occ.Unset? || forall k :: 0 <= k < |occ.slots| ==> !Meets(occ.slots[k], req)
    ensures req.0 < req.1 && occ.Listed? && (forall k :: 0 <= k < |occ.slots| ==> occ.slots[k].0 < occ.slots[k].1) ==>
              (NodeIsFree(occ, req) <==> forall k :: 0 <= k < |occ.slots| ==> occ.slots[k].1 <= req.0 || req.1 <= occ.slots[k].0)
  {
  }

  /** An edge is free exactly when its ends coincide, its field is unset, or no listed slot meets the request. */
  lemma EdgeIsFreeCases(a: Node, b: Node, occ: Occupation<Option<Slot>>, req: Slot)
    ensures EdgeIsFree(a, b, occ, req) <==>
              a == b || occ.Unset? || forall k :: 0 <= k < |occ.slots| && occ.slots[k].Some? ==> !Meets(occ.slots[k].value, req)
  {
  }

  /** Appending a reservation to a field, as the router writes it back (`str([v])` or `append`). */
  function Reserve<T>(occ: Occupation<T>, v: T): (r: Occupation<T>)
    ensures r.Listed? && |r.slots| > 0 && r.slots[|r.slots| - 1] == v
    ensures occ.Listed? ==> r.slots[..|r.slots| - 1] == occ.slots
    ensures occ.Unset? ==> r.slots == [v]
  {
    match occ
    case Unset => Listed([v])
    case Listed(slots) => Listed(slots + [v])
  }

  /** Once a slot is reserved on a node, the same request is refused there (an exact repeat always meets). */
  lemma ReservedNotFree(occ: Occupation<Slot>, v: Slot)
    ensures !NodeIsFree(Reserve(occ, v), v)
  {
    var r := Reserve(occ, v);
    assert Meets(r.slots[|r.slots| - 1], v);
  }

  // The prototype script's versions: node fields list bare timestamps, edge fields slots.

  /** `nodeIsFree(node, t)` of the prototype: free when the field reads ['None'] or t is not listed. */
  function NodeIsFreeExact(occ: Occupation<int>, t: int): (free: bool)
    ensures free <==> occ.Unset? || t !in occ.slots
  {
    match occ
    case Unset => true
    case Listed(times) => t !in times
  }

  /** The prototype's edge scan: only an exact repeat of the slot refuses it. */
  function SlotsFreeExact(slots: seq<Slot>, req: Slot): (free: bool)
    ensures free <==> req !in slots
  {
    if slots == [] then true
    else if slots[0] == req then false
    else SlotsFreeExact(slots[1..], req)
  }

  /** `edgeIsFree(a, b, slot)` of the prototype. */
  function EdgeIsFreeExact(a: Node, b: Node, occ: Occupation<Slot>, req: Slot): (free: bool)
    ensures free <==> a == b || occ.Unset? || req !in occ.slots
  {
    if a == b then true
    else match occ
      case Unset => true
      case Listed(slots) => SlotsFreeExact(slots, req)
  }

  /** Every edge the router finds free the prototype finds free too, but not the other way round. */
  lemma {:induction false} RouterStricter(a: Node, b: Node, slots: seq<Slot>, req: Slot)
    ensures var opt := seq(|slots|, k requires 0 <= k < |slots| => Some(slots[k]));
            EdgeIsFree(a, b, Listed(opt), req) ==> EdgeIsFreeExact(a, b, Listed(slots), req)
  {
    var opt := seq(|slots|, k requires 0 <= k < |slots| => Some(slots[k]));
    if a != b && req in slots {
      var k :| 0 <= k < |slots| && slots[k] == req;
      assert opt[k].Some? && Meets(opt[k].value, req);
    }
  }

  /** The slot (0, 10) is free for the prototype on a field holding (5, 15), but the router refuses it. */
  lemma OverlapOnlyRouterRefuses()
    ensures EdgeIsFreeExact(1, 2, Listed([(5, 15)]), (0, 10))
    ensures !EdgeIsFree(1, 2, Listed([Some((5, 15))]), (0, 10))
  {
    assert Meets((5, 15), (0, 10));
  }
}
