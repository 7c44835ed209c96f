/**
  What a delivery does to a requester slot, case by case, and how the
  delivery, fulfilment and arbitration decisions fit together.
 */
module RequesterProofs {

  import opened Options
  import opened Requester

  /** Stock and input sizes are never negative. */
  predicate Natural(t: TileRequester, i: Slot, s: Stack)
  {
    s.stackSize >= 0 && Amount(t.inv[i]) >= 0
  }

  /** The input can be merged into slot `i`: it is of the requested kind, and
      the stock is empty or of the same kind. */
  predicate Mergeable(t: TileRequester, i: Slot, s: Stack)
  {
    && t.requests[i].Some? && IsMatchingItem(s, t.requests[i].value)
    && (t.inv[i].None? || IsMatchingItem(s, t.inv[i].value))
  }

  /**
    An empty stock slot stores `min(input, requested)` of the input's own
    kind, requested or not, and hands back the rest, if any.
   */
  lemma ProvideIntoEmptySlot(t: TileRequester, i: Slot, s: Stack)
    requires t.requests[i].Some? && t.inv[i].None?
    ensures var (t', left) := ProvideItemsForRequest(t, i, s);
      var req := t.requests[i].value.stackSize;
      && t'.inv[i] == Some(Stack(s.kind, if s.stackSize <= req then s.stackSize else req))
      && left == if s.stackSize <= req then None else Some(Stack(s.kind, s.stackSize - req))
  {
  }

  /** A stock of another kind than the input turns the whole input away and
      stays as it was. */
  lemma ProvideWrongKindRejected(t: TileRequester, i: Slot, s: Stack)
    requires t.inv[i].Some? && !IsMatchingItem(s, t.inv[i].value)
    ensures ProvideItemsForRequest(t, i, s) == (t, Some(s))
  {
  }

  /**
    Into a stock of the requested kind that does not exceed the request, the
    new stock is `min(existing + input, requested)` and the leftover is the
    excess, if any; the stock never goes over the requested size.
   */
  lemma ProvideMerges(t: TileRequester, i: Slot, s: Stack)
    requires Mergeable(t, i, s) && t.inv[i].Some?
    requires t.inv[i].value.stackSize <= t.requests[i].value.stackSize
    ensures var (t', left) := ProvideItemsForRequest(t, i, s);
      var req := t.requests[i].value.stackSize;
      var sum := t.inv[i].value.stackSize + s.stackSize;
      && t'.inv[i] == Some(Stack(s.kind, if sum <= req then sum else req))
      && left == (if sum <= req then None else Some(Stack(s.kind, sum - req)))
      && Amount(t'.inv[i]) <= req
  {
  }

  /**
    A stock larger than the request (the request was lowered after the
    delivery) is cut down to the requested size by the next delivery of
    that kind, and the excess goes out with the leftover.
   */
  lemma ProvideEjectsExcess(t: TileRequester, i: Slot, s: Stack)
    requires Mergeable(t, i, s) && t.inv[i].Some?
    requires t.inv[i].value.stackSize > t.requests[i].value.stackSize && s.stackSize >= 0
    ensures var (t', left) := ProvideItemsForRequest(t, i, s);
      var req := t.requests[i].value.stackSize;
      && t'.inv[i] == Some(Stack(s.kind, req))
      && left == Some(Stack(s.kind, s.stackSize + t.inv[i].value.stackSize - req))
  {
  }

  /** A stock not above the request stays within it after any delivery. */
  lemma ProvideBounded(t: TileRequester, i: Slot, s: Stack)
    requires t.requests[i].Some? && Amount(t.inv[i]) <= t.requests[i].value.stackSize
    ensures Amount(ProvideItemsForRequest(t, i, s).0.inv[i]) <= t.requests[i].value.stackSize
  {
    if t.inv[i].None? {
      ProvideIntoEmptySlot(t, i, s);
    } else if Mergeable(t, i, s) {
      ProvideMerges(t, i, s);
    }
  }

  /**
    A delivery of the requested kind either is taken whole or leaves the slot
    fulfilled: nothing is handed back while there is still room.
   */
  lemma ProvideFillsOrAbsorbs(t: TileRequester, i: Slot, s: Stack)
    requires Mergeable(t, i, s)
    ensures var (t', left) := ProvideItemsForRequest(t, i, s);
      left.None? || IsFulfilled(t', i)
  {
    if t.inv[i].None? {
      ProvideIntoEmptySlot(t, i, s);
    } else if t.inv[i].value.stackSize <= t.requests[i].value.stackSize {
      ProvideMerges(t, i, s);
    }
  }

  /**
    Handing the leftover straight back changes nothing: the slot keeps its
    stock and returns the same leftover.
   */
  lemma RedepositLeftover(t: TileRequester, i: Slot, s: Stack)
    requires Mergeable(t, i, s) && Amount(t.inv[i]) <= t.requests[i].value.stackSize
    ensures var (t', left) := ProvideItemsForRequest(t, i, s);
      left.Some? ==> ProvideItemsForRequest(t', i, left.value) == (t', left)
  {
    var (t', left) := ProvideItemsForRequest(t, i, s);
    if left.Some? {
      if t.inv[i].None? {
        ProvideIntoEmptySlot(t, i, s);
      } else {
        ProvideMerges(t, i, s);
      }
      assert Mergeable(t', i, left.value);
      ProvideMerges(t', i, left.value);
      assert t'.(inv := t'.inv[i := t'.inv[i]]) == t';
    }
  }

  /**
    Delivering `a` and then `b` items of the requested kind leaves the same
    stock as delivering `a + b` at once, and hands back as many items in all.
   */
  lemma SplitDelivery(t: TileRequester, i: Slot, a: Stack, b: Stack)
    requires Mergeable(t, i, a) && b.kind == a.kind
    requires Natural(t, i, a) && b.stackSize >= 0
    requires Amount(t.inv[i]) <= t.requests[i].value.stackSize
    ensures var (t1, l1) := ProvideItemsForRequest(t, i, a);
      var (t2, l2) := ProvideItemsForRequest(t1, i, b);
      var (u, l) := ProvideItemsForRequest(t, i, a.(stackSize := a.stackSize + b.stackSize));
      t2 == u && Amount(l1) + Amount(l2) == Amount(l)
  {
    var ab := a.(stackSize := a.stackSize + b.stackSize);
    var (t1, l1) := ProvideItemsForRequest(t, i, a);
    ProvideBounded(t, i, a);
    if t.inv[i].None? {
      ProvideIntoEmptySlot(t, i, a);
      ProvideIntoEmptySlot(t, i, ab);
    } else {
      ProvideMerges(t, i, a);
      ProvideMerges(t, i, ab);
    }
    assert Mergeable(t1, i, b);
    ProvideMerges(t1, i, b);
    var t2 := ProvideItemsForRequest(t1, i, b).0;
    var u := ProvideItemsForRequest(t, i, ab).0;
    assert t2.inv == u.inv;
  }

  /**
    A stock of another kind than the request blocks its slot: the slot is
    not fulfilled, and every delivery is turned away whole, so no delivery
    clears it. Only taking the stock out of the inventory or changing the
    request does.
   */
  lemma WrongStockBlocksSlot(t: TileRequester, i: Slot, s: Stack)
    requires t.requests[i].Some? && t.inv[i].Some?
    requires !IsMatchingItem(t.requests[i].value, t.inv[i].value)
    ensures !IsFulfilled(t, i)
    ensures ProvideItemsForRequest(t, i, s) == (t, Some(s))
  {
  }

  /**
    After a delivery that covers the shortfall of an open slot, the slot is
    fulfilled: no robot is offered it any more, and it cannot be claimed.
   */
  lemma DeliveryCloses(t: TileRequester, i: Slot, s: Stack, taken: set<ResourceId>, robot: RobotId, take: (ResourceId, RobotId) -> bool)
    requires Mergeable(t, i, s)
    requires Amount(t.inv[i]) + s.stackSize >= t.requests[i].value.stackSize
    ensures var t' := ProvideItemsForRequest(t, i, s).0;
      && IsFulfilled(t', i)
      && GetAvailableRequest(t', i, taken).None?
      && !TakeRequest(t', i, robot, take)
  {
    var (t', left) := ProvideItemsForRequest(t, i, s);
    ProvideFillsOrAbsorbs(t, i, s);
    if t.inv[i].None? {
      ProvideIntoEmptySlot(t, i, s);
    } else if t.inv[i].value.stackSize <= t.requests[i].value.stackSize {
      ProvideMerges(t, i, s);
    }
  }

  /** A request can only be claimed while it is on offer to an empty registry,
      and it is on offer exactly when it is open and unclaimed. */
  lemma TakeOnlyAvailable(t: TileRequester, i: Slot, robot: RobotId, take: (ResourceId, RobotId) -> bool, taken: set<ResourceId>)
    requires TakeRequest(t, i, robot, take)
    ensures GetAvailableRequest(t, i, {}).Some?
    ensures RequestId(t.id, i) !in taken ==> GetAvailableRequest(t, i, taken) == Some(StackRequest(i, t.requests[i].value, t.id))
  {
  }

  /**
    An item the slot declares valid is of the requested kind, so a delivery
    of it into an empty slot, or one of the same kind, below the request,
    adds to the stock.
   */
  lemma ValidItemIsTaken(t: TileRequester, i: Slot, s: Stack, inventoryAccepts: bool)
    requires IsItemValidForSlot(t, i, s, inventoryAccepts)
    requires t.inv[i].None? || IsMatchingItem(s, t.inv[i].value)
    requires Amount(t.inv[i]) < t.requests[i].value.stackSize && s.stackSize > 0
    ensures Amount(ProvideItemsForRequest(t, i, s).0.inv[i]) > Amount(t.inv[i])
  {
    if t.inv[i].None? {
      ProvideIntoEmptySlot(t, i, s);
    } else {
      ProvideMerges(t, i, s);
    }
  }

  /**
    Ten of kind 7 requested in slot 0 of an otherwise empty requester: six
    delivered leave the request open; four more fulfil it exactly.
   */
  lemma TenInTwoDeliveries()
    ensures var t := TileRequester(1, seq(NbItems, j => if j == 0 then Some(Stack(7, 10)) else None), seq(NbItems, _ => None));
      var (t1, l1) := ProvideItemsForRequest(t, 0, Stack(7, 6));
      var (t2, l2) := ProvideItemsForRequest(t1, 0, Stack(7, 4));
      && l1.None? && !IsFulfilled(t1, 0) && GetAvailableRequest(t1, 0, {}).Some?
      && l2.None? && IsFulfilled(t2, 0) && t2.inv[0] == Some(Stack(7, 10))
  {
    var t := TileRequester(1, seq(NbItems, j => if j == 0 then Some(Stack(7, 10)) else None), seq(NbItems, _ => None));
    ProvideIntoEmptySlot(t, 0, Stack(7, 6));
    var t1 := ProvideItemsForRequest(t, 0, Stack(7, 6)).0;
    ProvideMerges(t1, 0, Stack(7, 4));
  }

}
