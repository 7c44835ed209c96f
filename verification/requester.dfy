/**
  The requester block: twenty slots, each holding an optional requested
  stack and an optional delivered stock. Robots look for open requests,
  claim them in the robot registry and deliver items, which are merged into
  the stock up to the requested size; whatever does not fit is handed back.
 */
module Requester {

  import opened Options

  /** `NB_ITEMS`: the number of request slots (and of stock slots). */
  const NbItems: nat := 20

  type Slot = i: int | 0 <= i < NbItems

  /** An item stack by value: its kind (item, damage and tag, compared by
      `StackHelper.isMatchingItem`) and its size. */
  type ItemKind = int
  datatype Stack = Stack(kind: ItemKind, stackSize: int)

  /** One optional stack per slot; `None` is an empty slot. */
  type Slots = s: seq<Option<Stack>> | |s| == NbItems witness seq(NbItems, _ => None)

  type RequesterId = int
  type RobotId = int

  /** `ResourceIdRequest`: the registry key of slot `index` of a requester. */
  datatype ResourceId = RequestId(requester: RequesterId, index: Slot)

  /** `StackRequest`: what a robot is told to fetch. */
  datatype StackRequest = StackRequest(index: Slot, stack: Stack, requester: RequesterId)

  datatype TileRequester = TileRequester(id: RequesterId, requests: Slots, inv: Slots)

  predicate IsMatchingItem(a: Stack, b: Stack)
  {
    a.kind == b.kind
  }

  /** How many items a slot holds; an empty slot holds none. */
  function Amount(s: Option<Stack>): int
  {
    if s.Some? then s.value.stackSize else 0
  }

  /** The stock at `i` is of the requested kind and at least as large. */
  predicate Stocked(t: TileRequester, i: Slot)
    requires t.requests[i].Some?
  {
    t.inv[i].Some? && IsMatchingItem(t.requests[i].value, t.inv[i].value)
    && t.inv[i].value.stackSize >= t.requests[i].value.stackSize
  }

  /** A slot is open when it asks for something it does not yet hold. */
  predicate Open(t: TileRequester, i: Slot)
  {
    t.requests[i].Some? && !Stocked(t, i)
  }

  /**
    `isFulfilled`: a slot without a request is trivially fulfilled; one with
    a request is fulfilled exactly when its stock is of the requested kind
    and at least the requested size.
   */
  function IsFulfilled(t: TileRequester, i: Slot): (r: bool)
    ensures t.requests[i].None? ==> r
    ensures t.requests[i].Some? && t.inv[i].None? ==> !r
    ensures r <==> !Open(t, i)
  {
    if t.requests[i].None? then
      true
    else if t.inv[i].None? then
      false
    else
      IsMatchingItem(t.requests[i].value, t.inv[i].value)
      && t.inv[i].value.stackSize >= t.requests[i].value.stackSize
  }

  /**
    `getAvailableRequest`: the request at `i`, addressed to this requester,
    when there is one, it is not fulfilled and no robot has claimed it in the
    registry (`taken` is the registry's set of claimed ids).
   */
  function GetAvailableRequest(t: TileRequester, i: Slot, taken: set<ResourceId>): (r: Option<StackRequest>)
    ensures r.Some? <==> Open(t, i) && RequestId(t.id, i) !in taken
    ensures r.Some? ==> r.value == StackRequest(i, t.requests[i].value, t.id)
  {
    if t.requests[i].None? then
      None
    else if IsFulfilled(t, i) then
      None
    else if RequestId(t.id, i) in taken then
      None
    else
      Some(StackRequest(i, t.requests[i].value, t.id))
  }

  /**
    `takeRequest`: an open request is claimed through the registry's `take`,
    whose answer is returned as it is; for a slot that is not open the
    registry is not consulted and the answer is false.
   */
  function TakeRequest(t: TileRequester, i: Slot, robot: RobotId, take: (ResourceId, RobotId) -> bool): (r: bool)
    ensures r <==> Open(t, i) && take(RequestId(t.id, i), robot)
  {
    if t.requests[i].None? then
      false
    else if IsFulfilled(t, i) then
      false
    else
      take(RequestId(t.id, i), robot)
  }

  /** `t` with the stock at `i` replaced. */
  function WithStock(t: TileRequester, i: Slot, s: Option<Stack>): (r: TileRequester)
    ensures r.id == t.id && r.requests == t.requests && r.inv[i] == s
    ensures forall j: Slot :: j != i ==> r.inv[j] == t.inv[j]
  {
    t.(inv := t.inv[i := s])
  }

  /**
    `provideItemsForRequest`: deliver `stack` to slot `i`, returning the new
    requester and the leftover handed back (`None` when everything was
    taken). Five cases, in the order of the Java:
    - no request: everything is handed back;
    - an empty stock slot: up to the requested size is stored, whatever its kind;
    - a stock of another kind than the input: everything is handed back;
    - an input of the requested kind: merged into the stock up to the
      requested size (the Java's `existingStack == null` test there is
      always false and is left out);
    - otherwise: everything is handed back.
    Only slot `i`'s stock changes, and no item is created or lost.
   */
  function ProvideItemsForRequest(t: TileRequester, i: Slot, stack: Stack): (r: (TileRequester, Option<Stack>))
    ensures r.0.id == t.id && r.0.requests == t.requests
    ensures forall j: Slot :: j != i ==> r.0.inv[j] == t.inv[j]
    ensures Amount(r.0.inv[i]) + Amount(r.1) == Amount(t.inv[i]) + stack.stackSize
    ensures r.1.Some? ==> r.1.value.kind == stack.kind
    ensures t.inv[i].Some? ==> r.0.inv[i].Some? && r.0.inv[i].value.kind == t.inv[i].value.kind
    ensures t.requests[i].None? ==> r == (t, Some(stack))
  {
    var existing := t.inv[i];
    if t.requests[i].None? then
      (t, Some(stack))
    else if existing.None? then
      var maxQty := t.requests[i].value.stackSize;
      if stack.stackSize <= maxQty then
        (WithStock(t, i, Some(stack)), None)
      else
        (WithStock(t, i, Some(stack.(stackSize := maxQty))), Some(stack.(stackSize := stack.stackSize - maxQty)))
    else if !IsMatchingItem(stack, existing.value) then
      (t, Some(stack))
    else if IsMatchingItem(stack, t.requests[i].value) then
      var maxQty := t.requests[i].value.stackSize;
      if existing.value.stackSize + stack.stackSize <= maxQty then
        (WithStock(t, i, Some(existing.value.(stackSize := existing.value.stackSize + stack.stackSize))), None)
      else
        var left := stack.(stackSize := stack.stackSize - (maxQty - existing.value.stackSize));
        (WithStock(t, i, Some(existing.value.(stackSize := maxQty))), Some(left))
    else
      (t, Some(stack))
  }

  /**
    `isItemValidForSlot`: only an item of the requested kind may go into a
    slot with a request; the final word is the underlying inventory's, whose
    answer is `inventoryAccepts`.
   */
  function IsItemValidForSlot(t: TileRequester, i: Slot, s: Stack, inventoryAccepts: bool): (r: bool)
    ensures r <==> t.requests[i].Some? && IsMatchingItem(t.requests[i].value, s) && inventoryAccepts
  {
    if t.requests[i].None? then
      false
    else if !IsMatchingItem(t.requests[i].value, s) then
      false
    else
      inventoryAccepts
  }

}
