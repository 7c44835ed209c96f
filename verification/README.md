# BuildCraft pipe wire signals and the requester block, in Dafny

This project models two rule sets of BuildCraft (a Minecraft mod) and proves
properties of them.

**Pipe wire signals** (`Pipe.java`). A pipe segment can carry wires of four
colours. Each colour has an installed flag and a strength from 0 to 255.
- A gate on the pipe may broadcast a colour, which drives its strength to 255.
- Otherwise the pipe takes the best of its neighbours' strengths minus one.
  If no neighbour sustains a non-zero strength, the strength collapses to 0
  and the neighbours are scheduled to re-evaluate.
- When its strength is then above 1, the pipe offers that strength minus
  one to every fully defined, wire-connected neighbour carrying the colour.

Alongside these, the model covers the read-only queries: the single open
side, whether any wire is installed, and the redstone output.

**Requester** (`TileRequester.java`). The block has `NB_ITEMS` = 20 slots
(`Requester.NbItems`, TileRequester.java:30). Each slot holds an optional
requested stack and an optional delivered stock.
- Robots look for open requests and claim them in the robot registry.
- Robots deliver items, which are merged into the stock up to the requested
  size. The leftover goes back to the robot.

Modules:
- `Directions`: the six sides and four wire colours, in declaration order.
- `Options`: the optional value that stands for Java's `null`.
- `Pipe`: the propagation step, as pure functions.
- The world is split into a `Network` and a `Signals` map:
  - `Network` is what propagation only reads: the wires, gates, neighbour
    lookup and host predicates.
  - `Signals` is what propagation writes: strengths and the scheduled flag.
- Each Java loop is a recursive function over the same sequence, in the same
  order, threading the signal map through as the Java mutates it.
- `PipeSignalProofs`: what one update does, what it leaves alone, and the
  strength invariant.
- `PipeUpdateProofs`: the four-colour update and the scheduled step of
  `updateEntity`, reduced to the per-colour results.
- `PipeQueries`: the query methods, as loops with invariants.
- `PipeExamples`: the three-pipe line worked through.
- `Requester` and `RequesterProofs`: the slot decisions and the stock merge.

Host predicates are parameters of the model:
- `BlockGenericPipe.isFullyDefined` is a per-segment flag.
- `transport instanceof PipeTransportStructure` is a per-segment flag.
- `Utils.checkPipesConnections` is the relation `linked`.
- `container.getWorldObj() != null` is `hasWorld`, one flag shared by the
  whole network. The Java asks each receiving pipe for its own world
  (Pipe.java:371), including a neighbour during transmission
  (Pipe.java:362). One flag is enough because every neighbour is found
  through the tile lookup of the same world, so all the pipes of a network
  have a world or none does.
- The robot registry is the set of claimed ids (`isTaken`) plus a function
  parameter (`take`).
- `SimpleInventory.isItemValidForSlot` is a boolean parameter.
- `StackHelper.isMatchingItem` is equality of the stack kind.

Behaviour of the code worth knowing:
- **Collapse scheduling.** A collapse schedules every fully defined
  neighbouring pipe, whether or not it is wire-connected or carries the
  colour (Pipe.java:312-322).
- **Strength range.** No strength is ever clamped to a range. Strengths
  stay in [0, 255] only because of how they are produced, which
  `UpdateForColorConsistent` proves.
- **Colours do not interfere.** Each colour's update reads and writes only
  that colour's strengths, so the four-colour `updateSignalState`
  (Pipe.java:326-330) leaves each colour where that colour's own update
  would. `PipeUpdateProofs.UpdateSignalStatePerColour` proves it, and the
  scheduled step of `updateEntity` inherits the per-colour results.
- **Stock above the request.** The stock of a slot is not kept at or below
  the requested size. A request lowered after a delivery leaves a larger
  stock behind (TileRequester.java:46). The next delivery of that kind cuts
  it back, because `maxQty - existingStack.stackSize` is negative
  (TileRequester.java:217). See `RequesterProofs.ProvideEjectsExcess`.
- **Empty slot accepts any kind.** An empty stock slot takes any kind of
  item, requested or not (TileRequester.java:192-207). Such a stock then
  blocks the slot until it is taken out of the inventory
  (TileRequester.java:64, 74) or the request is changed to its kind
  (TileRequester.java:46). See `RequesterProofs.WrongStockBlocksSlot`.

## Model

| member | source | states |
|---|---|---|
| Pipe.ReceiveSignal | common/buildcraft/transport/Pipe.java:370-389 | the offer is taken exactly when there is a world, it is at least the current strength and it is non-zero; then the strength becomes the offer and an update is scheduled, otherwise nothing changes; no strength is ever lowered and other colours are untouched |
| PipeSignalProofs.ReceiveIdempotent | common/buildcraft/transport/Pipe.java:370-389 | taking the same offer twice is the same as taking it once |
| PipeSignalProofs.ReceiveAtConsistent | common/buildcraft/transport/Pipe.java:370-389 | receiving an offer of at most 255 on an installed colour keeps every strength in [0, 255] and non-zero only on installed colours |
| Pipe.IsWireConnectedTo | common/buildcraft/transport/Pipe.java:563-581 | false for a non-pipe, a pipe that is not fully defined or one without the colour; otherwise true exactly when either side has a structure transport or the connection check passes |
| PipeSignalProofs.WireConnectionSymmetric | common/buildcraft/transport/Pipe.java:563-581 | between two fully defined pipes that both carry the colour and whose connection check agrees both ways, wire connection is symmetric |
| Pipe.ReadLoop | common/buildcraft/transport/Pipe.java:290-305 | the neighbour scan changes no pipe but the one being updated; once an offer has been taken the flag stays set, and a scan that takes no offer changes nothing |
| PipeSignalProofs.ReadLoopSpec | common/buildcraft/transport/Pipe.java:290-305 | the scan reports a taken offer exactly when some neighbour offers at least the current non-zero strength with a world present; it then ends at the best offer made, otherwise nothing changes |
| PipeSignalProofs.ReadLoopConsistent | common/buildcraft/transport/Pipe.java:290-305 | the neighbour scan keeps the strength invariant |
| Pipe.ScheduleNeighbours | common/buildcraft/transport/Pipe.java:312-322 | scheduling the neighbours changes no strength of any pipe and adds or drops no pipe |
| PipeSignalProofs.ScheduleNeighboursSpec | common/buildcraft/transport/Pipe.java:312-322 | exactly the fully defined neighbouring pipes get their scheduled flag set; nothing else changes |
| PipeSignalProofs.ScheduleNeighboursConsistent | common/buildcraft/transport/Pipe.java:312-322 | scheduling changes no strength, so it keeps the strength invariant |
| PipeSignalProofs.ReadNearbyRaises | common/buildcraft/transport/Pipe.java:290-305 | when some neighbour sustains the strength, it rises to the best offer, never below the old value, and no other pipe changes |
| PipeSignalProofs.ReadNearbyCollapses | common/buildcraft/transport/Pipe.java:307-323 | when no neighbour sustains a non-zero strength, it becomes exactly 0 (not the best lower offer), other colours keep theirs, and exactly the fully defined neighbours are scheduled |
| PipeSignalProofs.ReadNearbyAlongCollapses | common/buildcraft/transport/Pipe.java:307-323 | the same collapse, for the scan over any sequence of sides |
| PipeSignalProofs.ReadNearbyQuiet | common/buildcraft/transport/Pipe.java:307 | with no offer taken and a zero strength, reading the neighbours changes nothing |
| PipeSignalProofs.ReadNearbyConsistent | common/buildcraft/transport/Pipe.java:290-324 | reading the neighbours keeps the strength invariant |
| Pipe.BroadcastLoop | common/buildcraft/transport/Pipe.java:339-345 | the gate loop changes no pipe but the one being updated, and it can only switch the neighbour read off, never back on |
| PipeSignalProofs.BroadcastLoopSpec | common/buildcraft/transport/Pipe.java:339-345 | the gate loop is one offer of 255 with the neighbour read switched off when some gate broadcasts the colour, and a no-op otherwise |
| Pipe.UpdateSignalStateForColor | common/buildcraft/transport/Pipe.java:332-368 | a colour that is not installed leaves the whole signal state unchanged, and no update changes the strength of another colour |
| PipeSignalProofs.BroadcastForcesMax | common/buildcraft/transport/Pipe.java:339-349 | with a broadcasting gate the update is one offer of 255 followed by transmission, the neighbour read (decay included) is skipped, and the strength ends at 255 |
| PipeSignalProofs.NoBroadcastReadsNeighbours | common/buildcraft/transport/Pipe.java:339-353 | without a broadcasting gate the update is the neighbour read followed by transmission |
| Pipe.TransmitLoop | common/buildcraft/transport/Pipe.java:354-366 | the transmit loop keeps the set of pipes, changes no pipe that is not next to the transmitting one, and changes no strength of another colour |
| Pipe.TransmitSignal | common/buildcraft/transport/Pipe.java:353-367 | at strength 1 or below nothing at all changes; otherwise only neighbouring pipes change, and only in this colour |
| PipeSignalProofs.TransmitLoopSpec | common/buildcraft/transport/Pipe.java:354-366 | every fully defined, wire-connected neighbour with the colour installed is offered strength minus one; every other pipe is unchanged |
| PipeSignalProofs.TransmitSpec | common/buildcraft/transport/Pipe.java:353-367 | transmission happens only above strength 1, and then reaches exactly the relay targets |
| PipeSignalProofs.RelayTargetIn | common/buildcraft/transport/Pipe.java:354-366 | the relay target on any one side is among the pipes transmitted to |
| PipeSignalProofs.TransmitReaches | common/buildcraft/transport/Pipe.java:353-367 | the relay target on a given side receives strength minus one |
| PipeSignalProofs.TransmitMisses | common/buildcraft/transport/Pipe.java:353-367 | a pipe that is not a neighbour receives nothing |
| PipeSignalProofs.TransmitLoopConsistent | common/buildcraft/transport/Pipe.java:353-367 | transmission keeps the strength invariant |
| PipeSignalProofs.UpdateCollapses | common/buildcraft/transport/Pipe.java:332-368 | a whole update whose neighbours no longer sustain the signal ends at strength 0, transmits nothing and schedules the fully defined neighbours |
| PipeSignalProofs.UpdateRaises | common/buildcraft/transport/Pipe.java:332-368 | a whole update whose neighbours sustain the signal ends at the best offer, never below the old strength |
| PipeSignalProofs.UpdateForColorConfined | common/buildcraft/transport/Pipe.java:332-368 | one colour's update changes only the pipe and its neighbours, and only in that colour |
| PipeSignalProofs.UpdateForColorConsistent | common/buildcraft/transport/Pipe.java:332-368 | one colour's update keeps every strength in [0, 255] and non-zero only on installed colours |
| Pipe.UpdateWires | common/buildcraft/transport/Pipe.java:326-330 | the colour loop keeps the set of pipes and leaves every colour it does not visit unchanged on every pipe |
| PipeUpdateProofs.UpdateForColorAgrees | common/buildcraft/transport/Pipe.java:332-368 | one colour's update reads no other colour: two states that agree on that colour still agree on it afterwards |
| PipeUpdateProofs.UpdateWiresPerColour | common/buildcraft/transport/Pipe.java:326-330 | over distinct colours, the colour loop leaves each visited colour exactly where that colour's own update, run on the starting state, leaves it |
| PipeUpdateProofs.UpdateSignalStatePerColour | common/buildcraft/transport/Pipe.java:326-330 | within `updateSignalState`, every pipe's strength of every colour is the one that colour's own update gives |
| PipeUpdateProofs.UpdateForColorKeepsFlags | common/buildcraft/transport/Pipe.java:332-368 | no colour update clears a scheduled flag: flags are only ever set, by `receiveSignal` and the collapse |
| PipeUpdateProofs.UpdateWiresKeepsFlags | common/buildcraft/transport/Pipe.java:326-330 | the colour loop clears no scheduled flag either |
| PipeUpdateProofs.UpdateWiresCollapseSchedules | common/buildcraft/transport/Pipe.java:307-330 | when a colour collapses, the colour loop leaves every fully defined neighbour scheduled |
| PipeUpdateProofs.UpdateWiresRelaySchedules | common/buildcraft/transport/Pipe.java:339-366 | when a gate broadcasts a colour, the colour loop leaves a relay target that was below 255 scheduled |
| PipeSignalProofs.UpdateSignalStateUntouched | common/buildcraft/transport/Pipe.java:326-330 | updating all four colours changes only the pipe and its neighbours |
| PipeSignalProofs.UpdateWiresConsistent | common/buildcraft/transport/Pipe.java:326-330 | updating the colours in order keeps the strength invariant |
| Pipe.ScheduledUpdate | common/buildcraft/transport/Pipe.java:207-213 | a scheduled pipe runs `updateSignalState`: every strength, and every other pipe whole, is as that update leaves it; the scheduled flag is clear afterwards, even when the update rescheduled the pipe itself; an unscheduled pipe is left as it was |
| PipeUpdateProofs.ScheduledStepPerColour | common/buildcraft/transport/Pipe.java:207-213 | in the scheduled step every colour ends where that colour's own update leaves it |
| PipeUpdateProofs.ScheduledStepSkipsBareColour | common/buildcraft/transport/Pipe.java:207-213 | the step leaves the strengths of a colour the pipe does not carry unchanged on every pipe |
| PipeUpdateProofs.ScheduledBroadcastForcesMax | common/buildcraft/transport/Pipe.java:207-213 | a scheduled pipe with a gate broadcasting the colour ends the step at 255 |
| PipeUpdateProofs.ScheduledBroadcastReachesNeighbour | common/buildcraft/transport/Pipe.java:207-213 | in that case every relay target ends the step at 254 or more, and scheduled if it was below 255 |
| PipeUpdateProofs.ScheduledCollapses | common/buildcraft/transport/Pipe.java:207-213 | a scheduled pipe whose neighbours no longer sustain the colour ends the step at 0, and every fully defined neighbour ends it scheduled |
| PipeUpdateProofs.ScheduledRaises | common/buildcraft/transport/Pipe.java:207-213 | a scheduled pipe whose neighbours sustain the colour ends the step at the best offer, never below where it was |
| PipeSignalProofs.ScheduledUpdateConsistent | common/buildcraft/transport/Pipe.java:207-213 | the scheduled-update step keeps the strength invariant |
| PipeExamples.LineSettles | common/buildcraft/transport/Pipe.java:332-368 | in a red line A–B–C with an emitter at A, A's update and then B's leave strengths 255, 254 and 253 |
| PipeQueries.GetOpenOrientation | common/buildcraft/transport/Pipe.java:590-611 | a side is returned exactly when the pipe is connected to a pipe on one side only, and it is the opposite of that side |
| PipeQueries.IsWired | common/buildcraft/transport/Pipe.java:445-453 | true exactly when some colour is installed |
| PipeQueries.CanConnectRedstone | common/buildcraft/transport/Pipe.java:402-409 | true exactly when some side carries a gate |
| PipeQueries.GetMaxRedstoneOutput | common/buildcraft/transport/Pipe.java:411-423 | the result is non-negative, at least every gate's output, and either 0 or some gate's output |
| PipeQueries.MaxOutputUnique | common/buildcraft/transport/Pipe.java:411-423 | at most one value meets that description, so the maximum is well defined |
| PipeQueries.IsPoweringTo | common/buildcraft/transport/Pipe.java:425-435 | 0 towards a side whose opposite neighbour is a connected pipe, otherwise the maximum gate output |
| Requester.IsFulfilled | common/buildcraft/commander/TileRequester.java:140-149 | a slot without a request is fulfilled, one with a request but no stock is not, and otherwise it is fulfilled exactly when it is not open |
| Requester.GetAvailableRequest | common/buildcraft/commander/TileRequester.java:156-173 | a request is returned exactly when the slot is open and unclaimed, and it carries the slot index, the requested stack and this requester |
| Requester.TakeRequest | common/buildcraft/commander/TileRequester.java:175-184 | true exactly when the slot is open and the registry's take succeeds; for a slot that is not open the registry's answer plays no part |
| Requester.ProvideItemsForRequest | common/buildcraft/commander/TileRequester.java:186-224 | only slot i's stock changes; stock plus leftover equals stock plus input; the leftover has the input's kind; a non-empty stock keeps its kind; with no request the input is handed back unchanged |
| Requester.IsItemValidForSlot | common/buildcraft/commander/TileRequester.java:108-117 | true exactly when there is a request, the item is of its kind and the inventory accepts it |
| RequesterProofs.ProvideIntoEmptySlot | common/buildcraft/commander/TileRequester.java:192-207 | an empty stock slot stores min(input, requested) of the input's kind, whatever the request's kind, and hands back input minus requested or nothing |
| RequesterProofs.ProvideWrongKindRejected | common/buildcraft/commander/TileRequester.java:208-209 | a stock of another kind than the input hands the whole input back and stays as it was |
| RequesterProofs.ProvideMerges | common/buildcraft/commander/TileRequester.java:210-220 | into a matching stock not above the request the new stock is min(existing + input, requested), the leftover is the excess or nothing, and the stock stays within the request |
| RequesterProofs.ProvideEjectsExcess | common/buildcraft/commander/TileRequester.java:216-219 | a matching stock above the request is cut down to the request, and the excess joins the leftover |
| RequesterProofs.ProvideBounded | common/buildcraft/commander/TileRequester.java:186-224 | a stock at or below the request stays within it after any delivery |
| RequesterProofs.ProvideFillsOrAbsorbs | common/buildcraft/commander/TileRequester.java:186-224 | a delivery of the requested kind is either taken whole or leaves the slot fulfilled |
| RequesterProofs.RedepositLeftover | common/buildcraft/commander/TileRequester.java:210-220 | handing the leftover straight back changes nothing and returns the same leftover |
| RequesterProofs.SplitDelivery | common/buildcraft/commander/TileRequester.java:186-224 | delivering a and then b of the requested kind leaves the same stock as delivering a + b at once, with the same total handed back |
| RequesterProofs.WrongStockBlocksSlot | common/buildcraft/commander/TileRequester.java:140-224 | while a stock of another kind than the request stays, the slot is unfulfilled and every delivery is handed back whole |
| RequesterProofs.DeliveryCloses | common/buildcraft/commander/TileRequester.java:140-224 | after a delivery covering the shortfall the slot is fulfilled, is no longer offered and cannot be claimed |
| RequesterProofs.TakeOnlyAvailable | common/buildcraft/commander/TileRequester.java:156-184 | a request can be claimed only when it would be offered, and it is offered to a robot that finds it unclaimed |
| RequesterProofs.ValidItemIsTaken | common/buildcraft/commander/TileRequester.java:108-117 | an item the slot declares valid, delivered into an empty or same-kind stock below the request, adds to the stock |
| RequesterProofs.TenInTwoDeliveries | common/buildcraft/commander/TileRequester.java:186-224 | with ten requested, six delivered leave the slot open and four more fulfil it exactly |

## Left out

- The reflection-based event dispatch and the class-keyed static maps of `Pipe` (Pipe.java:53-54, 73-76, 99-144). They are runtime reflection, not signal logic.
- Gate ticking, client pulses, gate NBT and `GateFactory` (Pipe.java:218-278). They call classes that are not part of this model. A gate is reduced to its broadcast flags and its reported redstone output.
- `resetGates` and its rescheduling (Pipe.java:543-554). It belongs to gate management.
- Pipe.ScheduledUpdate: models only the scheduled-update part of `updateEntity` (Pipe.java:210-213). The call to `transport.updateEntity()` (Pipe.java:208) is left out because the transport is not part of this model. The reset of `closed` and `actionStates` (Pipe.java:215-216) is left out because both are gate-action state, which this model does not hold.
- `initialize` (Pipe.java:284-288). It calls the transport, which is not part of this model, and then `updateSignalState`, which is modelled.
- Rendering, world notifications and item drops: `scheduleRenderUpdate` (Pipe.java:310, 382, 553), and `notifyBlocksOfNeighborChange` to `dropItem` (Pipe.java:473-529). These are host side effects with no effect on signal state.
- Convergence over many ticks. The result depends on the host's update order. `PipeExamples.LineSettles` fixes one order: A's update, then B's.
- PipeQueries.IsPoweringTo: takes the side as one of the six directions. An out-of-range integer side is not modelled, because `ForgeDirection.getOrientation` and the container lookups it relies on are not part of this model.
- Pipe.ReadNearbyPipesSignal: its own contract only preserves the set of pipes. Its behaviour is stated by `ReadNearbyRaises`, `ReadNearbyCollapses` and `ReadNearbyQuiet`, which need the no-self-neighbour hypothesis. Physically a block is never its own neighbour.
- Pipe.UpdateSignalState: its own contract only preserves the set of pipes. Its behaviour is stated by lemmas:
  - `UpdateSignalStatePerColour` reduces its strengths to the four per-colour updates.
  - `UpdateWiresKeepsFlags`, `UpdateWiresCollapseSchedules` and `UpdateWiresRelaySchedules` carry the scheduled flags that the collapse and transmission set through the colour loop.
  - `UpdateSignalStateUntouched` and `UpdateWiresConsistent` give the frame and the strength invariant.
- The `IInventory` pass-through methods, NBT and the `setRequest` RPC of `TileRequester` (TileRequester.java:39-106, 119-138). These are plumbing. A lowered request is still covered by `ProvideEjectsExcess`.
- In-place aliasing of `ItemStack` objects (TileRequester.java:196, 202, 214, 217). Stacks are values, and the leftover is returned explicitly.
- Requester.ProvideItemsForRequest: a `null` input stack is not modelled. Java `int` overflow of stack sizes is not modelled either, because sizes are bounded by the 64-item stack limit.
- Requester.ProvideItemsForRequest: storing into a slot is a plain store. `SimpleInventory.setInventorySlotContents` is not part of this model, so any clamping it applies is not represented.
- Requester.Slot: every slot index is in 0..19. The Java methods take any `int`, and what `SimpleInventory` does with an index outside its size is not part of this model.
- Requester.IsItemValidForSlot: a `null` item stack is not modelled (TileRequester.java:112). What `StackHelper.isMatchingItem` does with `null` is not part of this model.
- The internals of `RobotRegistry`, `StackHelper` and `SimpleInventory`. They are not part of this model, and each is a parameter or an equality of kinds.
- `ResourceIdBlock.java`. It only wraps a block position and has no behaviour to model. `Requester.ResourceId` stands for the request id.
