/**
  Using a connection item on a block (`ConnectionItem.useOn` and the
  capture hook the hanging-lights and pennant-bunting items run before it):
  repair of a stripped held stack, the guard against a different pending
  connection, resolution of the target, and the `connect` overloads that
  decide how much of the held stack is consumed and whether the connect
  sound plays. The fasteners themselves, the world and the player's
  capability are inputs: what they answer is given, not computed.
 */
module ConnectionItems {
  import opened Wrappers
  import opened Nbt
  import opened Stacks
  import opened Integrity
  import opened ServerEvents
  import opened FenceClick

  datatype InteractionResult = Pass | Success

  /** The player fastener's first connection: its serialized logic, and what `reconnect` to the target answers. */
  datatype Pending = Pending(logic: Compound, reconnects: bool)

  /** The player's fastener capability: absent, or present with or without a first connection. */
  datatype Capability = Absent | Present(first: Option<Pending>)

  /** What the world answers about the clicked position. */
  datatype Site = Site(
    isFastenerBlock: bool,   // the clicked block is the fastener block
    blockFastener: bool,     // it has a block entity with the fastener capability
    canPlace: bool,          // a block may be placed against the clicked face
    canSurvive: bool,        // a fastener facing the clicked face survives at the placement position
    setBlock: bool,          // placing the fastener block succeeds
    placedFastener: bool,    // the placed block's entity has the fastener capability
    solid: bool,             // the clicked block state is solid
    inFenceTag: bool,        // it is tagged as a fence
    hanging: Hanging,        // what hangs on the clicked block
    fenceFastener: bool)     // the fence fastener entity's capability resolves

  /** `NbtUtils.compareNbt(a, b, true)`, which is not part of this model. */
  type CompareNbt = (Compound, Option<Compound>) -> bool

  /** `isFence` */
  predicate IsFence(site: Site) {
    site.solid && site.inFenceTag
  }

  /**
    `isConnectionInOtherHand`: the player has a first connection that the
    held stack does not belong to; false when the capability is absent.
   */
  predicate ConnectionInOtherHand(cap: Capability, s: Stack, compare: CompareNbt) {
    match cap
    case Absent => false
    case Present(None) => false
    case Present(Some(p)) => if p.logic == map[] then HasTag(s) else !compare(p.logic, s.tag)
  }

  /** What a `connect` does to the fasteners. */
  datatype FastenerAction =
    | Reconnected            // the pending connection was moved onto the target
    | ReconnectRefused       // `reconnect` answered false
    | Created(payload: Compound)            // the target created a connection from the player's fastener
    | CreatedTemporary(payload: Compound)   // the same, from a temporary player fastener
    | TemporaryFailed(payload: Compound)    // creating from a temporary fastener threw

  datatype ConnectOutcome = ConnectOutcome(action: FastenerAction, consumed: int, sound: bool)

  /** `connect(stack, user, world, fastener, playConnectSound)`, as an outcome. */
  function ConnectOutcomeOf(cap: Capability, tag: Option<Compound>, createThrows: bool, playConnectSound: bool): ConnectOutcome {
    var payload := if tag.Some? then tag.value else map[];
    match cap
    case Present(Some(p)) =>
      if p.reconnects then ConnectOutcome(Reconnected, 1, playConnectSound)
      else ConnectOutcome(ReconnectRefused, 0, false)
    case Present(None) => ConnectOutcome(Created(payload), 0, playConnectSound)
    case Absent =>
      if createThrows then ConnectOutcome(TemporaryFailed(payload), 1, false)
      else ConnectOutcome(CreatedTemporary(payload), 1, playConnectSound)
  }

  /**
    Stack consumption: a pending connection consumes exactly one item iff it
    reconnects, and a refused reconnect plays no sound; a new connection
    consumes nothing and is built from the stack's tag or an empty compound;
    without the capability exactly one item is consumed whether or not the
    creation throws, and the sound plays only when it does not.
   */
  lemma ConsumptionRules(cap: Capability, tag: Option<Compound>, createThrows: bool, playConnectSound: bool)
    ensures var o := ConnectOutcomeOf(cap, tag, createThrows, playConnectSound);
      var payload := if tag.Some? then tag.value else map[];
      (cap.Present? && cap.first.Some? ==>
        (o.consumed == 1 <==> cap.first.value.reconnects) &&
        (o.consumed == 0 <==> !cap.first.value.reconnects) &&
        (!cap.first.value.reconnects ==> !o.sound)) &&
      (cap.Present? && cap.first.None? ==> o.consumed == 0 && o.action == Created(payload) && o.sound == playConnectSound) &&
      (cap.Absent? ==> o.consumed == 1 && (o.sound <==> playConnectSound && !createThrows)) &&
      (o.sound ==> playConnectSound)
  {
  }

  /** The target `useOn` settles on, in the order it tries them. */
  datatype Target = ExistingFastener | PlacedFastener | FenceFastener | NoTarget

  /** Whether a target kind applies at a site, taken alone. */
  predicate Applies(t: Target, site: Site) {
    match t
    case ExistingFastener => site.isFastenerBlock
    case PlacedFastener => site.canPlace && site.canSurvive
    case FenceFastener => IsFence(site) && (site.hanging.NoHanging? || site.hanging.FenceFastenerHanging?)
    case NoTarget => true
  }

  /** The target resolution of `useOn`. */
  function ResolveTarget(site: Site): Target {
    if site.isFastenerBlock then ExistingFastener
    else if site.canPlace && site.canSurvive then PlacedFastener
    else if IsFence(site) then
      (if site.hanging.NoHanging? || site.hanging.FenceFastenerHanging? then FenceFastener else NoTarget)
    else NoTarget
  }

  const TargetOrder: seq<Target> := [ExistingFastener, PlacedFastener, FenceFastener, NoTarget]

  /** Resolution picks the first target, in the order existing fastener, placeable fastener, fence, that applies. */
  lemma ResolveTargetIsFirstApplicable(site: Site)
    ensures ResolveTarget(site) in TargetOrder
    ensures Applies(ResolveTarget(site), site)
    ensures forall i :: 0 <= i < |TargetOrder| && TargetOrder[i] == ResolveTarget(site) ==>
      forall j :: 0 <= j < i ==> !Applies(TargetOrder[j], site)
  {
  }

  /** The capture hook of the hanging-lights and pennant-bunting `useOn`. */
  function CaptureHook(s: Stack): Stack {
    if IsPatternItem(s.item) && HasTag(s) && Contains(s.tag.value, PatternKey, TagList) then Capture(s) else s
  }

  /** The connect call a resolved target leads to on the server, if any. */
  function TargetConnect(target: Target, site: Site, cap: Capability, tag: Option<Compound>, createThrows: bool): Option<ConnectOutcome> {
    match target
    case ExistingFastener =>
      if site.blockFastener then Some(ConnectOutcomeOf(cap, tag, createThrows, true)) else None
    case PlacedFastener =>
      if site.setBlock && site.placedFastener then Some(ConnectOutcomeOf(cap, tag, createThrows, false)) else None
    case FenceFastener =>
      if site.fenceFastener then Some(ConnectOutcomeOf(cap, tag, createThrows, site.hanging.FenceFastenerHanging?)) else None
    case NoTarget => None
  }

  /** What one `useOn` does: its result, the stack put in the hand, the target, and the connect it performs. */
  datatype UseReport = UseReport(
    result: InteractionResult,
    replacement: Option<Stack>,
    target: Target,
    connect: Option<ConnectOutcome>)

  /** The held stack `useOn` works with: the repaired one when the held stack is invalid and the repair succeeds. */
  function StackInUse(s: Stack, recipes: Recipes): Stack {
    if !HasValidNbt(s) && RepairNbt(s, recipes).Some? then RepairNbt(s, recipes).value else s
  }

  /** The items a report's connect consumed. */
  function Consumed(report: UseReport): int {
    if report.connect.Some? then report.connect.value.consumed else 0
  }

  /** `useOn` after the repair step, working with the stack in use. */
  function UseStackPlan(
    replacement: Option<Stack>, stack: Stack, site: Site, cap: Capability, clientSide: bool,
    createThrows: bool, compare: CompareNbt): UseReport
  {
    if ConnectionInOtherHand(cap, stack, compare) then UseReport(Pass, replacement, NoTarget, None)
    else
      var target := ResolveTarget(site);
      if target.NoTarget? then UseReport(Pass, replacement, NoTarget, None)
      else
        UseReport(Success, replacement, target,
          if clientSide then None else TargetConnect(target, site, cap, stack.tag, createThrows))
  }

  /** `useOn` of a connection item, as a report. held is the stack after the capture hook. */
  function UseOnPlan(
    hasPlayer: bool, held: Stack, site: Site, cap: Capability, clientSide: bool,
    createThrows: bool, recipes: Recipes, compare: CompareNbt): UseReport
  {
    if !hasPlayer then UseReport(Pass, None, NoTarget, None)
    else
      var replacement := if !HasValidNbt(held) then RepairNbt(held, recipes) else None;
      UseStackPlan(replacement, StackInUse(held, recipes), site, cap, clientSide, createThrows, compare)
  }

  /** Without a player, `useOn` defers to the plain item: PASS, no repair, no connection. */
  lemma NoPlayerPasses(held: Stack, site: Site, cap: Capability, clientSide: bool, createThrows: bool, recipes: Recipes, compare: CompareNbt)
    ensures UseOnPlan(false, held, site, cap, clientSide, createThrows, recipes, compare) == UseReport(Pass, None, NoTarget, None)
  {
  }

  /**
    With a player: a valid held stack is never replaced; a different pending
    connection makes the use PASS without connecting; SUCCESS comes exactly
    from the three targets; a connection is attempted only on the server.
   */
  lemma UseOnRules(held: Stack, site: Site, cap: Capability, clientSide: bool, createThrows: bool, recipes: Recipes, compare: CompareNbt)
    ensures var r := UseOnPlan(true, held, site, cap, clientSide, createThrows, recipes, compare);
      var stack := StackInUse(held, recipes);
      (HasValidNbt(held) ==> r.replacement == None && stack == held) &&
      (ConnectionInOtherHand(cap, stack, compare) ==> r.result == Pass && r.connect == None) &&
      (r.result == Success <==> !ConnectionInOtherHand(cap, stack, compare) && !ResolveTarget(site).NoTarget?) &&
      (r.result == Success ==> r.target == ResolveTarget(site)) &&
      (r.connect.Some? ==> r.result == Success && !clientSide)
  {
  }

  /**
    A pending connection is moved only by a held stack that belongs to it: if
    `useOn` reaches `connect` with a first connection, its logic is empty and
    the stack has no tag, or its logic partially matches the stack's tag.
   */
  lemma ReconnectOnlyForMatchingStack(
    held: Stack, site: Site, p: Pending, clientSide: bool, createThrows: bool, recipes: Recipes, compare: CompareNbt)
    ensures var r := UseOnPlan(true, held, site, Present(Some(p)), clientSide, createThrows, recipes, compare);
      var stack := StackInUse(held, recipes);
      r.connect.Some? ==>
        (if p.logic == map[] then !HasTag(stack) else compare(p.logic, stack.tag)) &&
        r.connect.value.consumed == (if p.reconnects then 1 else 0)
  {
  }

  /** `connect(stack, user, world, fastener, playConnectSound)` */
  method Connect(stack: ItemStack, cap: Capability, createThrows: bool, playConnectSound: bool) returns (outcome: ConnectOutcome)
    modifies stack`count
    ensures outcome == ConnectOutcomeOf(cap, stack.tag, createThrows, playConnectSound)
    ensures stack.count == old(stack.count) - outcome.consumed
  {
    var data := if stack.tag.Some? then stack.tag.value else map[];
    match cap {
      case Present(placing) =>
        var playSound := playConnectSound;
        if placing.Some? {
          if placing.value.reconnects {
            stack.Shrink(1);
            outcome := ConnectOutcome(Reconnected, 1, playSound);
          } else {
            playSound := false;
            outcome := ConnectOutcome(ReconnectRefused, 0, playSound);
          }
        } else {
          outcome := ConnectOutcome(Created(data), 0, playSound);
        }
      case Absent =>
        if !createThrows {
          stack.Shrink(1);
          outcome := ConnectOutcome(CreatedTemporary(data), 1, playConnectSound);
        } else {
          stack.Shrink(1);
          outcome := ConnectOutcome(TemporaryFailed(data), 1, false);
        }
    }
  }

  /** The repair step of `useOn`: an invalid held stack is rebuilt and put in the hand. */
  method RepairHeld(inv: Inventory, hand: Hand, held: ItemStack, recipes: Recipes)
    returns (stack: ItemStack, replacement: Option<Stack>)
    requires inv.Valid() && inv.slots[inv.HandSlot(hand)] == held
    modifies inv.slots
    ensures replacement == if !HasValidNbt(held.Value()) then RepairNbt(held.Value(), recipes) else None
    ensures stack.Value() == StackInUse(held.Value(), recipes)
    ensures replacement.Some? ==> fresh(stack) && inv.slots[..] == old(inv.slots[..])[inv.HandSlot(hand) := stack]
    ensures replacement.None? ==> stack == held && inv.slots[..] == old(inv.slots[..])
  {
    stack := held;
    replacement := None;
    if !HasValidNbt(stack.Value()) {
      replacement := RepairNbt(stack.Value(), recipes);
      if replacement.Some? {
        var repaired := new ItemStack(replacement.value);
        inv.SetItemInHand(hand, repaired);
        stack := repaired;
      }
    }
  }

  /** The target branches of `useOn` after resolution: connect on the server when the fastener is there. */
  method ConnectTarget(stack: ItemStack, target: Target, site: Site, cap: Capability, clientSide: bool, createThrows: bool)
    returns (connect: Option<ConnectOutcome>)
    modifies stack`count
    ensures connect == if clientSide then None else TargetConnect(target, site, cap, stack.tag, createThrows)
    ensures stack.count == old(stack.count) - (if connect.Some? then connect.value.consumed else 0)
  {
    connect := None;
    match target {
      case ExistingFastener =>
        if !clientSide && site.blockFastener {
          var o := Connect(stack, cap, createThrows, true);
          connect := Some(o);
        }
      case PlacedFastener =>
        if !clientSide && site.setBlock && site.placedFastener {
          var o := Connect(stack, cap, createThrows, false);
          connect := Some(o);
        }
      case FenceFastener =>
        // a new fence fastener is spawned when none hangs there; it connects without the sound
        var playConnectSound := site.hanging.FenceFastenerHanging?;
        if !clientSide && site.fenceFastener {
          var o := Connect(stack, cap, createThrows, playConnectSound);
          connect := Some(o);
        }
      case NoTarget =>
    }
  }

  /** `useOn` after the repair step: the other-hand guard, target resolution and the connect. */
  method UseStack(
    stack: ItemStack, replacement: Option<Stack>, site: Site, cap: Capability, clientSide: bool,
    createThrows: bool, compare: CompareNbt) returns (report: UseReport)
    modifies stack`count
    ensures report == UseStackPlan(replacement, old(stack.Value()), site, cap, clientSide, createThrows, compare)
    ensures stack.count == old(stack.count) - Consumed(report)
  {
    if ConnectionInOtherHand(cap, stack.Value(), compare) {
      return UseReport(Pass, replacement, NoTarget, None);
    }
    var target := ResolveTarget(site);
    if target.NoTarget? {
      return UseReport(Pass, replacement, NoTarget, None);
    }
    var connect := ConnectTarget(stack, target, site, cap, clientSide, createThrows);
    report := UseReport(Success, replacement, target, connect);
  }

  /** `useOn` with a player: the repair step, then the rest on the stack in use. */
  method UseWithPlayer(
    inv: Inventory, hand: Hand, held: ItemStack, site: Site, cap: Capability, clientSide: bool,
    createThrows: bool, recipes: Recipes, compare: CompareNbt) returns (report: UseReport)
    requires inv.Valid() && inv.slots[inv.HandSlot(hand)] == held
    modifies held`count, inv.slots
    ensures report == UseOnPlan(true, old(held.Value()), site, cap, clientSide, createThrows, recipes, compare)
    ensures if report.replacement.Some? then
        fresh(inv.slots[inv.HandSlot(hand)]) &&
        inv.slots[inv.HandSlot(hand)].Value() == report.replacement.value.(count := report.replacement.value.count - Consumed(report)) &&
        (forall k :: 0 <= k < inv.slots.Length && k != inv.HandSlot(hand) ==> inv.slots[k] == old(inv.slots[k])) &&
        held.Value() == old(held.Value())
      else
        inv.slots[..] == old(inv.slots[..]) &&
        held.Value() == old(held.Value()).(count := old(held.count) - Consumed(report))
  {
    var stack, replacement := RepairHeld(inv, hand, held, recipes);
    ghost var slotsAfterRepair := inv.slots[..];
    report := UseStack(stack, replacement, site, cap, clientSide, createThrows, compare);
    assert inv.slots[..] == slotsAfterRepair;
  }

  /** `useOn` on the held stack of a connection item, with its capture hook. */
  method UseOn(
    inv: Inventory?, hand: Hand, held: ItemStack, site: Site, cap: Capability, clientSide: bool,
    createThrows: bool, recipes: Recipes, compare: CompareNbt) returns (report: UseReport)
    requires IsConnectionItem(held.item)
    requires inv != null ==> inv.Valid() && inv.slots[inv.HandSlot(hand)] == held
    modifies held, if inv != null then {inv.slots} else {}
    ensures report == UseOnPlan(inv != null, CaptureHook(old(held.Value())), site, cap, clientSide, createThrows, recipes, compare)
    ensures var hooked := CaptureHook(old(held.Value()));
      if inv != null && report.replacement.Some? then
        fresh(inv.slots[inv.HandSlot(hand)]) &&
        inv.slots[inv.HandSlot(hand)].Value() == report.replacement.value.(count := report.replacement.value.count - Consumed(report)) &&
        (forall k :: 0 <= k < inv.slots.Length && k != inv.HandSlot(hand) ==> inv.slots[k] == old(inv.slots[k])) &&
        held.Value() == hooked
      else
        (inv != null ==> inv.slots[..] == old(inv.slots[..])) &&
        held.Value() == hooked.(count := hooked.count - Consumed(report))
  {
    // the hanging-lights and pennant-bunting override: capture, then defer
    if IsPatternItem(held.item) && HasTag(held.Value()) && Contains(held.tag.value, PatternKey, TagList) {
      CaptureColor(held);
    }
    if inv == null {
      return UseReport(Pass, None, NoTarget, None);
    }
    report := UseWithPlayer(inv, hand, held, site, cap, clientSide, createThrows, recipes, compare);
  }
}
