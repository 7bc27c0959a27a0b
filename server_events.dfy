/**
  The server event handler's work on a player's inventory: the capture
  sweeps run when a container opens or closes, the capture on pickup, and
  the login sweep that replaces connection items whose NBT was stripped.
 */
module ServerEvents {
  import opened Wrappers
  import opened Stacks
  import opened Integrity

  /** Whether the handler captures a stack's colour: a non-empty hanging-lights or pennant-bunting stack. */
  predicate CapturesFrom(v: Stack) {
    !IsEmpty(v) && IsPatternItem(v.item)
  }

  /** One slot after a capture sweep. */
  function CaptureSlot(v: Stack): Stack {
    if CapturesFrom(v) then Capture(v) else v
  }

  /** Whether a visit of the repair sweep puts a new stack into a slot holding v. */
  predicate Replaces(v: Stack, recipes: Recipes) {
    !IsEmpty(v) && IsConnectionItem(v.item) && RepairConnectionItemNbt(v, recipes).Some?
  }

  /** One slot after a visit of the repair sweep (`repairConnectionItemNBT` and `setItem`). */
  function RepairSlot(v: Stack, recipes: Recipes): Stack {
    if Replaces(v, recipes) then RepairConnectionItemNbt(v, recipes).value else v
  }

  /** A capture sweep visits an aliased stack harmlessly: a second visit changes nothing. */
  lemma CaptureSlotIdempotent(v: Stack)
    ensures CaptureSlot(CaptureSlot(v)) == CaptureSlot(v)
  {
    CaptureIdempotent(v);
    CaptureEffect(v);
  }

  /**
    The repair sweep replaces a slot only when it holds a non-empty hanging
    lights or pennant bunting stack whose NBT is invalid and whose repair
    produced a stack; valid stacks, other connection items and other items
    are left in place.
   */
  lemma RepairSlotReplacesOnlyBrokenPatternItems(v: Stack, recipes: Recipes)
    ensures RepairSlot(v, recipes) != v ==>
      !IsEmpty(v) && IsPatternItem(v.item) && !HasValidNbt(v) &&
      RepairConnectionItemNbt(v, recipes) == Some(RepairSlot(v, recipes))
    ensures HasValidNbt(v) || !IsPatternItem(v.item) ==> RepairSlot(v, recipes) == v
    ensures Replaces(v, recipes) <==>
      !IsEmpty(v) && IsPatternItem(v.item) && !HasValidNbt(v) && RepairConnectionItemNbt(v, recipes).Some?
    ensures Replaces(v, recipes) ==> RepairSlot(v, recipes) == RepairConnectionItemNbt(v, recipes).value
  {
    RepairOnlyInvalidPatternItems(v, recipes);
  }

  /**
    The off-hand slot is visited twice (once by the slot loop, once on its
    own); the second visit changes nothing unless the first one put in a
    rebuilt pattern item whose NBT is itself invalid.
   */
  lemma OffhandSecondVisit(v: Stack, recipes: Recipes)
    ensures var once := RepairSlot(v, recipes);
      (once == v || HasValidNbt(once) || !IsPatternItem(once.item)) ==> RepairSlot(once, recipes) == once
  {
    var once := RepairSlot(v, recipes);
    RepairSlotReplacesOnlyBrokenPatternItems(once, recipes);
    RepairSlotReplacesOnlyBrokenPatternItems(v, recipes);
  }

  datatype Hand = MainHand | OffHand

  /** A player's inventory: all slots (main, armour, off-hand) in one container, as `getItem(i)` indexes them. */
  class Inventory {
    const slots: array<ItemStack>
    /** The selected hotbar slot, which is the main hand. */
    const selected: nat
    /** The slot that is the off hand. */
    const offhandSlot: nat

    predicate Valid()
      reads this
    {
      selected < slots.Length && offhandSlot < slots.Length && selected != offhandSlot
    }

    /** The slot a hand holds. */
    function HandSlot(hand: Hand): nat
      reads this
    {
      if hand.MainHand? then selected else offhandSlot
    }

    /** `setItemInHand(hand, stack)` */
    method SetItemInHand(hand: Hand, stack: ItemStack)
      requires Valid()
      modifies slots
      ensures slots[..] == old(slots[..])[HandSlot(hand) := stack]
    {
      slots[HandSlot(hand)] := stack;
    }

    constructor (contents: array<ItemStack>, selected: nat, offhandSlot: nat)
      requires selected < contents.Length && offhandSlot < contents.Length && selected != offhandSlot
      ensures Valid() && slots == contents
      ensures this.selected == selected && this.offhandSlot == offhandSlot
    {
      slots, this.selected, this.offhandSlot := contents, selected, offhandSlot;
    }

    /**
      `onPlayerContainerOpen` / `onPlayerContainerChanged`: on the server,
      capture the colour of every non-empty hanging-lights or pennant-bunting
      stack in place. A stack that sits in several slots is captured once per
      slot, which capture's idempotence makes harmless.
     */
    method CaptureAll(clientSide: bool)
      requires Valid()
      modifies set k | 0 <= k < slots.Length :: slots[k]
      ensures forall k :: 0 <= k < slots.Length ==> slots[k].count == old(slots[k].count)
      ensures forall k :: 0 <= k < slots.Length ==>
        slots[k].Value() == if clientSide then old(slots[k].Value()) else CaptureSlot(old(slots[k].Value()))
    {
      if clientSide {
        return;
      }
      var i := 0;
      while i < slots.Length
        invariant 0 <= i <= slots.Length
        invariant forall k :: 0 <= k < slots.Length ==> slots[k].count == old(slots[k].count)
        invariant forall k :: 0 <= k < slots.Length ==>
          slots[k].Value() == old(slots[k].Value()) || slots[k].Value() == CaptureSlot(old(slots[k].Value()))
        invariant forall k :: 0 <= k < i ==> slots[k].Value() == CaptureSlot(old(slots[k].Value()))
      {
        var stack := slots[i];
        if !IsEmpty(stack.Value()) && IsPatternItem(stack.item) {
          CaptureSlotIdempotent(old(stack.Value()));
          CaptureColor(stack);
        }
        i := i + 1;
      }
    }

    /**
      `checkAndRepairInventoryNBT`: every slot holding a connection item is
      passed through `repairConnectionItemNBT` and replaced by a fresh stack
      when that yields one; then the off hand is visited again.
     */
    method CheckAndRepairInventoryNbt(recipes: Recipes)
      requires Valid()
      modifies slots
      ensures forall k :: 0 <= k < slots.Length && k != offhandSlot ==>
        slots[k].Value() == RepairSlot(old(slots[k].Value()), recipes)
      ensures slots[offhandSlot].Value() == RepairSlot(RepairSlot(old(slots[offhandSlot].Value()), recipes), recipes)
      ensures forall k :: 0 <= k < slots.Length && k != offhandSlot ==>
        if Replaces(old(slots[k].Value()), recipes) then fresh(slots[k]) else slots[k] == old(slots[k])
      ensures var v := old(slots[offhandSlot].Value());
        if Replaces(v, recipes) || Replaces(RepairSlot(v, recipes), recipes) then fresh(slots[offhandSlot])
        else slots[offhandSlot] == old(slots[offhandSlot])
    {
      var i := 0;
      while i < slots.Length
        invariant 0 <= i <= slots.Length
        invariant forall k :: 0 <= k < i ==> slots[k].Value() == RepairSlot(old(slots[k].Value()), recipes)
        invariant forall k :: i <= k < slots.Length ==> slots[k] == old(slots[k])
        invariant forall k :: 0 <= k < i ==>
          if Replaces(old(slots[k].Value()), recipes) then fresh(slots[k]) else slots[k] == old(slots[k])
      {
        var stack := slots[i];
        if !IsEmpty(stack.Value()) && IsConnectionItem(stack.item) {
          var repaired := RepairConnectionItemNbt(stack.Value(), recipes);
          if repaired.Some? {
            slots[i] := new ItemStack(repaired.value);
          }
        }
        i := i + 1;
      }
      var offhand := slots[offhandSlot];
      if !IsEmpty(offhand.Value()) && IsConnectionItem(offhand.item) {
        var repaired := RepairConnectionItemNbt(offhand.Value(), recipes);
        if repaired.Some? {
          slots[offhandSlot] := new ItemStack(repaired.value);
        }
      }
    }

    /** `onPlayerLoggedIn`: on the server, run the repair sweep over the inventory. */
    method OnPlayerLoggedIn(clientSide: bool, recipes: Recipes)
      requires Valid()
      modifies slots
      ensures clientSide ==> slots[..] == old(slots[..])
      ensures !clientSide ==>
        (forall k :: 0 <= k < slots.Length && k != offhandSlot ==>
          slots[k].Value() == RepairSlot(old(slots[k].Value()), recipes)) &&
        slots[offhandSlot].Value() == RepairSlot(RepairSlot(old(slots[offhandSlot].Value()), recipes), recipes)
    {
      if !clientSide {
        CheckAndRepairInventoryNbt(recipes);
      }
    }
  }

  /** `onPlayerPickupItem`: on the server, capture the colour of a picked-up hanging-lights or pennant-bunting stack. */
  method OnPlayerPickupItem(stack: ItemStack, clientSide: bool)
    modifies stack`tag
    ensures stack.Value() == if clientSide then old(stack.Value()) else CaptureSlot(old(stack.Value()))
  {
    if clientSide {
      return;
    }
    if !IsEmpty(stack.Value()) && IsPatternItem(stack.item) {
      CaptureColor(stack);
    }
  }
}
