/**
  `onRightClickBlock`: when a player right-clicks a fence, decide whether the
  event is cancelled and whether the block's own use is denied, so that
  leads and connection items do not fight over the same fence.
 */
module FenceClick {
  import opened Wrappers
  import opened Stacks
  import opened ServerEvents

  /** What `FenceFastenerEntity.findHanging` reports at the fence: nothing, a fence fastener, a leash knot, or another hanging entity. */
  datatype Hanging = NoHanging | FenceFastenerHanging | LeashKnot | OtherHanging

  /** A mob in the 7-block box around the fence: whether it is leashed, and whether the clicking player holds the leash. */
  datatype Mob = Mob(leashed: bool, heldByPlayer: bool)

  datatype ClickOutcome = ClickOutcome(canceled: bool, denyUseBlock: bool)

  /** Whether some mob in the box is leashed to the player. */
  predicate LeashedToPlayer(mobs: seq<Mob>) {
    exists j :: 0 <= j < |mobs| && mobs[j].leashed && mobs[j].heldByPlayer
  }

  /** Whether the leash checks apply: a lead is held, or (on the server) the player leads a mob nearby. */
  predicate ChecksHanging(held: Item, clientSide: bool, mobs: seq<Mob>) {
    held.Lead? || (!clientSide && LeashedToPlayer(mobs))
  }

  /** The outcome of a right click on a block, as the handler decides it. */
  function FenceClickDecision(
    isFenceBlock: bool, held: Item, hand: Hand, offhand: Item,
    clientSide: bool, mobs: seq<Mob>, hanging: Hanging): ClickOutcome
  {
    if !isFenceBlock then ClickOutcome(false, false)
    else if hand.MainHand? && IsConnectionItem(offhand) && held.Lead? then ClickOutcome(true, false)
    else
      ClickOutcome(
        ChecksHanging(held, clientSide, mobs) && (hanging.FenceFastenerHanging? || hanging.OtherHanging?),
        hand.MainHand? && IsConnectionItem(offhand))
  }

  /** The scan over nearby mobs for one leashed to the player; it stops at the first. */
  method FindLeashedToPlayer(mobs: seq<Mob>) returns (found: bool)
    ensures found == LeashedToPlayer(mobs)
  {
    found := false;
    for i := 0 to |mobs|
      invariant !found
      invariant forall j :: 0 <= j < i ==> !(mobs[j].leashed && mobs[j].heldByPlayer)
    {
      if mobs[i].leashed && mobs[i].heldByPlayer {
        found := true;
        break;
      }
    }
  }

  /** The decision part of `onRightClickBlock`, step by step as the handler takes it. */
  method DecideFenceClick(
    isFenceBlock: bool, held: Item, hand: Hand, offhand: Item,
    clientSide: bool, mobs: seq<Mob>, hanging: Hanging) returns (outcome: ClickOutcome)
    ensures outcome == FenceClickDecision(isFenceBlock, held, hand, offhand, clientSide, mobs, hanging)
  {
    outcome := ClickOutcome(false, false);
    if !isFenceBlock {
      return;
    }
    var checkHanging := held.Lead?;
    if hand.MainHand? && IsConnectionItem(offhand) {
      if checkHanging {
        outcome := outcome.(canceled := true);
        return;
      } else {
        outcome := outcome.(denyUseBlock := true);
      }
    }
    if !checkHanging && !clientSide {
      checkHanging := FindLeashedToPlayer(mobs);
    }
    if checkHanging {
      if !hanging.NoHanging? && !hanging.LeashKnot? {
        outcome := outcome.(canceled := true);
      }
    }
  }

  /**
    `onRightClickBlock`: first capture the colour of a held hanging-lights or
    pennant-bunting stack, then decide the fence click on the items the two
    stacks report (air for an empty stack).
   */
  method OnRightClickBlock(
    stack: ItemStack, isFenceBlock: bool, hand: Hand, offhand: Stack,
    clientSide: bool, mobs: seq<Mob>, hanging: Hanging) returns (outcome: ClickOutcome)
    modifies stack`tag
    ensures stack.Value() == CaptureSlot(old(stack.Value()))
    ensures outcome == FenceClickDecision(isFenceBlock, GetItem(old(stack.Value())), hand, GetItem(offhand), clientSide, mobs, hanging)
  {
    if !IsEmpty(stack.Value()) && IsPatternItem(stack.item) {
      CaptureColor(stack);
    }
    outcome := DecideFenceClick(isFenceBlock, GetItem(stack.Value()), hand, GetItem(offhand), clientSide, mobs, hanging);
  }

  /**
    A used-up lead reports air: with a connection item in the off hand it is
    not cancelled outright, the block's use is only denied. An empty stack in
    the off hand never triggers the off-hand rules.
   */
  lemma EmptyStacksReportAir(clientSide: bool, mobs: seq<Mob>, hanging: Hanging, offhand: Stack, held: Item)
    requires !IsEmpty(offhand) && IsConnectionItem(offhand.item)
    ensures FenceClickDecision(true, GetItem(Stack(Lead, 0, None)), MainHand, GetItem(offhand), false, [], NoHanging)
      == ClickOutcome(false, true)
    ensures FenceClickDecision(true, GetItem(Stack(Lead, 1, None)), MainHand, GetItem(offhand), false, [], NoHanging)
      == ClickOutcome(true, false)
    ensures !FenceClickDecision(true, held, MainHand, GetItem(offhand.(count := 0)), clientSide, mobs, hanging).denyUseBlock
  {
    assert GetItem(Stack(Lead, 0, None)) == Air;
    assert GetItem(Stack(Lead, 1, None)) == Lead;
    assert GetItem(offhand) == offhand.item;
    assert GetItem(offhand.(count := 0)) == Air;
    assert !LeashedToPlayer([]);
  }

  /** A click on anything but a fence block is neither cancelled nor denied. */
  lemma NonFenceUntouched(held: Item, hand: Hand, offhand: Item, clientSide: bool, mobs: seq<Mob>, hanging: Hanging)
    ensures FenceClickDecision(false, held, hand, offhand, clientSide, mobs, hanging) == ClickOutcome(false, false)
  {
  }

  /**
    On a fence, with a connection item in the off hand and a main-hand click:
    a lead is cancelled outright, anything else only has the block's use
    denied unless the hanging check cancels it.
   */
  lemma OffhandConnectionRules(held: Item, offhand: Item, clientSide: bool, mobs: seq<Mob>, hanging: Hanging)
    requires IsConnectionItem(offhand)
    ensures held.Lead? ==> FenceClickDecision(true, held, MainHand, offhand, clientSide, mobs, hanging) == ClickOutcome(true, false)
    ensures !held.Lead? ==> FenceClickDecision(true, held, MainHand, offhand, clientSide, mobs, hanging).denyUseBlock
    ensures !held.Lead? && !(!clientSide && LeashedToPlayer(mobs)) ==>
      !FenceClickDecision(true, held, MainHand, offhand, clientSide, mobs, hanging).canceled
  {
  }

  /**
    A click is cancelled only for a lead with a connection item in the off
    hand, or when the hanging check applies and finds a hanging entity that
    is not a leash knot; use is denied only for a main-hand click with a
    connection item in the off hand.
   */
  lemma CancelOnlyForHangingConflict(
    isFenceBlock: bool, held: Item, hand: Hand, offhand: Item,
    clientSide: bool, mobs: seq<Mob>, hanging: Hanging)
    ensures var o := FenceClickDecision(isFenceBlock, held, hand, offhand, clientSide, mobs, hanging);
      (o.canceled <==>
        isFenceBlock &&
        ((hand.MainHand? && IsConnectionItem(offhand) && held.Lead?) ||
         (ChecksHanging(held, clientSide, mobs) && hanging != NoHanging && hanging != LeashKnot))) &&
      (o.denyUseBlock ==> isFenceBlock && hand.MainHand? && IsConnectionItem(offhand) && !held.Lead?)
  {
  }
}
