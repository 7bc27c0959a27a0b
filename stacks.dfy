/**
  Item stacks as the connection items see them: an item kind, a count and an
  optional tag compound, plus the colour capture that the hanging-lights
  item, the pennant-bunting item and the server event handler each perform
  (three copies with one body): when the first pattern element carries an
  int `CustomColor`, its bucketed name and raw value are written into the
  stack's top-level `CapturedColor` / `CapturedRGB` keys.
 */
module Stacks {
  import opened Wrappers
  import opened Nbt
  import opened DyeColors
  import opened Bucketing

  /** The item kinds the core tells apart. `OtherItem` is any item outside the connection items and the lead. */
  datatype Item =
    | HangingLights | PennantBunting | Tinsel | LetterBunting | Garland
    | Lead | Air | OtherItem(id: string)

  /** `item instanceof ConnectionItem` */
  predicate IsConnectionItem(item: Item) {
    item.HangingLights? || item.PennantBunting? || item.Tinsel? || item.LetterBunting? || item.Garland?
  }

  /** The two kinds whose colour the event handler captures. */
  predicate IsPatternItem(item: Item) {
    item.HangingLights? || item.PennantBunting?
  }

  datatype Stack = Stack(item: Item, count: int, tag: Option<Compound>)

  /** `new ItemStack(item)` */
  function NewStack(item: Item): Stack {
    Stack(item, 1, None)
  }

  /** `ItemStack.isEmpty()` */
  predicate IsEmpty(s: Stack) {
    s.item.Air? || s.count <= 0
  }

  /** `ItemStack.getItem()`: an empty stack reports air whatever item it was made with. */
  function GetItem(s: Stack): Item {
    if IsEmpty(s) then Air else s.item
  }

  /** `ItemStack.hasTag()`: a non-empty stack with a non-empty tag. */
  predicate HasTag(s: Stack) {
    !IsEmpty(s) && s.tag.Some? && s.tag.value != map[]
  }

  const PatternKey := "pattern"
  const StringKey := "string"
  const CapturedColorKey := "CapturedColor"
  const CapturedRgbKey := "CapturedRGB"
  const OriginalColorKey := "OriginalColor"
  const CustomColorKey := "CustomColor"

  /**
    The int `CustomColor` inside the `tag` compound of the first element of
    the `pattern` list, looked up the way the capture and extraction code
    walk it; `None` when any step of the walk fails.
   */
  function PatternColor(tag: Compound): Option<Int32> {
    if !Contains(tag, PatternKey, TagList) then None
    else
      var pattern := GetCompoundList(tag, PatternKey);
      if |pattern| == 0 then None
      else
        var first := ElementCompound(pattern, 0);
        if !Contains(first, "tag", TagCompound) then None
        else
          var itemTag := GetCompound(first, "tag");
          if Contains(itemTag, CustomColorKey, TagInt) then Some(GetInt(itemTag, CustomColorKey)) else None
  }

  /** The tag after `CapturedColor` / `CapturedRGB` are written for raw colour c. */
  function WithCapturedColor(tag: Compound, c: Int32): Compound {
    tag[CapturedColorKey := TStr(Name(ClosestDyeColor(c)))][CapturedRgbKey := TInt(c)]
  }

  /** The stack after colour capture. */
  function Capture(s: Stack): Stack {
    if !HasTag(s) then s
    else
      match PatternColor(s.tag.value)
      case None => s
      case Some(c) => s.(tag := Some(WithCapturedColor(s.tag.value, c)))
  }

  /** The pattern walk reads only the `pattern` key. */
  lemma PatternColorReadsOnlyPattern(tag: Compound, k: string, v: Tag)
    requires k != PatternKey
    ensures PatternColor(tag[k := v]) == PatternColor(tag)
  {
    assert Contains(tag[k := v], PatternKey, TagList) == Contains(tag, PatternKey, TagList);
    assert GetCompoundList(tag[k := v], PatternKey) == GetCompoundList(tag, PatternKey);
  }

  /**
    Capture is a no-op unless the stack has a tag whose first pattern
    element holds an int `CustomColor` c; then it sets exactly
    `CapturedColor` to the name of c's bucket and `CapturedRGB` to c, and
    every other key, the item and the count stay as they were.
   */
  lemma CaptureEffect(s: Stack)
    ensures Capture(s).item == s.item && Capture(s).count == s.count
    ensures !HasTag(s) || PatternColor(s.tag.value).None? ==> Capture(s) == s
    ensures HasTag(s) && PatternColor(s.tag.value).Some? ==>
      var c, before, after := PatternColor(s.tag.value).value, s.tag.value, Capture(s).tag;
      after.Some? &&
      after.value.Keys == before.Keys + {CapturedColorKey, CapturedRgbKey} &&
      after.value[CapturedColorKey] == TStr(Name(ClosestDyeColor(c))) &&
      after.value[CapturedRgbKey] == TInt(c) &&
      forall k :: k in before && k != CapturedColorKey && k != CapturedRgbKey ==> after.value[k] == before[k]
  {
  }

  /** Capturing twice is capturing once: capture reads `pattern` and writes only other keys. */
  lemma CaptureIdempotent(s: Stack)
    ensures Capture(Capture(s)) == Capture(s)
  {
    if HasTag(s) && PatternColor(s.tag.value).Some? {
      var tag, c := s.tag.value, PatternColor(s.tag.value).value;
      var once := tag[CapturedColorKey := TStr(Name(ClosestDyeColor(c)))];
      PatternColorReadsOnlyPattern(tag, CapturedColorKey, TStr(Name(ClosestDyeColor(c))));
      PatternColorReadsOnlyPattern(once, CapturedRgbKey, TInt(c));
      assert PatternColor(WithCapturedColor(tag, c)) == Some(c);
      assert WithCapturedColor(WithCapturedColor(tag, c), c) == WithCapturedColor(tag, c);
    }
  }

  /** A live item stack: the item is fixed for the stack's life; count and tag change in place. */
  class ItemStack {
    const item: Item
    var count: int
    var tag: Option<Compound>

    function Value(): Stack
      reads this
    {
      Stack(item, count, tag)
    }

    constructor (v: Stack)
      ensures Value() == v
    {
      item, count, tag := v.item, v.count, v.tag;
    }

    /** `shrink(n)` */
    method Shrink(n: int)
      modifies this`count
      ensures count == old(count) - n
    {
      count := count - n;
    }
  }

  /**
    `captureColorInformation` / `captureConnectionItemColor`: writes the
    captured keys into the stack's live tag.
   */
  method CaptureColor(stack: ItemStack)
    modifies stack`tag
    ensures stack.Value() == Capture(old(stack.Value()))
  {
    if !HasTag(stack.Value()) {
      return;
    }
    var tag := stack.tag.value;
    if !Contains(tag, PatternKey, TagList) {
      return;
    }
    var pattern := GetCompoundList(tag, PatternKey);
    if |pattern| == 0 {
      return;
    }
    var first := ElementCompound(pattern, 0);
    if Contains(first, "tag", TagCompound) {
      var itemTag := GetCompound(first, "tag");
      if Contains(itemTag, CustomColorKey, TagInt) {
        var color := GetInt(itemTag, CustomColorKey);
        var dye := ClosestDyeColor(color);
        tag := tag[CapturedColorKey := TStr(Name(dye))];
        tag := tag[CapturedRgbKey := TInt(color)];
        stack.tag := Some(tag);
      }
    }
  }
}
