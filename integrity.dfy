/**
  The validity check, colour extraction and repair of connection items:
  `hasValidNBT` and the base `repairNBT` of the connection item, and the
  `repairNBT` / `extractOriginalColor` overrides of the hanging-lights and
  pennant-bunting items (the two overrides have the same body up to the
  recipe they call).
 */
module Integrity {
  import opened Wrappers
  import opened Nbt
  import opened DyeColors
  import opened Bucketing
  import opened Stacks

  /**
    The crafting-recipe builders `makeHangingLights` and `makePennant`, which
    are not part of this model: each takes a stack and a colour and returns
    the built stack, or `None` when it throws.
   */
  datatype Recipes = Recipes(
    makeHangingLights: (Stack, DyeColor) -> Option<Stack>,
    makePennant: (Stack, DyeColor) -> Option<Stack>)

  /** `hasValidNBT` */
  predicate HasValidNbt(s: Stack) {
    if !HasTag(s) then false
    else
      var tag := s.tag.value;
      match GetItem(s)
      case HangingLights => Contains(tag, PatternKey, TagList) && Contains(tag, StringKey, TagString)
      case PennantBunting => Contains(tag, PatternKey, TagList)
      case _ => true
  }

  /** A colour stored by name under key, parsed as `valueOf(name.toUpperCase())`. */
  function StoredColor(tag: Compound, key: string): Option<DyeColor> {
    if Contains(tag, key, TagString) then ValueOf(ToUpper(GetString(tag, key))) else None
  }

  /** `extractOriginalColor` */
  function ExtractOriginalColor(s: Stack): DyeColor {
    if !HasTag(s) then White
    else
      var tag := s.tag.value;
      var captured := StoredColor(tag, CapturedColorKey);
      if captured.Some? then captured.value
      else
        var original := StoredColor(tag, OriginalColorKey);
        if original.Some? then original.value
        else if Contains(tag, CustomColorKey, TagInt) then ClosestDyeColor(GetInt(tag, CustomColorKey))
        else
          match PatternColor(tag)
          case Some(c) => ClosestDyeColor(c)
          case None => White
  }

  /** `repairNBT`, dispatched on the item: the two overrides rebuild from the extracted colour, the base returns null. */
  function RepairNbt(s: Stack, recipes: Recipes): Option<Stack> {
    match s.item
    case HangingLights => recipes.makeHangingLights(NewStack(HangingLights), ExtractOriginalColor(s))
    case PennantBunting => recipes.makePennant(NewStack(PennantBunting), ExtractOriginalColor(s))
    case _ => None
  }

  /** The server's `repairConnectionItemNBT`: a replacement only for a connection item whose NBT is invalid. */
  function RepairConnectionItemNbt(s: Stack, recipes: Recipes): Option<Stack> {
    if IsConnectionItem(GetItem(s)) && !HasValidNbt(s) then RepairNbt(s, recipes) else None
  }

  // ---------------------------------------------------------------------
  // Extraction as a priority list: an independent statement of the order.
  // ---------------------------------------------------------------------

  /** The colour sources extraction consults, highest priority first. */
  function ColorSources(tag: Compound): seq<Option<DyeColor>> {
    [ StoredColor(tag, CapturedColorKey),
      StoredColor(tag, OriginalColorKey),
      if Contains(tag, CustomColorKey, TagInt) then Some(ClosestDyeColor(GetInt(tag, CustomColorKey))) else None,
      match PatternColor(tag) case Some(c) => Some(ClosestDyeColor(c)) case None => None ]
  }

  /** The first source that yields a colour, White when none does. */
  function FirstPresent(sources: seq<Option<DyeColor>>): DyeColor {
    if sources == [] then White
    else if sources[0].Some? then sources[0].value
    else FirstPresent(sources[1..])
  }

  /**
    Extraction takes, in order, the captured colour name, the backup colour
    name, the bucketed top-level `CustomColor` and the bucketed colour of the
    first pattern element, and is White when none is present or when the
    stack has no tag.
   */
  lemma ExtractionPriority(s: Stack)
    ensures !HasTag(s) ==> ExtractOriginalColor(s) == White
    ensures HasTag(s) ==> ExtractOriginalColor(s) == FirstPresent(ColorSources(s.tag.value))
  {
    if HasTag(s) {
      var src := ColorSources(s.tag.value);
      assert src[1..] == [src[1], src[2], src[3]];
      assert src[1..][1..] == [src[2], src[3]];
      assert src[1..][1..][1..] == [src[3]];
      assert src[1..][1..][1..][1..] == [];
      assert FirstPresent(src[1..][1..][1..]) == if src[3].Some? then src[3].value else White;
      assert FirstPresent(src[1..][1..]) == if src[2].Some? then src[2].value else FirstPresent(src[1..][1..][1..]);
      assert FirstPresent(src[1..]) == if src[1].Some? then src[1].value else FirstPresent(src[1..][1..]);
    }
  }

  /** A colour name that does not parse is skipped: removing it leaves the extracted colour unchanged. */
  lemma UnparsableNameFallsThrough(s: Stack, key: string)
    requires key == CapturedColorKey || key == OriginalColorKey
    requires s.tag.Some? && Contains(s.tag.value, key, TagString)
    requires ValueOf(ToUpper(GetString(s.tag.value, key))) == None
    ensures ExtractOriginalColor(s.(tag := Some(s.tag.value - {key}))) == ExtractOriginalColor(s)
  {
    var tag := s.tag.value;
    var t := tag - {key};
    assert StoredColor(tag, key) == None;
    assert forall k :: k != key ==> (k in t <==> k in tag) && (k in t ==> t[k] == tag[k]);
    assert PatternColor(t) == PatternColor(tag) by {
      assert Contains(t, PatternKey, TagList) == Contains(tag, PatternKey, TagList);
      assert GetCompoundList(t, PatternKey) == GetCompoundList(tag, PatternKey);
    }
    if t == map[] {
      assert tag.Keys == {key};
    }
  }

  /** A captured name spelled with a dotless i parses, so it wins over a top-level `CustomColor`. */
  lemma DotlessCapturedNameParses()
    ensures ExtractOriginalColor(Stack(HangingLights, 1, Some(map[
      CapturedColorKey := TStr(['w', 'h', DotlessI, 't', 'e']),
      CustomColorKey := TInt(0xFF_0000)]))) == White
  {
    DotlessIParses();
    var tag := map[CapturedColorKey := TStr(['w', 'h', DotlessI, 't', 'e']), CustomColorKey := TInt(0xFF_0000)];
    assert CapturedColorKey in tag;
    assert GetString(tag, CapturedColorKey) == ['w', 'h', DotlessI, 't', 'e'];
  }

  /** `CapturedRGB` is never read: setting it alone never changes the extracted colour. */
  lemma ExtractIgnoresCapturedRgb(s: Stack, v: Tag)
    ensures var before := if s.tag.Some? then s.tag.value else map[];
      ExtractOriginalColor(s.(tag := Some(before[CapturedRgbKey := v]))) == ExtractOriginalColor(s)
  {
    var before := if s.tag.Some? then s.tag.value else map[];
    var after := before[CapturedRgbKey := v];
    PatternColorReadsOnlyPattern(before, CapturedRgbKey, v);
    assert StoredColor(after, CapturedColorKey) == StoredColor(before, CapturedColorKey);
    assert StoredColor(after, OriginalColorKey) == StoredColor(before, OriginalColorKey);
    assert Contains(after, CustomColorKey, TagInt) == Contains(before, CustomColorKey, TagInt);
    if before == map[] {
      assert !Contains(before, PatternKey, TagList);
    }
  }

  /** Round trip: after a capture from colour c, extraction returns c's bucket. */
  lemma ExtractAfterCapture(s: Stack, c: Int32)
    requires HasTag(s) && PatternColor(s.tag.value) == Some(c)
    ensures ExtractOriginalColor(Capture(s)) == ClosestDyeColor(c)
  {
    ParseOfName(ClosestDyeColor(c));
  }

  /**
    The captured name outlives the pattern: once captured from colour c, any
    later tag of the same non-empty stack that still holds the captured entry
    (whatever else was stripped) extracts c's bucket.
   */
  lemma CapturedColorSurvivesStripping(s: Stack, c: Int32, stripped: Compound)
    requires HasTag(s) && PatternColor(s.tag.value) == Some(c)
    requires CapturedColorKey in stripped
    requires stripped[CapturedColorKey] == Capture(s).tag.value[CapturedColorKey]
    ensures ExtractOriginalColor(s.(tag := Some(stripped))) == ClosestDyeColor(c)
  {
    ParseOfName(ClosestDyeColor(c));
    assert stripped != map[];
  }

  /** Validity per kind; a stack without a tag is never valid, and an empty pattern list is never rejected. */
  lemma ValidityByKind(s: Stack)
    ensures !HasTag(s) ==> !HasValidNbt(s)
    ensures HasTag(s) && s.item.HangingLights? ==>
      (HasValidNbt(s) <==> Contains(s.tag.value, PatternKey, TagList) && Contains(s.tag.value, StringKey, TagString))
    ensures HasTag(s) && s.item.PennantBunting? ==> (HasValidNbt(s) <==> Contains(s.tag.value, PatternKey, TagList))
    ensures HasTag(s) && !IsPatternItem(s.item) ==> HasValidNbt(s)
  {
  }

  /** Pattern emptiness is not checked: hanging lights with an empty pattern list are valid. */
  lemma EmptyPatternIsValid()
    ensures HasValidNbt(Stack(HangingLights, 1, Some(map[PatternKey := TList([]), StringKey := TStr("")])))
    ensures HasValidNbt(Stack(PennantBunting, 1, Some(map[PatternKey := TList([])])))
  {
    var hl := map[PatternKey := TList([]), StringKey := TStr("")];
    assert PatternKey in hl;
  }

  /** Capture never turns a valid stack invalid or an invalid one valid. */
  lemma CapturePreservesValidity(s: Stack)
    ensures HasValidNbt(Capture(s)) == HasValidNbt(s)
  {
    if HasTag(s) && PatternColor(s.tag.value).Some? {
      var c := PatternColor(s.tag.value).value;
      var after := WithCapturedColor(s.tag.value, c);
      assert Contains(after, PatternKey, TagList) == Contains(s.tag.value, PatternKey, TagList);
      assert Contains(after, StringKey, TagString) == Contains(s.tag.value, StringKey, TagString);
    }
  }

  /** The base `repairNBT` returns null, so kinds without an override are never substituted. */
  lemma BaseRepairIsNull(s: Stack, recipes: Recipes)
    requires !IsPatternItem(s.item)
    ensures RepairNbt(s, recipes) == None
    ensures RepairConnectionItemNbt(s, recipes) == None
  {
  }

  /**
    The server's repair yields a replacement only for a non-empty hanging
    lights or pennant bunting stack whose NBT is invalid, and then it is
    exactly the recipe output for the extracted colour; an empty stack
    reports air and is never repaired.
   */
  lemma RepairOnlyInvalidPatternItems(s: Stack, recipes: Recipes)
    ensures RepairConnectionItemNbt(s, recipes).Some? ==> !IsEmpty(s) && IsPatternItem(s.item) && !HasValidNbt(s)
    ensures HasValidNbt(s) || IsEmpty(s) || !IsConnectionItem(s.item) ==> RepairConnectionItemNbt(s, recipes) == None
    ensures !IsEmpty(s) && IsPatternItem(s.item) && !HasValidNbt(s) ==>
      RepairConnectionItemNbt(s, recipes) ==
        if s.item.HangingLights? then recipes.makeHangingLights(NewStack(HangingLights), ExtractOriginalColor(s))
        else recipes.makePennant(NewStack(PennantBunting), ExtractOriginalColor(s))
  {
  }

  /**
    A repair does not depend on how many items the stack holds: the rebuilt
    stack starts from a fresh stack, so a stack of n items is replaced by
    whatever the recipe builds from one.
   */
  lemma RepairIgnoresCount(s: Stack, n: int, recipes: Recipes)
    requires s.count > 0 && n > 0
    ensures RepairNbt(s.(count := n), recipes) == RepairNbt(s, recipes)
  {
    assert ExtractOriginalColor(s.(count := n)) == ExtractOriginalColor(s);
  }

  /** After a capture, a stripped stack is rebuilt in the captured colour. */
  lemma RepairAfterStripping(s: Stack, c: Int32, stripped: Compound, recipes: Recipes)
    requires IsPatternItem(s.item)
    requires HasTag(s) && PatternColor(s.tag.value) == Some(c)
    requires CapturedColorKey in stripped
    requires stripped[CapturedColorKey] == Capture(s).tag.value[CapturedColorKey]
    ensures var t := s.(tag := Some(stripped));
      RepairNbt(t, recipes) ==
        if s.item.HangingLights? then recipes.makeHangingLights(NewStack(HangingLights), ClosestDyeColor(c))
        else recipes.makePennant(NewStack(PennantBunting), ClosestDyeColor(c))
  {
    CapturedColorSurvivesStripping(s, c, stripped);
  }
}
