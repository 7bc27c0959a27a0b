/**
  The creative tab's seeding of connection items: one hanging-lights stack
  and one pennant-bunting stack per dye colour, each stamped with the
  colour's name and a fixed RGB value so that its colour can be recovered
  after its NBT is stripped; and `generateCollection`, one dyed stack per
  colour for the other decorative items.
 */
module CreativeTab {
  import opened Wrappers
  import opened Nbt
  import opened DyeColors
  import opened Bucketing
  import opened Stacks
  import opened Integrity

  /** `DyeableItem.setColor`, which is not part of this model. */
  type SetColor = (Stack, DyeColor) -> Stack

  /** `getDyeColorRGB`: the RGB value stamped for each colour. */
  function DyeRgb(d: DyeColor): (rgb: Int32)
    ensures 0 <= rgb <= 0xFF_FFFF
  {
    match d
    case White => 0xFF_FFFF
    case Orange => 0xFF_A500
    case Magenta => 0xFF_00FF
    case LightBlue => 0x87_CEEB
    case Yellow => 0xFF_FF00
    case Lime => 0x99_CC00
    case Pink => 0xFF_C0CB
    case Gray => 0x80_8080
    case LightGray => 0xD3_D3D3
    case Cyan => 0x00_FFFF
    case Purple => 0x80_0080
    case Blue => 0x00_00FF
    case Brown => 0xA5_2A2A
    case Green => 0x00_FF00
    case Red => 0xFF_0000
    case Black => 0x00_0000
  }

  /** Red, white and black are stamped with their pure values. */
  lemma DyeRgbPrimaries()
    ensures DyeRgb(Red) == 0xFF_0000
    ensures DyeRgb(White) == 0xFF_FFFF
    ensures DyeRgb(Black) == 0x00_0000
  {
  }

  /** The bucket of one stamped RGB value. */
  lemma DyeRgbBucket(d: DyeColor)
    ensures ClosestDyeColor(DyeRgb(d)) ==
      match d
      case LightBlue => Gray
      case Lime => Orange
      case Pink => Gray
      case LightGray => White
      case Purple => White
      case Green => Lime
      case _ => d
  {
    match d {
      case White => assert ClosestDyeColor(0xFF_FFFF) == White;
      case Orange => assert ClosestDyeColor(0xFF_A500) == Orange;
      case Magenta => assert ClosestDyeColor(0xFF_00FF) == Magenta;
      case LightBlue => assert ClosestDyeColor(0x87_CEEB) == Gray;
      case Yellow => assert ClosestDyeColor(0xFF_FF00) == Yellow;
      case Lime => assert ClosestDyeColor(0x99_CC00) == Orange;
      case Pink => assert ClosestDyeColor(0xFF_C0CB) == Gray;
      case Gray => assert ClosestDyeColor(0x80_8080) == Gray;
      case LightGray => assert ClosestDyeColor(0xD3_D3D3) == White;
      case Cyan => assert ClosestDyeColor(0x00_FFFF) == Cyan;
      case Purple => assert ClosestDyeColor(0x80_0080) == White;
      case Blue => assert ClosestDyeColor(0x00_00FF) == Blue;
      case Brown => assert ClosestDyeColor(0xA5_2A2A) == Brown;
      case Green => assert ClosestDyeColor(0x00_FF00) == Lime;
      case Red => assert ClosestDyeColor(0xFF_0000) == Red;
      case Black => assert ClosestDyeColor(0x00_0000) == Black;
    }
  }

  /**
    Bucketing a stamped RGB value gives back its colour for ten colours only:
    green's value buckets to lime and light gray's to white, among others.
   */
  lemma DyeRgbBuckets(d: DyeColor)
    ensures ClosestDyeColor(DyeRgb(d)) == d <==>
      d in {White, Orange, Magenta, Yellow, Gray, Cyan, Blue, Brown, Red, Black}
    ensures ClosestDyeColor(DyeRgb(Green)) == Lime
    ensures ClosestDyeColor(DyeRgb(LightGray)) == White
  {
    DyeRgbBucket(d);
    DyeRgbBucket(Green);
    DyeRgbBucket(LightGray);
  }

  /** The stamp of a seeded stack: only a stack with a tag gets the captured name and RGB value. */
  function Stamp(s: Stack, d: DyeColor): Stack {
    if HasTag(s) then s.(tag := Some(s.tag.value[CapturedColorKey := TStr(Name(d))][CapturedRgbKey := TInt(DyeRgb(d))]))
    else s
  }

  /** Stamping adds exactly the two captured keys and changes nothing else; a stack without a tag is left alone. */
  lemma StampAddsOnlyCapturedKeys(s: Stack, d: DyeColor)
    ensures Stamp(s, d).item == s.item && Stamp(s, d).count == s.count
    ensures !HasTag(s) ==> Stamp(s, d) == s
    ensures HasTag(s) ==>
      var before, after := s.tag.value, Stamp(s, d).tag.value;
      after.Keys == before.Keys + {CapturedColorKey, CapturedRgbKey} &&
      after[CapturedColorKey] == TStr(Name(d)) && after[CapturedRgbKey] == TInt(DyeRgb(d)) &&
      forall k :: k in before && k != CapturedColorKey && k != CapturedRgbKey ==> after[k] == before[k]
  {
  }

  /** The seeded hanging-lights stack of a colour; `None` when the recipe builder throws. */
  function LightsSeed(recipes: Recipes, d: DyeColor): Option<Stack> {
    match recipes.makeHangingLights(NewStack(HangingLights), d)
    case None => None
    case Some(s) => Some(Stamp(s, d))
  }

  /** The seeded pennant-bunting stack of a colour: dyed first, then built; `None` when the builder throws. */
  function PennantSeed(recipes: Recipes, setColor: SetColor, d: DyeColor): Option<Stack> {
    match recipes.makePennant(setColor(NewStack(PennantBunting), d), d)
    case None => None
    case Some(s) => Some(Stamp(s, d))
  }

  /**
    A stamped seed with a tag carries its colour: extraction returns the
    seeding colour, and keeps returning it after any stripping that leaves the
    captured name in place.
   */
  lemma SeedRecoversColor(seeded: Stack, built: Stack, d: DyeColor, stripped: Compound)
    requires seeded == Stamp(built, d) && HasTag(seeded)
    requires CapturedColorKey in stripped && stripped[CapturedColorKey] == TStr(Name(d))
    ensures ExtractOriginalColor(seeded) == d
    ensures ExtractOriginalColor(seeded.(tag := Some(stripped))) == d
  {
    ParseOfName(d);
    assert HasTag(built);
    assert stripped != map[];
  }

  /** A seeded stack with a tag extracts its own colour; the pattern colour is never consulted. */
  lemma SeedsExtractTheirColor(recipes: Recipes, setColor: SetColor, d: DyeColor)
    ensures LightsSeed(recipes, d).Some? && HasTag(LightsSeed(recipes, d).value) ==>
      ExtractOriginalColor(LightsSeed(recipes, d).value) == d
    ensures PennantSeed(recipes, setColor, d).Some? && HasTag(PennantSeed(recipes, setColor, d).value) ==>
      ExtractOriginalColor(PennantSeed(recipes, setColor, d).value) == d
  {
    var m := map[CapturedColorKey := TStr(Name(d))];
    match recipes.makeHangingLights(NewStack(HangingLights), d) {
      case None =>
      case Some(s) =>
        if HasTag(Stamp(s, d)) {
          SeedRecoversColor(Stamp(s, d), s, d, m);
        }
    }
    match recipes.makePennant(setColor(NewStack(PennantBunting), d), d) {
      case None =>
      case Some(s) =>
        if HasTag(Stamp(s, d)) {
          SeedRecoversColor(Stamp(s, d), s, d, m);
        }
    }
  }

  /** The hanging-lights loop of the tab: a seed per colour in declaration order, or `None` if a build throws. */
  method SeedHangingLights(recipes: Recipes) returns (out: Option<seq<Stack>>)
    ensures out.Some? <==> forall i :: 0 <= i < |AllDyes| ==> LightsSeed(recipes, AllDyes[i]).Some?
    ensures out.Some? ==> (|out.value| == |AllDyes| &&
      forall i :: 0 <= i < |AllDyes| ==> LightsSeed(recipes, AllDyes[i]) == Some(out.value[i]))
  {
    var stacks: seq<Stack> := [];
    for i := 0 to |AllDyes|
      invariant |stacks| == i
      invariant forall j :: 0 <= j < i ==> LightsSeed(recipes, AllDyes[j]) == Some(stacks[j])
    {
      var color := AllDyes[i];
      var hangingLights := recipes.makeHangingLights(NewStack(HangingLights), color);
      if hangingLights.None? {
        return None;
      }
      stacks := stacks + [Stamp(hangingLights.value, color)];
    }
    return Some(stacks);
  }

  /** The pennant-bunting loop of the tab: each stack is dyed, built and stamped. */
  method SeedPennantBunting(recipes: Recipes, setColor: SetColor) returns (out: Option<seq<Stack>>)
    ensures out.Some? <==> forall i :: 0 <= i < |AllDyes| ==> PennantSeed(recipes, setColor, AllDyes[i]).Some?
    ensures out.Some? ==> (|out.value| == |AllDyes| &&
      forall i :: 0 <= i < |AllDyes| ==> PennantSeed(recipes, setColor, AllDyes[i]) == Some(out.value[i]))
  {
    var stacks: seq<Stack> := [];
    for i := 0 to |AllDyes|
      invariant |stacks| == i
      invariant forall j :: 0 <= j < i ==> PennantSeed(recipes, setColor, AllDyes[j]) == Some(stacks[j])
    {
      var color := AllDyes[i];
      var stack := setColor(NewStack(PennantBunting), color);
      var pennantBunting := recipes.makePennant(stack, color);
      if pennantBunting.None? {
        return None;
      }
      stacks := stacks + [Stamp(pennantBunting.value, color)];
    }
    return Some(stacks);
  }

  /** `generateCollection(item)`: one dyed stack of the item per colour, in declaration order. */
  method GenerateCollection(item: Item, setColor: SetColor) returns (stacks: seq<Stack>)
    ensures |stacks| == |AllDyes| == 16
    ensures forall i :: 0 <= i < |AllDyes| ==> stacks[i] == setColor(NewStack(item), AllDyes[i])
  {
    stacks := [];
    for i := 0 to |AllDyes|
      invariant |stacks| == i
      invariant forall j :: 0 <= j < i ==> stacks[j] == setColor(NewStack(item), AllDyes[j])
    {
      stacks := stacks + [setColor(NewStack(item), AllDyes[i])];
    }
  }
}
