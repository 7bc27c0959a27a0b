/**
  `getClosestDyeColor`: an RGB int is split into three 8-bit channels and
  walked through an ordered chain of threshold rules; the first rule whose
  three channel conditions hold names the colour, and White is the
  fallback. The server event handler, the hanging-lights item and the
  pennant-bunting item each carry a copy of this function with the same
  rules in the same order, so all three are this one function.
 */
module Bucketing {
  import opened DyeColors

  /** `(rgb >> 16) & 0xFF`: an arithmetic shift floors, the mask keeps the low 8 bits. */
  function RedChannel(rgb: int): (c: int)
    ensures 0 <= c < 256
  {
    (rgb / 0x1_0000) % 0x100
  }

  /** `(rgb >> 8) & 0xFF` */
  function GreenChannel(rgb: int): (c: int)
    ensures 0 <= c < 256
  {
    (rgb / 0x100) % 0x100
  }

  /** `rgb & 0xFF` */
  function BlueChannel(rgb: int): (c: int)
    ensures 0 <= c < 256
  {
    rgb % 0x100
  }

  /** The if-chain of the source, rule for rule. */
  function ChainColor(r: int, g: int, b: int): DyeColor {
    if r > 200 && g > 200 && b > 200 then White
    else if r < 50 && g < 50 && b < 50 then Black
    else if r > 200 && g < 100 && b < 100 then Red
    else if r < 100 && g > 200 && b < 100 then Lime
    else if r < 100 && g < 100 && b > 200 then Blue
    else if r > 200 && g > 200 && b < 100 then Yellow
    else if r > 200 && g < 100 && b > 200 then Magenta
    else if r < 100 && g > 200 && b > 200 then Cyan
    else if r > 150 && g > 100 && b < 100 then Orange
    else if r > 100 && g < 100 && b > 150 then Purple
    else if r < 100 && g > 150 && b < 100 then Green
    else if r > 150 && g < 150 && b < 150 then Brown
    else if r > 150 && g > 150 && b < 150 then LightGray
    else if r > 100 && g > 100 && b > 100 then Gray
    else if r > 200 && g > 100 && b > 100 then Pink
    else if r < 150 && g > 100 && b > 150 then LightBlue
    else White
  }

  /** `getClosestDyeColor(rgb)` */
  function ClosestDyeColor(rgb: int): DyeColor {
    ChainColor(RedChannel(rgb), GreenChannel(rgb), BlueChannel(rgb))
  }

  // ---------------------------------------------------------------------
  // The rules as data, and first-match search over them: an independent
  // statement of "the first satisfied rule decides, White otherwise".
  // ---------------------------------------------------------------------

  /** A strict bound on one channel. */
  datatype Bound = Above(lo: int) | Below(hi: int)

  predicate Meets(bound: Bound, x: int) {
    match bound
    case Above(lo) => x > lo
    case Below(hi) => x < hi
  }

  datatype Rule = Rule(r: Bound, g: Bound, b: Bound, color: DyeColor)

  predicate Satisfies(rule: Rule, r: int, g: int, b: int) {
    Meets(rule.r, r) && Meets(rule.g, g) && Meets(rule.b, b)
  }

  const RuleCount := 16

  /** The rule table, in the source's order. */
  function RuleAt(i: int): Rule
    requires 0 <= i < RuleCount
  {
    match i
    case 0 => Rule(Above(200), Above(200), Above(200), White)
    case 1 => Rule(Below(50), Below(50), Below(50), Black)
    case 2 => Rule(Above(200), Below(100), Below(100), Red)
    case 3 => Rule(Below(100), Above(200), Below(100), Lime)
    case 4 => Rule(Below(100), Below(100), Above(200), Blue)
    case 5 => Rule(Above(200), Above(200), Below(100), Yellow)
    case 6 => Rule(Above(200), Below(100), Above(200), Magenta)
    case 7 => Rule(Below(100), Above(200), Above(200), Cyan)
    case 8 => Rule(Above(150), Above(100), Below(100), Orange)
    case 9 => Rule(Above(100), Below(100), Above(150), Purple)
    case 10 => Rule(Below(100), Above(150), Below(100), Green)
    case 11 => Rule(Above(150), Below(150), Below(150), Brown)
    case 12 => Rule(Above(150), Above(150), Below(150), LightGray)
    case 13 => Rule(Above(100), Above(100), Above(100), Gray)
    case 14 => Rule(Above(200), Above(100), Above(100), Pink)
    case _ => Rule(Below(150), Above(100), Above(150), LightBlue)
  }

  /** The colour of the first rule at or after position i that the channels satisfy, White when none does. */
  function FirstMatchFrom(i: nat, r: int, g: int, b: int): DyeColor
    decreases RuleCount - i
  {
    if i >= RuleCount then White
    else if Satisfies(RuleAt(i), r, g, b) then RuleAt(i).color
    else FirstMatchFrom(i + 1, r, g, b)
  }

  /** First-match search from position i returns the colour of the earliest satisfied rule at or after i. */
  lemma {:induction false} FirstMatchIsEarliestSatisfied(i: nat, r: int, g: int, b: int, k: int)
    requires i <= k < RuleCount && Satisfies(RuleAt(k), r, g, b)
    requires forall j :: i <= j < k ==> !Satisfies(RuleAt(j), r, g, b)
    ensures FirstMatchFrom(i, r, g, b) == RuleAt(k).color
    decreases k - i
  {
    if i < k {
      assert !Satisfies(RuleAt(i), r, g, b);
      FirstMatchIsEarliestSatisfied(i + 1, r, g, b, k);
    }
  }

  /** First-match search from position i falls back to White when no rule at or after i is satisfied. */
  lemma {:induction false} FirstMatchFallback(i: nat, r: int, g: int, b: int)
    requires forall j :: i <= j < RuleCount ==> !Satisfies(RuleAt(j), r, g, b)
    ensures FirstMatchFrom(i, r, g, b) == White
    decreases RuleCount - i
  {
    if i < RuleCount {
      assert !Satisfies(RuleAt(i), r, g, b);
      FirstMatchFallback(i + 1, r, g, b);
    }
  }

  /** One step of the search. */
  lemma FirstMatchStep(i: nat, r: int, g: int, b: int)
    requires i < RuleCount
    ensures FirstMatchFrom(i, r, g, b) ==
      if Satisfies(RuleAt(i), r, g, b) then RuleAt(i).color else FirstMatchFrom(i + 1, r, g, b)
  {
  }

  /** The source's if-chain is first-match search over the rule table. */
  lemma ChainIsFirstMatch(r: int, g: int, b: int)
    ensures ChainColor(r, g, b) == FirstMatchFrom(0, r, g, b)
  {
    FirstMatchStep(0, r, g, b);
    FirstMatchStep(1, r, g, b);
    FirstMatchStep(2, r, g, b);
    FirstMatchStep(3, r, g, b);
    FirstMatchStep(4, r, g, b);
    FirstMatchStep(5, r, g, b);
    FirstMatchStep(6, r, g, b);
    FirstMatchStep(7, r, g, b);
    FirstMatchStep(8, r, g, b);
    FirstMatchStep(9, r, g, b);
    FirstMatchStep(10, r, g, b);
    FirstMatchStep(11, r, g, b);
    FirstMatchStep(12, r, g, b);
    FirstMatchStep(13, r, g, b);
    FirstMatchStep(14, r, g, b);
    FirstMatchStep(15, r, g, b);
    assert FirstMatchFrom(16, r, g, b) == White;
  }

  /**
    Bucketing is decided by the earliest rule the masked channels satisfy,
    and is White when none is satisfied.
   */
  lemma ClosestIsEarliestSatisfiedRule(rgb: int)
    ensures var r, g, b := RedChannel(rgb), GreenChannel(rgb), BlueChannel(rgb);
      (forall k :: 0 <= k < RuleCount && Satisfies(RuleAt(k), r, g, b) &&
         (forall j :: 0 <= j < k ==> !Satisfies(RuleAt(j), r, g, b))
         ==> ClosestDyeColor(rgb) == RuleAt(k).color) &&
      ((forall j :: 0 <= j < RuleCount ==> !Satisfies(RuleAt(j), r, g, b)) ==> ClosestDyeColor(rgb) == White)
  {
    var r, g, b := RedChannel(rgb), GreenChannel(rgb), BlueChannel(rgb);
    ChainIsFirstMatch(r, g, b);
    forall k | 0 <= k < RuleCount && Satisfies(RuleAt(k), r, g, b) &&
        (forall j :: 0 <= j < k ==> !Satisfies(RuleAt(j), r, g, b))
      ensures ClosestDyeColor(rgb) == RuleAt(k).color
    {
      FirstMatchIsEarliestSatisfied(0, r, g, b, k);
    }
    if forall j :: 0 <= j < RuleCount ==> !Satisfies(RuleAt(j), r, g, b) {
      FirstMatchFallback(0, r, g, b);
    }
  }

  /** The channels read only bits 0..23: masking with 0xFFFFFF changes none of them. */
  lemma ChannelsIgnoreHighByte(rgb: int)
    ensures RedChannel(rgb) == RedChannel(rgb % 0x100_0000)
    ensures GreenChannel(rgb) == GreenChannel(rgb % 0x100_0000)
    ensures BlueChannel(rgb) == BlueChannel(rgb % 0x100_0000)
  {
    var q, m := rgb / 0x100_0000, rgb % 0x100_0000;
    assert rgb == q * 0x100_0000 + m;
    assert rgb / 0x1_0000 == q * 0x100 + m / 0x1_0000;
    assert rgb / 0x100 == q * 0x1_0000 + m / 0x100;
  }

  /** Only the low 24 bits decide the colour. */
  lemma ClosestIgnoresHighByte(rgb: int)
    ensures ClosestDyeColor(rgb) == ClosestDyeColor(rgb % 0x100_0000)
  {
    ChannelsIgnoreHighByte(rgb);
  }

  /** Pure red, white and black land in their own buckets. */
  lemma ClosestOnPrimaries()
    ensures ClosestDyeColor(0xFF0000) == Red
    ensures ClosestDyeColor(0xFFFFFF) == White
    ensures ClosestDyeColor(0x000000) == Black
  {
  }

  /** The Pink rule is dead: every triple it accepts is taken by the earlier Gray rule. */
  lemma ClosestNeverPink(rgb: int)
    ensures ClosestDyeColor(rgb) != Pink
  {
  }

  /** Every colour except Pink is the bucket of some RGB value. */
  lemma ClosestRange(d: DyeColor)
    ensures d != Pink <==> exists rgb :: ClosestDyeColor(rgb) == d
  {
    ClosestNeverPink(0);
    if d != Pink {
      var rgb :=
        match d
        case White => 0xFFFFFF
        case Black => 0x000000
        case Red => 0xFF0000
        case Lime => 0x00FF00
        case Blue => 0x0000FF
        case Yellow => 0xFFFF00
        case Magenta => 0xFF00FF
        case Cyan => 0x00FFFF
        case Orange => 0xFFA500
        case Purple => 0xA000A0
        case Green => 0x00B400
        case Brown => 0xB47878
        case LightGray => 0xB4B478
        case Gray => 0x808080
        case LightBlue => 0x3296B4
        case Pink => 0;
      assert ClosestDyeColor(rgb) == d;
    } else {
      forall rgb ensures ClosestDyeColor(rgb) != d {
        ClosestNeverPink(rgb);
      }
    }
  }
}
