/**
  The sixteen dye colours of the host, in declaration order, with their
  serialized lower-case names, their enum constant names and the
  `valueOf` parser that accepts exactly the enum constant names.
 */
module DyeColors {
  import opened Wrappers

  datatype DyeColor =
    | White | Orange | Magenta | LightBlue | Yellow | Lime | Pink | Gray
    | LightGray | Cyan | Purple | Blue | Brown | Green | Red | Black

  /** `DyeColor.values()`: every colour once, in declaration order. */
  const AllDyes: seq<DyeColor> :=
    [White, Orange, Magenta, LightBlue, Yellow, Lime, Pink, Gray,
     LightGray, Cyan, Purple, Blue, Brown, Green, Red, Black]

  /** `getName()`: the serialized name. */
  function Name(d: DyeColor): string {
    match d
    case White => "white"
    case Orange => "orange"
    case Magenta => "magenta"
    case LightBlue => "light_blue"
    case Yellow => "yellow"
    case Lime => "lime"
    case Pink => "pink"
    case Gray => "gray"
    case LightGray => "light_gray"
    case Cyan => "cyan"
    case Purple => "purple"
    case Blue => "blue"
    case Brown => "brown"
    case Green => "green"
    case Red => "red"
    case Black => "black"
  }

  /** `name()`: the enum constant's identifier. */
  function EnumName(d: DyeColor): string {
    match d
    case White => "WHITE"
    case Orange => "ORANGE"
    case Magenta => "MAGENTA"
    case LightBlue => "LIGHT_BLUE"
    case Yellow => "YELLOW"
    case Lime => "LIME"
    case Pink => "PINK"
    case Gray => "GRAY"
    case LightGray => "LIGHT_GRAY"
    case Cyan => "CYAN"
    case Purple => "PURPLE"
    case Blue => "BLUE"
    case Brown => "BROWN"
    case Green => "GREEN"
    case Red => "RED"
    case Black => "BLACK"
  }

  /** The dotless small i, which every locale upper-cases to `I`. */
  const DotlessI: char := '\U{0131}'

  /**
    One character of `toUpperCase()`: ASCII letters, and the dotless i,
    whose upper case is the ASCII `I`; other characters are kept.
   */
  function UpperChar(c: char): char {
    if 'a' <= c <= 'z' then (c as int - 32) as char
    else if c == DotlessI then 'I'
    else c
  }

  /** `String.toUpperCase()` on ASCII letters and the dotless i; other characters are kept. */
  function ToUpper(s: string): string {
    seq(|s|, i requires 0 <= i < |s| => UpperChar(s[i]))
  }

  /** `DyeColor.valueOf(s)`; `None` is the IllegalArgumentException. */
  function ValueOf(s: string): Option<DyeColor> {
    if s == "WHITE" then Some(White)
    else if s == "ORANGE" then Some(Orange)
    else if s == "MAGENTA" then Some(Magenta)
    else if s == "LIGHT_BLUE" then Some(LightBlue)
    else if s == "YELLOW" then Some(Yellow)
    else if s == "LIME" then Some(Lime)
    else if s == "PINK" then Some(Pink)
    else if s == "GRAY" then Some(Gray)
    else if s == "LIGHT_GRAY" then Some(LightGray)
    else if s == "CYAN" then Some(Cyan)
    else if s == "PURPLE" then Some(Purple)
    else if s == "BLUE" then Some(Blue)
    else if s == "BROWN" then Some(Brown)
    else if s == "GREEN" then Some(Green)
    else if s == "RED" then Some(Red)
    else if s == "BLACK" then Some(Black)
    else None
  }

  /** `values()` lists every colour exactly once. */
  lemma AllDyesEnumeratesEachOnce(d: DyeColor)
    ensures |AllDyes| == 16
    ensures d in AllDyes
    ensures forall i, j :: 0 <= i < j < |AllDyes| ==> AllDyes[i] != AllDyes[j]
  {
  }

  /** `valueOf` accepts a string exactly when it is some colour's enum name, and returns that colour. */
  lemma ValueOfAcceptsExactlyEnumNames(s: string, d: DyeColor)
    ensures ValueOf(s) == Some(d) <==> s == EnumName(d)
  {
  }

  /** Upper-casing a serialized name gives the enum name. */
  lemma UpperOfNameIsEnumName(d: DyeColor)
    ensures ToUpper(Name(d)) == EnumName(d)
  {
  }

  /** A stored name spelled with a dotless i still parses: "whıte" upper-cases to "WHITE". */
  lemma DotlessIParses()
    ensures ValueOf(ToUpper(['w', 'h', DotlessI, 't', 'e'])) == Some(White)
  {
    assert ToUpper(['w', 'h', DotlessI, 't', 'e']) == "WHITE";
  }

  /** The parse used when reading a stored colour name inverts `getName()`. */
  lemma ParseOfName(d: DyeColor)
    ensures ValueOf(ToUpper(Name(d))) == Some(d)
  {
    UpperOfNameIsEnumName(d);
  }
}
