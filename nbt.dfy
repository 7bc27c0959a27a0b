/**
  Named binary tags, the key/value format in which item stacks carry their
  payload. Only the four tag kinds the connection items read or write are
  modelled, with the lookup rules of the host's CompoundTag and ListTag.
 */
module Nbt {
  /** A Java `int`. */
  type Int32 = x: int | -0x8000_0000 <= x < 0x8000_0000

  datatype Tag =
    | TStr(str: string)
    | TInt(num: Int32)
    | TList(elems: seq<Tag>)
    | TComp(entries: map<string, Tag>)

  type Compound = map<string, Tag>

  /** The host's numeric tag-type identifiers. */
  const TagInt := 3
  const TagString := 8
  const TagList := 9
  const TagCompound := 10

  function TypeId(t: Tag): int {
    match t
    case TStr(_) => TagString
    case TInt(_) => TagInt
    case TList(_) => TagList
    case TComp(_) => TagCompound
  }

  /** `contains(key, type)`: the key is present and holds a tag of exactly that type. */
  predicate Contains(c: Compound, key: string, typeId: int) {
    key in c && TypeId(c[key]) == typeId
  }

  /** `getString(key)`: the string stored under key, or "" for anything else. */
  function GetString(c: Compound, key: string): string {
    if Contains(c, key, TagString) then c[key].str else ""
  }

  /** `getInt(key)` after a `contains(key, TAG_INT)` check. */
  function GetInt(c: Compound, key: string): Int32 {
    if Contains(c, key, TagInt) then c[key].num else 0
  }

  /** `getCompound(key)`: the nested compound, or a fresh empty one. */
  function GetCompound(c: Compound, key: string): Compound {
    if Contains(c, key, TagCompound) then c[key].entries else map[]
  }

  /**
    A host list is homogeneous; its element type is the type of any element.
    The model reads it off element 0.
   */
  predicate HoldsCompounds(l: seq<Tag>) {
    |l| == 0 || l[0].TComp?
  }

  /** `getList(key, TAG_COMPOUND)`: the list if it is empty or holds compounds, else a fresh empty list. */
  function GetCompoundList(c: Compound, key: string): seq<Tag> {
    if Contains(c, key, TagList) && HoldsCompounds(c[key].elems) then c[key].elems else []
  }

  /** `ListTag.getCompound(i)`: element i when it is a compound, else a fresh empty compound. */
  function ElementCompound(l: seq<Tag>, i: int): Compound {
    if 0 <= i < |l| && l[i].TComp? then l[i].entries else map[]
  }
}
