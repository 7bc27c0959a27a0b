# Fairy Lights: colour recovery and connection items

A Dafny model of the layer of the Fairy Lights mod that keeps connection
items (hanging lights, pennant bunting, tinsel, letter bunting, garland)
usable when a server strips their NBT:

- **bucketing** (`getClosestDyeColor`): an RGB int is split into three
  8-bit channels and walked through an ordered chain of threshold rules,
  White being the fallback. The server event handler and both pattern items
  carry an identical copy; the model has one function and proves the chain
  equal to a first-match search over a rule table.
- **colour capture** (`captureConnectionItemColor`,
  `captureColorInformation`): the colour of the first pattern element is
  bucketed and written into the stack's tag as `CapturedColor` (a dye name)
  and `CapturedRGB`, in place on the live stack.
- **validity, extraction and repair** (`hasValidNBT`,
  `extractOriginalColor`, `repairNBT`): a stripped hanging-lights or
  pennant-bunting stack is rebuilt from the best colour still recoverable.
- **server events**: the capture sweeps on container open and close, the
  capture on pickup, the repair sweep on login and the fence right-click
  rules of `onRightClickBlock`.
- **using a connection item** (`ConnectionItem.useOn`): repair of the held
  stack, the guard against a connection pending from another item, target
  resolution (existing fastener, placed fastener, fence) and the `connect`
  overloads that decide consumption and the connect sound.
- **the creative tab**: the per-colour RGB table, the stamping of seeded
  stacks and `generateCollection`.

NBT is modelled as `Nbt.Tag` (string, 32-bit int, list, compound) with the
host's typed lookups: `contains(key, type)` matches the type exactly and the
getters return defaults. `ItemStack` is both a value (`Stacks.Stack`) and a
class (`Stacks.ItemStack`) whose count and tag methods change in place; the
player inventory is `ServerEvents.Inventory`, an array of stacks.

The world, the fasteners and the recipes are inputs, not computations. The
inputs are: what the world answers about a clicked site (`ConnectionItems.Site`),
the player's fastener capability and its pending connection
(`ConnectionItems.Capability`), `NbtUtils.compareNbt`, the recipe builders
`makeHangingLights`/`makePennant` (`Integrity.Recipes`, where `None` means
the builder threw) and `DyeableItem.setColor`.

Behaviour of the code worth noting, which the model follows:

- validity never checks that the pattern list is non-empty (`Integrity.EmptyPatternIsValid`);
- a new connection from a player that has the fastener capability consumes
  nothing. Only a successful reconnect consumes an item, and so does every
  connect made with a temporary player fastener, whether or not it throws
  (`ConnectionItems.ConsumptionRules`);
- when the target has no fastener capability, `connect` is skipped and
  nothing is consumed (`ConnectionItems.ConnectTarget`);
- nothing is undone when a connect fails: a temporary-fastener connect
  that throws still consumes its item (`ConnectionItems.Connect`);
- a fence that already holds another hanging entity makes `useOn` return
  PASS, with nothing else done (`ConnectionItems.ResolveTargetIsFirstApplicable`);
- a main-hand lead with a connection item in the off hand is cancelled
  outright by `onRightClickBlock` (`FenceClick.OffhandConnectionRules`); a
  used-up lead reports air and is only denied block use
  (`FenceClick.EmptyStacksReportAir`).

## Model

| member | source | states |
|---|---|---|
| DyeColors.AllDyesEnumeratesEachOnce | src/main/java/me/paulf/fairylights/server/creativetabs/FairyLightsItemGroup.java:39-40 | `DyeColor.values()` lists each of the 16 colours exactly once, in declaration order |
| DyeColors.ValueOfAcceptsExactlyEnumNames | src/main/java/me/paulf/fairylights/server/item/HangingLightsConnectionItem.java:114-121 | `valueOf` yields colour d exactly for d's upper-case enum name and throws (None) for every other string |
| DyeColors.UpperOfNameIsEnumName | src/main/java/me/paulf/fairylights/server/item/PennantBuntingConnectionItem.java:109-116 | upper-casing a colour's serialized name gives its enum name |
| DyeColors.ParseOfName | src/main/java/me/paulf/fairylights/server/item/HangingLightsConnectionItem.java:116-118 | a captured name parses back: `valueOf(getName().toUpperCase())` returns the same colour |
| DyeColors.DotlessIParses | src/main/java/me/paulf/fairylights/server/item/HangingLightsConnectionItem.java:116-118 | a stored name spelled with the dotless i ("whıte") upper-cases to WHITE and parses |
| Bucketing.RedChannel | src/main/java/me/paulf/fairylights/server/ServerEventHandler.java:326 | the red channel `(rgb >> 16) & 0xFF` lies in 0..255 |
| Bucketing.GreenChannel | src/main/java/me/paulf/fairylights/server/ServerEventHandler.java:327 | the green channel `(rgb >> 8) & 0xFF` lies in 0..255 |
| Bucketing.BlueChannel | src/main/java/me/paulf/fairylights/server/ServerEventHandler.java:328 | the blue channel `rgb & 0xFF` lies in 0..255 |
| Bucketing.FirstMatchIsEarliestSatisfied | src/main/java/me/paulf/fairylights/server/ServerEventHandler.java:331-346 | first-match search returns the colour of the earliest rule the channels satisfy |
| Bucketing.FirstMatchFallback | src/main/java/me/paulf/fairylights/server/ServerEventHandler.java:349 | first-match search returns White when no remaining rule is satisfied |
| Bucketing.ChainIsFirstMatch | src/main/java/me/paulf/fairylights/server/ServerEventHandler.java:324-350 | the if-chain equals first-match search over the 16-rule table in the same order |
| Bucketing.ClosestIsEarliestSatisfiedRule | src/main/java/me/paulf/fairylights/server/item/HangingLightsConnectionItem.java:169-196 | bucketing returns the colour of the earliest satisfied rule, and White when none is satisfied |
| Bucketing.ChannelsIgnoreHighByte | src/main/java/me/paulf/fairylights/server/ServerEventHandler.java:326-328 | each masked channel is the same for rgb and rgb & 0xFFFFFF |
| Bucketing.ClosestIgnoresHighByte | src/main/java/me/paulf/fairylights/server/item/PennantBuntingConnectionItem.java:164-172 | only the low 24 bits decide the colour: rgb and rgb & 0xFFFFFF bucket identically |
| Bucketing.ClosestOnPrimaries | src/main/java/me/paulf/fairylights/server/ServerEventHandler.java:331-333 | 0xFF0000 buckets to Red, 0xFFFFFF to White and 0x000000 to Black |
| Bucketing.ClosestNeverPink | src/main/java/me/paulf/fairylights/server/ServerEventHandler.java:344-345 | no int buckets to Pink: every triple the Pink rule accepts is taken by the earlier Gray rule |
| Bucketing.ClosestRange | src/main/java/me/paulf/fairylights/server/item/PennantBuntingConnectionItem.java:164-190 | a colour is the bucket of some int exactly when it is not Pink |
| Stacks.PatternColorReadsOnlyPattern | src/main/java/me/paulf/fairylights/server/ServerEventHandler.java:297-308 | the pattern colour lookup is unaffected by writing any key other than `pattern` |
| Stacks.CaptureEffect | src/main/java/me/paulf/fairylights/server/ServerEventHandler.java:294-319 | capture is a no-op unless the stack has a tag whose first pattern element has an int `CustomColor` c; then it sets exactly `CapturedColor` to c's bucket name and `CapturedRGB` to c, leaving item, count and every other key as they were |
| Stacks.CaptureIdempotent | src/main/java/me/paulf/fairylights/server/item/HangingLightsConnectionItem.java:54-78 | capturing twice equals capturing once |
| Stacks.ItemStack.Shrink | src/main/java/me/paulf/fairylights/server/item/ConnectionItem.java:197 | `shrink(n)` lowers the count by n and changes nothing else |
| Stacks.CaptureColor | src/main/java/me/paulf/fairylights/server/item/PennantBuntingConnectionItem.java:49-73 | the in-place capture leaves the stack holding exactly the captured value |
| Integrity.ExtractionPriority | src/main/java/me/paulf/fairylights/server/item/HangingLightsConnectionItem.java:104-164 | extraction is White without a tag, else the first present of: parsed `CapturedColor`, parsed `OriginalColor`, bucketed top-level `CustomColor`, bucketed first-pattern `CustomColor`, White |
| Integrity.UnparsableNameFallsThrough | src/main/java/me/paulf/fairylights/server/item/HangingLightsConnectionItem.java:114-133 | a `CapturedColor` or `OriginalColor` string that does not parse is skipped: removing it does not change the extracted colour |
| Integrity.DotlessCapturedNameParses | src/main/java/me/paulf/fairylights/server/item/HangingLightsConnectionItem.java:114-121 | a captured name with a dotless i parses and wins over a top-level `CustomColor` |
| Integrity.ExtractIgnoresCapturedRgb | src/main/java/me/paulf/fairylights/server/item/PennantBuntingConnectionItem.java:99-159 | `CapturedRGB` is never read: setting it alone never changes the extracted colour |
| Integrity.ExtractAfterCapture | src/main/java/me/paulf/fairylights/server/item/HangingLightsConnectionItem.java:54-78 | round trip: after a capture from colour c, extraction returns c's bucket |
| Integrity.CapturedColorSurvivesStripping | src/main/java/me/paulf/fairylights/server/item/PennantBuntingConnectionItem.java:108-113 | once captured, any stripped tag that still holds the captured entry extracts the captured bucket |
| Integrity.ValidityByKind | src/main/java/me/paulf/fairylights/server/item/ConnectionItem.java:107-127 | no tag means invalid for every kind; hanging lights need a `pattern` list and a `string` string, pennant bunting a `pattern` list, other kinds only a tag |
| Integrity.EmptyPatternIsValid | src/main/java/me/paulf/fairylights/server/item/ConnectionItem.java:115-122 | an empty `pattern` list is accepted for both pattern items |
| Integrity.CapturePreservesValidity | src/main/java/me/paulf/fairylights/server/item/ConnectionItem.java:107-127 | capture never changes whether a stack is valid |
| Integrity.BaseRepairIsNull | src/main/java/me/paulf/fairylights/server/item/ConnectionItem.java:133-137 | kinds without a repair override are never substituted |
| Integrity.RepairOnlyInvalidPatternItems | src/main/java/me/paulf/fairylights/server/ServerEventHandler.java:212-220 | the server's repair yields a stack only for a non-empty, invalid hanging-lights or pennant-bunting stack (an empty stack reports air), and then exactly the recipe output for the extracted colour |
| Integrity.RepairIgnoresCount | src/main/java/me/paulf/fairylights/server/item/PennantBuntingConnectionItem.java:76-93 | the repair rebuilds from a fresh stack, so it does not depend on the stack's count |
| Integrity.RepairAfterStripping | src/main/java/me/paulf/fairylights/server/item/HangingLightsConnectionItem.java:81-98 | a stripped stack whose captured entry survives is rebuilt in the captured colour |
| ServerEvents.CaptureSlotIdempotent | src/main/java/me/paulf/fairylights/server/ServerEventHandler.java:124-134 | visiting the same stack twice in a capture sweep equals visiting it once |
| ServerEvents.RepairSlotReplacesOnlyBrokenPatternItems | src/main/java/me/paulf/fairylights/server/ServerEventHandler.java:185-195 | a visit of the sweep replaces a slot exactly when it holds a non-empty, invalid hanging-lights or pennant-bunting stack and the repair succeeded, and then puts in the repaired stack; valid stacks and other items stay |
| ServerEvents.OffhandSecondVisit | src/main/java/me/paulf/fairylights/server/ServerEventHandler.java:197-206 | the second visit of the off hand changes nothing unless the first visit put in an invalid rebuilt pattern item |
| ServerEvents.Inventory.SetItemInHand | src/main/java/me/paulf/fairylights/server/item/ConnectionItem.java:65 | `setItemInHand` replaces exactly the hand's slot |
| ServerEvents.Inventory.CaptureAll | src/main/java/me/paulf/fairylights/server/ServerEventHandler.java:141-151 | on the server every slot ends as its capture sweep result and counts are untouched; on the client nothing changes |
| ServerEvents.Inventory.CheckAndRepairInventoryNbt | src/main/java/me/paulf/fairylights/server/ServerEventHandler.java:183-207 | every slot other than the off hand ends repaired once; the off hand ends repaired twice; a slot replaced by either visit holds a fresh stack and every other slot keeps the same object |
| ServerEvents.Inventory.OnPlayerLoggedIn | src/main/java/me/paulf/fairylights/server/ServerEventHandler.java:112-117 | on the server the login runs the repair sweep; on the client nothing changes |
| ServerEvents.OnPlayerPickupItem | src/main/java/me/paulf/fairylights/server/ServerEventHandler.java:158-165 | on the server a picked-up pattern item is captured; otherwise it is unchanged |
| FenceClick.FindLeashedToPlayer | src/main/java/me/paulf/fairylights/server/ServerEventHandler.java:269-281 | the mob scan finds a mob exactly when one in the box is leashed to the player |
| FenceClick.DecideFenceClick | src/main/java/me/paulf/fairylights/server/ServerEventHandler.java:254-287 | the step-by-step decision equals the cancel/deny decision function |
| FenceClick.OnRightClickBlock | src/main/java/me/paulf/fairylights/server/ServerEventHandler.java:243-288 | the held pattern item is captured first, then the fence click is decided on the items the held and off-hand stacks report, air for an empty stack |
| FenceClick.NonFenceUntouched | src/main/java/me/paulf/fairylights/server/ServerEventHandler.java:254-256 | a click on a block that is not a fence is neither cancelled nor denied |
| FenceClick.OffhandConnectionRules | src/main/java/me/paulf/fairylights/server/ServerEventHandler.java:257-268 | with a connection item in the off hand, a main-hand lead is cancelled outright and anything else has block use denied |
| FenceClick.CancelOnlyForHangingConflict | src/main/java/me/paulf/fairylights/server/ServerEventHandler.java:282-287 | a click is cancelled exactly for the off-hand lead case or when the hanging check applies and finds a hanging entity that is not a leash knot; denial only for a main-hand click with a connection item in the off hand |
| FenceClick.EmptyStacksReportAir | src/main/java/me/paulf/fairylights/server/ServerEventHandler.java:257-266 | a used-up lead (count 0) reports air, so with a connection item in the off hand it is only denied block use, while a lead of count 1 is cancelled; an empty off-hand stack never triggers the off-hand rules |
| ConnectionItems.ConsumptionRules | src/main/java/me/paulf/fairylights/server/item/ConnectionItem.java:183-229 | a pending connection consumes 1 exactly when it reconnects, and a refused reconnect plays no sound; a new connection consumes 0 and carries the stack's tag or an empty compound; without the capability 1 is consumed whether creation throws or not |
| ConnectionItems.Connect | src/main/java/me/paulf/fairylights/server/item/ConnectionItem.java:192-227 | the in-place connect shrinks the stack by the consumed count of its outcome |
| ConnectionItems.ResolveTargetIsFirstApplicable | src/main/java/me/paulf/fairylights/server/item/ConnectionItem.java:81-100 | the target is the first that applies of existing fastener block, placeable surviving fastener, fence with no hanging entity or a fence fastener |
| ConnectionItems.NoPlayerPasses | src/main/java/me/paulf/fairylights/server/item/ConnectionItem.java:54-57 | with no player, `useOn` returns PASS with no repair and no connection |
| ConnectionItems.UseOnRules | src/main/java/me/paulf/fairylights/server/item/ConnectionItem.java:59-100 | a valid stack is not replaced; a different pending connection gives PASS without connecting; SUCCESS exactly when the guard passes and a target applies; connections only on the server |
| ConnectionItems.ReconnectOnlyForMatchingStack | src/main/java/me/paulf/fairylights/server/item/ConnectionItem.java:139-153 | a pending connection reaches `connect` only with a stack it belongs to (empty logic and no tag, or logic partially matching the tag), and then 1 item is consumed exactly when it reconnects |
| ConnectionItems.RepairHeld | src/main/java/me/paulf/fairylights/server/item/ConnectionItem.java:59-68 | an invalid held stack with a successful repair is replaced in the hand by a fresh stack; otherwise the hand is untouched |
| ConnectionItems.ConnectTarget | src/main/java/me/paulf/fairylights/server/item/ConnectionItem.java:155-177 | on the server each target connects through its fastener when the capability is there, the existing block with the sound and the placed block without it |
| ConnectionItems.UseStack | src/main/java/me/paulf/fairylights/server/item/ConnectionItem.java:74-100 | after repair, `useOn` follows the guard, resolution and connect plan and shrinks the stack by what the connect consumed |
| ConnectionItems.UseWithPlayer | src/main/java/me/paulf/fairylights/server/item/ConnectionItem.java:58-100 | with a player, the hand ends with the repaired stack less the consumed items, or the held stack less them |
| ConnectionItems.UseOn | src/main/java/me/paulf/fairylights/server/item/HangingLightsConnectionItem.java:38-48 | the pattern items capture first and then defer: the result is the plan for the captured stack |
| CreativeTab.DyeRgb | src/main/java/me/paulf/fairylights/server/creativetabs/FairyLightsItemGroup.java:117-137 | every table value lies in 0..0xFFFFFF |
| CreativeTab.DyeRgbPrimaries | src/main/java/me/paulf/fairylights/server/creativetabs/FairyLightsItemGroup.java:119-134 | Red is 0xFF0000, White 0xFFFFFF, Black 0x000000 |
| CreativeTab.DyeRgbBucket | src/main/java/me/paulf/fairylights/server/creativetabs/FairyLightsItemGroup.java:122-132 | the bucket of each table value, e.g. light blue's 0x87CEEB buckets to Gray |
| CreativeTab.DyeRgbBuckets | src/main/java/me/paulf/fairylights/server/creativetabs/FairyLightsItemGroup.java:127-132 | bucketing a table value returns its colour only for ten colours; Green's value buckets to Lime and Light Gray's to White |
| CreativeTab.StampAddsOnlyCapturedKeys | src/main/java/me/paulf/fairylights/server/creativetabs/FairyLightsItemGroup.java:44-50 | stamping adds exactly `CapturedColor` = name and `CapturedRGB` = table value to a stack with a tag, and leaves a stack without one alone |
| CreativeTab.SeedRecoversColor | src/main/java/me/paulf/fairylights/server/creativetabs/FairyLightsItemGroup.java:62-68 | a stamped seed extracts its seeding colour, also after stripping that keeps the captured name |
| CreativeTab.SeedsExtractTheirColor | src/main/java/me/paulf/fairylights/server/creativetabs/FairyLightsItemGroup.java:39-71 | every seeded hanging-lights and pennant-bunting stack with a tag extracts its own colour |
| CreativeTab.SeedHangingLights | src/main/java/me/paulf/fairylights/server/creativetabs/FairyLightsItemGroup.java:39-53 | 16 stamped hanging-lights seeds in colour order, or None when a build throws |
| CreativeTab.SeedPennantBunting | src/main/java/me/paulf/fairylights/server/creativetabs/FairyLightsItemGroup.java:55-71 | 16 dyed, built and stamped pennant-bunting seeds in colour order, or None when a build throws |
| CreativeTab.GenerateCollection | src/main/java/me/paulf/fairylights/server/creativetabs/FairyLightsItemGroup.java:107-115 | exactly 16 stacks, the i-th the item dyed with the i-th colour |

## Left out

- Event and capability plumbing (`onEntityJoinWorld`, the `onAttach*` handlers, `ensurePlayerCapability`): capability presence is an input. `ensurePlayerCapability` builds a fastener and discards it, so the model assumes it changes nothing.
- `onPlayerTick` and `onNoteBlockPlay`: network broadcasts, sounds, particles and floating-point pitch.
- `tryJingle`: random jingle choice and chunk broadcast.
- World and vanilla calls (`setBlock`, `canSurvive`, `BlockPlaceContext.canPlace`, `FenceFastenerEntity.findHanging`/`create`, the mob box scan, `NbtUtils.compareNbt`): their answers are inputs.
- Fastener and connection internals (`reconnect`, `getFirstConnection`, `onConnect`, `serializeLogic`, `fastener.connect`, `update`): their results are inputs. The model records which connect action happens; the fastener state it changes is not modelled.
- `FLCraftingRecipes.makeHangingLights`/`makePennant` and `DyeableItem.setColor`: inputs; a builder that throws is `None`.
- Sounds, placement sounds, `setPlacedBy`, spawning of the fence fastener entity and logging. The model keeps only the connect-sound flag.
- Tooltips (`appendHoverText`), the string-type registry lookups, and the creative tab's registration, icon and title.
- The rest of the creative-tab catalogue (tinsel, letter bunting, garland, pennants and lights, lanterns). It is built with `generateCollection` (modelled) and plain stacks.
- ConnectionItems.UseOn: an exception thrown by `fastener.connect` when the player's capability is present escapes `useOn`; the model treats that call as not throwing.
- ServerEvents.Inventory.CheckAndRepairInventoryNbt: the `repairedStack != stack` identity test is always true for a rebuilt stack, so the model replaces whenever the repair returns a stack.
- DyeColors.ToUpper: upper-cases the ASCII letters and the dotless i (which becomes `I` in every locale); every other character is kept. Java's root-locale `toUpperCase()` also maps other characters, such as the long s, the sharp s and the ligatures, to S, SS, F or T sequences; no dye enum name contains those letters, so they cannot make a name parse. Java's `toUpperCase()` uses the default locale, and under a Turkish or Azeri locale it maps `i` to a dotted capital I, so `valueOf` rejects the upper-cased names of white, lime, pink, light blue and light gray and extraction falls through to the next colour source. DyeColors.UpperOfNameIsEnumName, DyeColors.ParseOfName, Integrity.ExtractAfterCapture, Integrity.CapturedColorSurvivesStripping, Integrity.RepairAfterStripping, CreativeTab.SeedRecoversColor and CreativeTab.SeedsExtractTheirColor hold only under a default locale that upper-cases `i` to `I`.
- Stacks.HasTag: modelled as the host's `hasTag` (a non-empty stack whose tag is present and non-empty), which is not part of this model's sources.
