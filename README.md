# FishingBarGrowth, modelled in Dafny

FishingBarGrowth is a Stardew Valley mod that makes the fishing minigame's bar
taller the more fish the player has caught. It also draws a small HUD panel
with the figures behind the adjustment. This project models the mod's core.

- **Fish counter** (`FishCounter.dfy`, module `FishCounter`). Catch-record
  identifiers are normalised to the qualified `(O)` form. Six non-fish items
  are skipped when the exclusion setting is on: seaweed, green and white
  algae, and the three jellies. Every other item counts as a fish when its
  type tag contains "Fish" in any case, or when its category is -4. The
  times-caught counts of the fish are added up. The bonus is that sum divided
  by the fish-per-pixel ratio.
- **Bar-height patch** (`BobberBarPatch.dfy`, module `Patch`). This is a class
  `BobberBarPatch` holding the settings and the four last-computation fields.
  Its `ConstructorPostfix` method rewrites the height of a `BobberBar` object
  in place. It adds the bonus, clamps to a positive `MaxBarHeight`, and caches
  base, bonus and final height for the HUD.
- **HUD** (`FishingHUD.dfy`, module `Hud`). `FishingHud.Draw` decides which
  lines the panel shows and where. It returns them as abstract
  `(text, x, y)` lines over a background rectangle.
- **Settings** (`ModConfig.dfy`, module `Config`). The `ModConfig` record and
  its `Default` value.

Host state becomes explicit inputs, defined in `Host.dfy`:

- `Game1.player` is an `Option<Player>`. A player carries the catch record and
  a flag saying whether the current tool is a fishing rod.
- The catch record is a sequence of `(itemId, stats)` entries, in the order
  the host's dictionary enumerates them. `TotalFishIgnoresOrder` proves that
  order does not matter.
- `ItemRegistry.GetDataOrErrorItem` is a function
  `string -> Option<ItemData>`.
- The UI viewport height is a parameter of `Draw`.
- Whether reflection finds the `bobberBarHeight` field is a boolean input.

`Scenarios.dfy` proves what the model computes for a few concrete inputs.

Notes on the model:

- `GetTotalFishCount` also returns the numbers of fish kinds and rejected
  kinds. In the source these two tallies only feed the debug summary log line.
  The debug flag is a parameter, and no contract depends on it.
- The source's division truncates toward zero (C# `/`). The model writes that
  out in `TruncatingDiv`. For non-negative totals it is floor division
  (`BonusIsQuotient`). For negative totals the model follows C#'s truncating
  `/` instead of rounding down.
- The cache is written only when the bonus is positive. So once the HUD has
  data, its "base only" breakdown (FishingBarGrowth/FishingHUD.cs:86-88) can
  never appear. `CachedBreakdownAlwaysShowsBonus` proves this from the cache
  invariant that `ConstructorPostfix` keeps.
- A positive `MaxBarHeight` below the game's base height shrinks the bar to
  the limit (`FinalHeightKeepsBaseIff`).

## Model

| member | source | states |
|---|---|---|
| `FishCounter.QualifyIsIdempotent` | FishingBarGrowth/FishCounter.cs:105 | a normalised identifier starts with "(", normalising twice is the same as once, and an identifier already starting with "(" is kept unchanged |
| `FishCounter.BareAndPrefixedQualifyAlike` | FishingBarGrowth/FishCounter.cs:102-105 | a bare identifier and the same identifier with "(O)" in front normalise to the same qualified identifier |
| `FishCounter.BareAndPrefixedClassifiedAlike` | FishingBarGrowth/FishCounter.cs:105-125 | "152" and "(O)152" (any bare identifier and its prefixed form) always get the same fish/non-fish verdict |
| `FishCounter.DenylistedNeverValid` | FishingBarGrowth/FishCounter.cs:109-121 | with the exclusion on, (O)152, (O)153, (O)157, (O)812, (O)851 and (O)852 are never fish, whatever their metadata says |
| `FishCounter.UnresolvedNeverValid` | FishingBarGrowth/FishCounter.cs:125-132 | an identifier whose metadata lookup fails is never a fish, with or without the exclusion |
| `FishCounter.ValidFishIff` | FishingBarGrowth/FishCounter.cs:109-159 | an identifier the denylist does not stop (exclusion off, or not listed) is a fish iff its metadata resolves and its type tag is non-null and contains "fish" at some position ignoring case, or its category is exactly -4 |
| `FishCounter.FishCategoryCountsWithoutType` | FishingBarGrowth/FishCounter.cs:148-154 | category -4 makes an item a fish even when its type tag is null |
| `FishCounter.ContainsIgnoreCaseMeansMatch` | FishingBarGrowth/FishCounter.cs:140 | the case-insensitive "contains" scan succeeds iff the pattern occurs, letter for letter ignoring case, at some position of the string |
| `FishCounter.Accepted` | FishingBarGrowth/FishCounter.cs:63-82 | the accepted entries are exactly the catch-record entries that are fish, and there are no more of them than entries |
| `FishCounter.AcceptedCounts` | FishingBarGrowth/FishCounter.cs:63-82 | each fish entry is accepted exactly as many times as the catch record holds it, and every other entry not at all |
| `FishCounter.TotalFishIsSumOverAccepted` | FishingBarGrowth/FishCounter.cs:52-90 | the total is the sum of stats[0] over exactly the entries that are fish |
| `FishCounter.TotalFishAppend` | FishingBarGrowth/FishCounter.cs:52-66 | the total of two parts of a catch record is the sum of their totals |
| `FishCounter.TotalFishIgnoresOrder` | FishingBarGrowth/FishCounter.cs:52-53 | any two enumeration orders of the same catch record (same multiset of entries) give the same total |
| `FishCounter.TotalFishNonNegative` | FishingBarGrowth/FishCounter.cs:56-66 | when every times-caught count is non-negative, so is the total |
| `FishCounter.GetTotalFishCount` | FishingBarGrowth/FishCounter.cs:31-91 | without a player the result is 0; otherwise it is the total over the fish entries, the fish-kind tally is the number of accepted entries, and fish kinds plus rejected kinds is the number of entries; the debug flag plays no part |
| `FishCounter.CalculateBonusPixels` | FishingBarGrowth/FishCounter.cs:168-174 | a ratio of 0 or less gives 0; otherwise the bonus is the quotient truncated toward zero, characterised by bonus·ratio ≤ total < (bonus+1)·ratio for non-negative totals and the mirror bounds for negative ones |
| `FishCounter.BonusIsQuotient` | FishingBarGrowth/FishCounter.cs:173 | for a positive ratio and a non-negative total the bonus is total / ratio |
| `FishCounter.BonusIsMonotone` | FishingBarGrowth/FishCounter.cs:173 | for a fixed positive ratio the bonus is non-negative and never decreases as the non-negative total grows |
| `FishCounter.BonusPositiveIff` | FishingBarGrowth/FishCounter.cs:170-173 | for a positive ratio the bonus is positive iff the total reaches the ratio |
| `Patch.FinalHeight` | FishingBarGrowth/BobberBarPatch.cs:78-84 | the final height is base + bonus when the limit is 0 or less, and the smaller of base + bonus and the limit when it is positive |
| `Patch.FinalHeightKeepsBaseIff` | FishingBarGrowth/BobberBarPatch.cs:81-84 | with a positive bonus the final height is at least the base iff there is no limit or the limit is at least the base; a base above a positive limit is cut down to the limit |
| `Patch.PostfixAppliesIff` | FishingBarGrowth/BobberBarPatch.cs:55-74 | the patch changes anything iff the settings are present, the mod is enabled, a player exists, the bonus is positive and the height field is found |
| `Patch.PostfixSuccess` | FishingBarGrowth/BobberBarPatch.cs:76-89 | a successful run records the game's height as base and the positive bonus, and its final height is the clamped sum: at most a positive limit, exactly base + bonus without one |
| `Patch.PostfixOutcomeFitsCache` | FishingBarGrowth/BobberBarPatch.cs:87-90 | the figures of a successful run satisfy the cache invariant (positive bonus, final ≤ base + bonus) |
| `Patch.DefaultSettingsBehaviour` | FishingBarGrowth/ModConfig.cs:11-46 | the defaults are ratio 10, limit 600, mod on, exclusion on, debug off, HUD on, offsets 20 and 180; under them the bonus is total / 10 and the bar never exceeds 600 |
| `Patch.BobberBarPatch.constructor` | FishingBarGrowth/BobberBarPatch.cs:14-21 | the patch starts without settings and with an empty cache: data flag false, all three figures 0 |
| `Patch.BobberBarPatch.Initialize` | FishingBarGrowth/BobberBarPatch.cs:26-30 | initialisation stores the settings and leaves the cache as it was |
| `Patch.BobberBarPatch.ConstructorPostfix` | FishingBarGrowth/BobberBarPatch.cs:50-108 | when a guard fails (no settings, mod off, no player, bonus ≤ 0, field missing) the bar height and all four cache fields are unchanged; otherwise the bar height and the cache become the final height and (base, bonus, final, true); the settings never change, the data flag once set stays set, and the cache invariant is kept |
| `Hud.HudHiddenIff` | FishingBarGrowth/FishingHUD.cs:28-33 | nothing is drawn iff the HUD is off, the mod is off, there is no player, or the current tool is not a fishing rod |
| `Hud.HudPlaceholder` | FishingBarGrowth/FishingHUD.cs:43-59 | with no cached data exactly three lines appear (title, live fish count, start-fishing prompt), none of them a bar-length line, on a 110-pixel background |
| `Hud.HudDataPanel` | FishingBarGrowth/FishingHUD.cs:62-89 | with cached data four lines appear (title, live fish count, cached final height, breakdown of cached base and bonus) on a 140-pixel background |
| `Hud.BreakdownMentionsBonusIff` | FishingBarGrowth/FishingHUD.cs:86-88 | the breakdown line shows the cached base, and shows the cached bonus iff it is positive |
| `Hud.CachedBreakdownAlwaysShowsBonus` | FishingBarGrowth/FishingHUD.cs:86-88 | for any cache the patch can produce, a HUD with data always shows the bonus in its breakdown line |
| `Hud.HudLayout` | FishingBarGrowth/FishingHUD.cs:39-75 | the background starts at (x−10, y−10) and is 380 wide, where x = HudXOffset and y = viewport height − HudYOffset; line i is drawn at (x, y + 32·i) |
| `Hud.FishingHud.constructor` | FishingBarGrowth/FishingHUD.cs:16-20 | the HUD keeps the settings it was created with |
| `Hud.FishingHud.Draw` | FishingBarGrowth/FishingHUD.cs:25-90 | one frame is exactly the HUD frame for the settings, the player, the live catch record and the patch's current cache; with no modifies clause it cannot write the cache |
| `Scenarios.TwelveSunfishEarnOnePixel` | FishingBarGrowth/FishCounter.cs:168-174 | twelve catches of a fish at one pixel per ten fish earn one bonus pixel |
| `Scenarios.SeaweedExcluded` | FishingBarGrowth/FishCounter.cs:109-121 | fifty seaweed with a "Fish" type tag count 0 with the exclusion on and 50 with it off |
| `Scenarios.ClampedAtLimit` | FishingBarGrowth/BobberBarPatch.cs:81-84 | base 96 with bonus 12 ends at 100 under a limit of 100, and at 108 with no limit |
| `Scenarios.BaseOnlyBreakdown` | FishingBarGrowth/FishingHUD.cs:86-88 | a cache with base 96 and bonus 0 shows only the base in its breakdown |
| `Scenarios.PlaceholderBeforeFirstBar` | FishingBarGrowth/FishingHUD.cs:43-58 | under default settings and before any bar was adjusted, the HUD shows title, the live count and the prompt at (20, h−180), (20, h−148), (20, h−116) |

## Left out

- Log messages and the log sinks (`_logCallback`, `_logDebug`) are side effects only and are not modelled. The debug flag only chooses whether they are called.
- `FishCounter.Initialize` only stores the log callback, so it is not modelled.
- Harmony patching (`TargetMethod`, `[HarmonyPostfix]`) and reflection (`AccessTools.Field`, `GetValue`, `SetValue`) are replaced by a plain `bobberBarHeight` field and a "field found" flag.
- Exceptions in the postfix are modelled only as "field not found, nothing changes". If `SetValue` throws after the cache was written, the source leaves the cache updated and the bar unchanged. The model does not capture that partial failure.
- C# 32-bit overflow is not modelled: integers are unbounded in the running total and in `base + bonus`.
- An entry with an empty statistics array makes the source throw. The model requires every array to be non-empty (`WellFormed`).
- `Contains("Fish", OrdinalIgnoreCase)` is modelled with ASCII case folding only. Non-ASCII case mappings are not modelled.
- `StartsWith("(")` is modelled as an ordinal first-character test. Culture-sensitive matching is not modelled.
- The catch record is a sequence of entries rather than a dictionary. Distinct keys are not required, because the total does not depend on them.
- The real behaviour of `ItemRegistry`, `Game1.player` and `Game1.uiViewport` is host state, and is passed in as inputs.
- Rendering is not modelled: texture creation, `DrawString`, the font, colours, alpha factors and the (+2, +2) text shadow. HUD strings become the abstract `HudText` values.
- The translation callback held by `FishingHUD` is never called by `Draw`, so it is not modelled.
- The settings are a value copied into the patch and the HUD. In the source, the mod entry, the patch and the HUD share one settings object until the settings menu's reset replaces the mod entry's copy (FishingBarGrowth/Program.cs:80). From then on, menu edits go to the new object, and the patch and the HUD keep the old settings. Neither the sharing nor this split is modelled.
- FishingBarGrowth/Program.cs (mod entry, event wiring, settings-menu registration and its numeric bounds) is not part of this model.
- FishingBarGrowth/IGenericModConfigMenuApi.cs is not part of this model either.
