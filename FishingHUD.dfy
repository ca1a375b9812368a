/**
 * The fishing HUD: which text lines the overlay shows, where, and on how
 * large a background, decided from the settings, the held tool, the patch's
 * cache and the live fish count. Drawing itself is not modelled.
 */
module Hud {
  import opened Wrappers
  import opened Host
  import opened Config
  import opened FishCounter
  import opened Patch

  /** The content of one HUD line. */
  datatype HudText =
    | Title                                        // "=== fishing statistics ==="
    | FishCount(totalFish: int)                    // "fish caught: N"
    | StartFishingPrompt                           // "start fishing to get data"
    | BarLength(pixels: int)                       // "bar length: N px"
    | Breakdown(baseHeight: int, bonus: Option<int>) // "(base: B + bonus: P)" or "(base: B)"

  /** A line of text and the screen position it is drawn at. */
  datatype HudLine = HudLine(text: HudText, x: int, y: int)

  datatype Rect = Rect(x: int, y: int, width: int, height: int)

  /** The translucent background and the lines drawn over it. */
  datatype Panel = Panel(background: Rect, lines: seq<HudLine>)

  const LineHeight: int := 32
  const PanelMargin: int := 10
  const PanelWidth: int := 380
  const PlaceholderHeight: int := 110
  const DataPanelHeight: int := 140

  /** The breakdown line: the bonus is mentioned only when it is positive. */
  function BreakdownFor(cache: CacheView): HudText
  {
    Breakdown(cache.lastBaseHeight, if cache.lastBonusPixels > 0 then Some(cache.lastBonusPixels) else None)
  }

  /** The HUD is drawn only with the HUD and the mod enabled and a fishing rod in hand. */
  predicate HudVisible(config: ModConfig, player: Option<Player>)
  {
    config.showFishingHUD && config.enableMod && player.Some? && player.value.holdsFishingRod
  }

  /**
   * What one frame of the HUD shows: nothing when hidden; otherwise a
   * placeholder with the live fish count before any bar was adjusted, or the
   * live fish count with the cached bar figures afterwards. Lines are stacked
   * from (HudXOffset, viewport height - HudYOffset), 32 pixels apart.
   */
  function HudFrame(config: ModConfig, player: Option<Player>, registry: Registry,
                    cache: CacheView, viewportHeight: int): Option<Panel>
    requires player.Some? ==> WellFormed(player.value.fishCaught)
  {
    if !HudVisible(config, player) then None
    else
      var totalFish := TotalFish(player.value.fishCaught, config.excludeAlgae, registry);
      var x := config.hudXOffset;
      var y := viewportHeight - config.hudYOffset;
      if !cache.hasFishingData then
        Some(Panel(Rect(x - PanelMargin, y - PanelMargin, PanelWidth, PlaceholderHeight),
                   [HudLine(Title, x, y),
                    HudLine(FishCount(totalFish), x, y + LineHeight),
                    HudLine(StartFishingPrompt, x, y + 2 * LineHeight)]))
      else
        Some(Panel(Rect(x - PanelMargin, y - PanelMargin, PanelWidth, DataPanelHeight),
                   [HudLine(Title, x, y),
                    HudLine(FishCount(totalFish), x, y + LineHeight),
                    HudLine(BarLength(cache.lastFinalHeight), x, y + 2 * LineHeight),
                    HudLine(BreakdownFor(cache), x, y + 3 * LineHeight)]))
  }

  /** The texts of a panel's lines, top to bottom. */
  function Texts(panel: Panel): seq<HudText>
  {
    seq(|panel.lines|, i requires 0 <= i < |panel.lines| => panel.lines[i].text)
  }

  /** Nothing is drawn when the HUD or the mod is off, or the player holds no fishing rod. */
  lemma HudHiddenIff(config: ModConfig, player: Option<Player>, registry: Registry,
                     cache: CacheView, viewportHeight: int)
    requires player.Some? ==> WellFormed(player.value.fishCaught)
    ensures HudFrame(config, player, registry, cache, viewportHeight) == None <==>
      !config.showFishingHUD || !config.enableMod || player.None? || !player.value.holdsFishingRod
  {
  }

  /**
   * Before any bar was adjusted: exactly three lines (title, live fish count,
   * prompt), no bar-length line, on a 110-pixel background.
   */
  lemma HudPlaceholder(config: ModConfig, player: Option<Player>, registry: Registry,
                       cache: CacheView, viewportHeight: int)
    requires player.Some? ==> WellFormed(player.value.fishCaught)
    requires HudVisible(config, player) && !cache.hasFishingData
    ensures var frame := HudFrame(config, player, registry, cache, viewportHeight);
      && frame.Some?
      && Texts(frame.value) == [Title, FishCount(TotalFish(player.value.fishCaught, config.excludeAlgae, registry)),
                                StartFishingPrompt]
      && (forall t :: t in Texts(frame.value) ==> !t.BarLength?)
      && frame.value.background.height == 110
  {
  }

  /**
   * After a bar was adjusted: four lines (title, live fish count, cached final
   * height, breakdown of the cached base and bonus) on a 140-pixel background.
   */
  lemma HudDataPanel(config: ModConfig, player: Option<Player>, registry: Registry,
                     cache: CacheView, viewportHeight: int)
    requires player.Some? ==> WellFormed(player.value.fishCaught)
    requires HudVisible(config, player) && cache.hasFishingData
    ensures var frame := HudFrame(config, player, registry, cache, viewportHeight);
      && frame.Some?
      && Texts(frame.value) == [Title, FishCount(TotalFish(player.value.fishCaught, config.excludeAlgae, registry)),
                                BarLength(cache.lastFinalHeight), BreakdownFor(cache)]
      && frame.value.background.height == 140
  {
  }

  /** The breakdown shows the cached base, and the bonus exactly when the cached bonus is positive. */
  lemma BreakdownMentionsBonusIff(cache: CacheView)
    ensures BreakdownFor(cache).baseHeight == cache.lastBaseHeight
    ensures BreakdownFor(cache).bonus.Some? <==> cache.lastBonusPixels > 0
    ensures BreakdownFor(cache).bonus.Some? ==> BreakdownFor(cache).bonus.value == cache.lastBonusPixels
  {
  }

  /**
   * Every cache the patch can produce has a positive bonus once it holds
   * data, so the HUD's "base only" breakdown never appears in practice.
   */
  lemma CachedBreakdownAlwaysShowsBonus(config: ModConfig, player: Option<Player>, registry: Registry,
                                        cache: CacheView, viewportHeight: int)
    requires player.Some? ==> WellFormed(player.value.fishCaught)
    requires CacheInvariant(cache)
    requires HudVisible(config, player) && cache.hasFishingData
    ensures var frame := HudFrame(config, player, registry, cache, viewportHeight);
      frame.Some? && |frame.value.lines| == 4 && frame.value.lines[3].text == Breakdown(cache.lastBaseHeight, Some(cache.lastBonusPixels))
  {
  }

  /**
   * Layout: the background starts 10 pixels up and left of the panel origin
   * (HudXOffset, viewport height - HudYOffset) and is 380 wide; line i is at
   * the origin's x and 32 * i pixels below its y.
   */
  lemma HudLayout(config: ModConfig, player: Option<Player>, registry: Registry,
                  cache: CacheView, viewportHeight: int)
    requires player.Some? ==> WellFormed(player.value.fishCaught)
    requires HudVisible(config, player)
    ensures var frame := HudFrame(config, player, registry, cache, viewportHeight);
      var x, y := config.hudXOffset, viewportHeight - config.hudYOffset;
      && frame.Some?
      && frame.value.background.x == x - 10
      && frame.value.background.y == y - 10
      && frame.value.background.width == 380
      && forall i :: 0 <= i < |frame.value.lines| ==>
           frame.value.lines[i].x == x && frame.value.lines[i].y == y + 32 * i
  {
  }

  /** The HUD overlay: it keeps the settings it was created with and only reads the patch's cache. */
  class FishingHud {
    const config: ModConfig

    constructor (config: ModConfig)
      ensures this.config == config
    {
      this.config := config;
    }

    /**
     * One frame of the HUD. The fish count is recomputed from the live catch
     * record; the bar figures come from the patch's cache, which this method
     * cannot modify (it has no modifies clause).
     */
    method Draw(patch: BobberBarPatch, player: Option<Player>, registry: Registry, viewportHeight: int)
      returns (frame: Option<Panel>)
      requires player.Some? ==> WellFormed(player.value.fishCaught)
      ensures frame == HudFrame(config, player, registry, patch.Cache(), viewportHeight)
    {
      if !config.showFishingHUD || !config.enableMod {
        return None;
      }
      if player.None? || !player.value.holdsFishingRod {
        return None;
      }
      var totalFish, validKinds, excludedKinds := GetTotalFishCount(player, config.excludeAlgae, false, registry);
      var x := config.hudXOffset;
      var y := viewportHeight - config.hudYOffset;
      if !patch.hasFishingData {
        var background := Rect(x - PanelMargin, y - PanelMargin, PanelWidth, PlaceholderHeight);
        var currentY := y;
        var lines := [HudLine(Title, x, currentY)];
        currentY := currentY + LineHeight;
        lines := lines + [HudLine(FishCount(totalFish), x, currentY)];
        currentY := currentY + LineHeight;
        lines := lines + [HudLine(StartFishingPrompt, x, currentY)];
        assert lines == [HudLine(Title, x, y), HudLine(FishCount(totalFish), x, y + LineHeight),
                         HudLine(StartFishingPrompt, x, y + 2 * LineHeight)];
        return Some(Panel(background, lines));
      }
      var baseBarHeight := patch.lastBaseHeight;
      var bonusPixels := patch.lastBonusPixels;
      var currentBarHeight := patch.lastFinalHeight;
      var background := Rect(x - PanelMargin, y - PanelMargin, PanelWidth, DataPanelHeight);
      var currentY := y;
      var lines := [HudLine(Title, x, currentY)];
      currentY := currentY + LineHeight;
      lines := lines + [HudLine(FishCount(totalFish), x, currentY)];
      currentY := currentY + LineHeight;
      lines := lines + [HudLine(BarLength(currentBarHeight), x, currentY)];
      currentY := currentY + LineHeight;
      var bonusText := if bonusPixels > 0 then Breakdown(baseBarHeight, Some(bonusPixels)) else Breakdown(baseBarHeight, None);
      lines := lines + [HudLine(bonusText, x, currentY)];
      assert lines == [HudLine(Title, x, y), HudLine(FishCount(totalFish), x, y + LineHeight),
                       HudLine(BarLength(currentBarHeight), x, y + 2 * LineHeight),
                       HudLine(bonusText, x, y + 3 * LineHeight)];
      frame := Some(Panel(background, lines));
    }
  }
}
