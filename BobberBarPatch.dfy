/**
 * The bar-height patch: after the game builds a fishing bar, add the bonus
 * pixels to its height, clamp to the configured maximum, and remember the
 * three figures for the HUD.
 */
module Patch {
  import opened Wrappers
  import opened Host
  import opened Config
  import opened FishCounter

  /** The game's fishing-minigame bar; only the height field the patch rewrites is modelled. */
  class BobberBar {
    var bobberBarHeight: int

    constructor (height: int)
      ensures bobberBarHeight == height
    {
      bobberBarHeight := height;
    }
  }

  /** The figures of one successful adjustment: the game's height, the bonus and the height written back. */
  datatype BarStats = BarStats(baseHeight: int, bonusPixels: int, finalHeight: int)

  /** The last-computation cache as the HUD reads it. */
  datatype CacheView = CacheView(hasFishingData: bool, lastBaseHeight: int, lastBonusPixels: int, lastFinalHeight: int)

  /**
   * The base height plus the bonus, cut down to the maximum when the maximum
   * is positive; a maximum of 0 or less leaves the sum unbounded.
   */
  function FinalHeight(baseHeight: int, bonusPixels: int, maxBarHeight: int): (height: int)
    ensures height <= baseHeight + bonusPixels
    ensures maxBarHeight > 0 ==> height <= maxBarHeight
    ensures height == baseHeight + bonusPixels || (maxBarHeight > 0 && height == maxBarHeight)
  {
    var newHeight := baseHeight + bonusPixels;
    if maxBarHeight > 0 && newHeight > maxBarHeight then maxBarHeight else newHeight
  }

  /**
   * With a positive bonus, the bar ends at least as high as the game made it
   * exactly when there is no limit or the limit is not below the base; a base
   * already above the limit is cut down to the limit.
   */
  lemma FinalHeightKeepsBaseIff(baseHeight: int, bonusPixels: int, maxBarHeight: int)
    requires bonusPixels > 0
    ensures FinalHeight(baseHeight, bonusPixels, maxBarHeight) >= baseHeight
        <==> maxBarHeight <= 0 || maxBarHeight >= baseHeight
    ensures maxBarHeight > 0 && maxBarHeight < baseHeight ==>
      FinalHeight(baseHeight, bonusPixels, maxBarHeight) == maxBarHeight
  {
  }

  /**
   * What one run of the constructor postfix computes: None when it leaves
   * the bar and the cache alone (no settings, mod disabled, no player, no
   * positive bonus, height field missing), otherwise the three figures.
   */
  function PostfixOutcome(config: Option<ModConfig>, player: Option<Player>, registry: Registry,
                          heightFieldFound: bool, baseHeight: int): Option<BarStats>
    requires player.Some? ==> WellFormed(player.value.fishCaught)
  {
    if config.None? || !config.value.enableMod || player.None? then None
    else
      var totalFish := TotalFish(player.value.fishCaught, config.value.excludeAlgae, registry);
      var bonusPixels := CalculateBonusPixels(totalFish, config.value.fishPerPixel);
      if bonusPixels <= 0 then None
      else if !heightFieldFound then None
      else Some(BarStats(baseHeight, bonusPixels, FinalHeight(baseHeight, bonusPixels, config.value.maxBarHeight)))
  }

  /** The bonus the patch would compute for the given settings and player. */
  function BonusFor(config: ModConfig, player: Player, registry: Registry): int
    requires WellFormed(player.fishCaught)
  {
    CalculateBonusPixels(TotalFish(player.fishCaught, config.excludeAlgae, registry), config.fishPerPixel)
  }

  /** The patch changes something exactly when every guard passes. */
  lemma PostfixAppliesIff(config: Option<ModConfig>, player: Option<Player>, registry: Registry,
                          heightFieldFound: bool, baseHeight: int)
    requires player.Some? ==> WellFormed(player.value.fishCaught)
    ensures PostfixOutcome(config, player, registry, heightFieldFound, baseHeight).Some? <==>
      && config.Some? && config.value.enableMod
      && player.Some?
      && BonusFor(config.value, player.value, registry) > 0
      && heightFieldFound
  {
  }

  /**
   * A successful run keeps the game's height as the base, uses the positive
   * bonus, and ends at the clamped height: never above a positive maximum,
   * and below the base only when the maximum is.
   */
  lemma PostfixSuccess(config: Option<ModConfig>, player: Option<Player>, registry: Registry,
                       heightFieldFound: bool, baseHeight: int)
    requires player.Some? ==> WellFormed(player.value.fishCaught)
    requires PostfixOutcome(config, player, registry, heightFieldFound, baseHeight).Some?
    ensures var stats := PostfixOutcome(config, player, registry, heightFieldFound, baseHeight).value;
      && config.Some? && player.Some?
      && stats.baseHeight == baseHeight
      && stats.bonusPixels == BonusFor(config.value, player.value, registry) > 0
      && stats.finalHeight == FinalHeight(baseHeight, stats.bonusPixels, config.value.maxBarHeight)
      && (config.value.maxBarHeight > 0 ==> stats.finalHeight <= config.value.maxBarHeight)
      && (config.value.maxBarHeight <= 0 ==> stats.finalHeight == baseHeight + stats.bonusPixels)
      && (stats.finalHeight >= baseHeight <==> config.value.maxBarHeight <= 0 || config.value.maxBarHeight >= baseHeight)
  {
    var stats := PostfixOutcome(config, player, registry, heightFieldFound, baseHeight).value;
    FinalHeightKeepsBaseIff(baseHeight, stats.bonusPixels, config.value.maxBarHeight);
  }

  /**
   * What the cache can hold: all zero before the first successful run, and
   * afterwards a positive bonus with a final height no greater than base plus
   * bonus.
   */
  predicate CacheInvariant(cache: CacheView)
  {
    if cache.hasFishingData then
      0 < cache.lastBonusPixels && cache.lastFinalHeight <= cache.lastBaseHeight + cache.lastBonusPixels
    else
      cache.lastBaseHeight == 0 && cache.lastBonusPixels == 0 && cache.lastFinalHeight == 0
  }

  /** The figures of a successful run form a cache that satisfies the invariant. */
  lemma PostfixOutcomeFitsCache(config: Option<ModConfig>, player: Option<Player>, registry: Registry,
                                heightFieldFound: bool, baseHeight: int)
    requires player.Some? ==> WellFormed(player.value.fishCaught)
    requires PostfixOutcome(config, player, registry, heightFieldFound, baseHeight).Some?
    ensures var stats := PostfixOutcome(config, player, registry, heightFieldFound, baseHeight).value;
      CacheInvariant(CacheView(true, stats.baseHeight, stats.bonusPixels, stats.finalHeight))
  {
  }

  /**
   * The default settings, and what they mean for the bar: one pixel per ten
   * fish, and the bar never above 600 pixels.
   */
  lemma DefaultSettingsBehaviour(totalFish: int, baseHeight: int, bonusPixels: int)
    requires totalFish >= 0
    ensures Default.fishPerPixel == 10 && Default.maxBarHeight == 600
    ensures Default.enableMod && Default.excludeAlgae
    ensures !Default.showDebugInfo && Default.showFishingHUD
    ensures Default.hudXOffset == 20 && Default.hudYOffset == 180
    ensures CalculateBonusPixels(totalFish, Default.fishPerPixel) == totalFish / 10
    ensures FinalHeight(baseHeight, bonusPixels, Default.maxBarHeight) <= 600
  {
  }

  /**
   * The patch's process-wide state: the settings it was initialised with and
   * the last-computation cache.
   */
  class BobberBarPatch {
    var config: Option<ModConfig>
    var lastBaseHeight: int
    var lastBonusPixels: int
    var lastFinalHeight: int
    var hasFishingData: bool

    function Cache(): CacheView
      reads this
    {
      CacheView(hasFishingData, lastBaseHeight, lastBonusPixels, lastFinalHeight)
    }

    ghost predicate Valid()
      reads this
    {
      CacheInvariant(Cache())
    }

    /** The static initial state: no settings and an empty cache. */
    constructor ()
      ensures Valid()
      ensures config == None
      ensures Cache() == CacheView(false, 0, 0, 0)
    {
      config := None;
      lastBaseHeight, lastBonusPixels, lastFinalHeight := 0, 0, 0;
      hasFishingData := false;
    }

    method Initialize(config: ModConfig)
      requires Valid()
      modifies this
      ensures Valid()
      ensures this.config == Some(config)
      ensures Cache() == old(Cache())
    {
      this.config := Some(config);
    }

    /**
     * Runs after the bar's constructor. Either nothing changes, or the bar's
     * height and the cache both take the figures of PostfixOutcome; the
     * settings never change and the data flag, once set, stays set.
     */
    method ConstructorPostfix(bar: BobberBar, player: Option<Player>, registry: Registry, heightFieldFound: bool)
      requires Valid()
      requires player.Some? ==> WellFormed(player.value.fishCaught)
      modifies this, bar
      ensures Valid()
      ensures config == old(config)
      ensures old(hasFishingData) ==> hasFishingData
      ensures match PostfixOutcome(old(config), player, registry, heightFieldFound, old(bar.bobberBarHeight))
        case None =>
          bar.bobberBarHeight == old(bar.bobberBarHeight) && Cache() == old(Cache())
        case Some(stats) =>
          && bar.bobberBarHeight == stats.finalHeight
          && Cache() == CacheView(true, stats.baseHeight, stats.bonusPixels, stats.finalHeight)
    {
      if config.None? || !config.value.enableMod || player.None? {
        return;
      }
      var cfg := config.value;
      var totalFish, validKinds, excludedKinds := GetTotalFishCount(player, cfg.excludeAlgae, cfg.showDebugInfo, registry);
      var bonusPixels := CalculateBonusPixels(totalFish, cfg.fishPerPixel);
      if bonusPixels <= 0 {
        return;
      }
      if !heightFieldFound {
        return;
      }
      var baseHeight := bar.bobberBarHeight;
      var newHeight := baseHeight + bonusPixels;
      if cfg.maxBarHeight > 0 && newHeight > cfg.maxBarHeight {
        newHeight := cfg.maxBarHeight;
      }
      lastBaseHeight := baseHeight;
      lastBonusPixels := bonusPixels;
      lastFinalHeight := newHeight;
      hasFishingData := true;
      bar.bobberBarHeight := newHeight;
    }
  }
}
