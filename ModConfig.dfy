/** The settings record shared by the counter, the bar patch and the HUD. */
module Config {

  datatype ModConfig = ModConfig(
    fishPerPixel: int,    // qualifying catches needed per extra pixel of bar height
    maxBarHeight: int,    // upper bound for the adjusted bar height; 0 (or less) means no limit
    enableMod: bool,
    excludeAlgae: bool,   // skip the seaweed, algae and jelly identifiers
    showDebugInfo: bool,
    showFishingHUD: bool,
    hudXOffset: int,      // panel x, from the left edge of the UI viewport
    hudYOffset: int       // panel y, measured up from the bottom of the UI viewport
  )

  /** The values a freshly created settings record holds. */
  const Default: ModConfig := ModConfig(
    fishPerPixel := 10,
    maxBarHeight := 600,
    enableMod := true,
    excludeAlgae := true,
    showDebugInfo := false,
    showFishingHUD := true,
    hudXOffset := 20,
    hudYOffset := 180
  )
}
