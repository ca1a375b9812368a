/** Concrete cases of the counter, the patch and the HUD. */
module Scenarios {
  import opened Wrappers
  import opened Host
  import opened Config
  import opened FishCounter
  import opened Patch
  import opened Hud

  /** Metadata in which "(O)145" (sunfish) is a fish and "(O)152" (seaweed) carries a fish type tag. */
  function SampleRegistry(qualifiedId: string): Option<ItemData>
  {
    if qualifiedId == "(O)145" then Some(ItemData(Some("Fish"), FishCategory))
    else if qualifiedId == "(O)152" then Some(ItemData(Some("Fish"), -75))
    else None
  }

  /** Twelve sunfish at one pixel per ten fish earn one bonus pixel. */
  lemma TwelveSunfishEarnOnePixel()
    ensures var record := [CatchEntry("145", [12, 0])];
      WellFormed(record) && CalculateBonusPixels(TotalFish(record, true, SampleRegistry), 10) == 1
  {
    var record := [CatchEntry("145", [12, 0])];
    assert record[..0] == [];
    assert Qualify("145") == "(O)145";
    assert "(O)145" !in Denylist by {
      assert forall d :: d in Denylist ==> d[4] != '4';
    }
    assert IsValidFish("145", true, SampleRegistry);
  }

  /** Fifty seaweed count for nothing while the exclusion is on, but for 50 when it is off. */
  lemma SeaweedExcluded()
    ensures var record := [CatchEntry("152", [50, 0])];
      && WellFormed(record)
      && TotalFish(record, true, SampleRegistry) == 0
      && TotalFish(record, false, SampleRegistry) == 50
  {
    var record := [CatchEntry("152", [50, 0])];
    assert record[..0] == [];
    assert Qualify("152") == "(O)152";
    assert MatchesAt("Fish", "Fish", 0);
    ContainsIgnoreCaseMeansMatch("Fish", "Fish");
  }

  /** A 96-pixel bar with 12 bonus pixels and a 100-pixel limit ends at 100. */
  lemma ClampedAtLimit()
    ensures FinalHeight(96, 12, 100) == 100
    ensures FinalHeight(96, 12, 0) == 108
  {
  }

  /**
   * A cache with a zero bonus shows only the base in its breakdown line. The
   * patch never writes such a cache (see CachedBreakdownAlwaysShowsBonus):
   * this case only shows what the HUD's text choice does with it.
   */
  lemma BaseOnlyBreakdown()
    ensures BreakdownFor(CacheView(true, 96, 0, 96)) == Breakdown(96, None)
  {
  }

  /** Before any bar was adjusted, the HUD shows the placeholder with the live count. */
  lemma PlaceholderBeforeFirstBar(viewportHeight: int)
    ensures var player := Some(Player([CatchEntry("145", [12, 0])], true));
      var frame := HudFrame(Default, player, SampleRegistry, CacheView(false, 0, 0, 0), viewportHeight);
      && frame.Some?
      && frame.value.lines == [HudLine(Title, 20, viewportHeight - 180),
                               HudLine(FishCount(12), 20, viewportHeight - 148),
                               HudLine(StartFishingPrompt, 20, viewportHeight - 116)]
  {
    TwelveSunfishEarnOnePixel();
  }
}
