/**
 * Fish classification and counting: which catch-record entries are fish,
 * how many fish the player has caught, and the bonus pixels they earn.
 */
module FishCounter {
  import opened Wrappers
  import opened Host

  // ---------------------------------------------------------------------
  // Identifier normalisation and the denylist
  // ---------------------------------------------------------------------

  /** The type prefix of an ordinary object identifier. */
  const ObjectPrefix: string := "(O)"

  /** An identifier that already carries a type prefix starts with '('. */
  predicate IsQualified(itemId: string)
  {
    |itemId| > 0 && itemId[0] == '('
  }

  /** Bare identifiers get the object prefix; qualified ones are kept as they are. */
  function Qualify(itemId: string): string
  {
    if IsQualified(itemId) then itemId else ObjectPrefix + itemId
  }

  lemma QualifyIsIdempotent(itemId: string)
    ensures IsQualified(Qualify(itemId))
    ensures Qualify(Qualify(itemId)) == Qualify(itemId)
    ensures IsQualified(itemId) ==> Qualify(itemId) == itemId
  {
  }

  /** A bare identifier and its prefixed form name the same item. */
  lemma BareAndPrefixedQualifyAlike(itemId: string)
    requires !IsQualified(itemId)
    ensures Qualify(ObjectPrefix + itemId) == Qualify(itemId)
  {
    assert (ObjectPrefix + itemId)[0] == '(';
  }

  /** Seaweed, green algae, white algae, river jelly, cave jelly and sea jelly. */
  const Denylist: set<string> := {"(O)152", "(O)153", "(O)157", "(O)812", "(O)851", "(O)852"}

  /** The category code the game gives to fish. */
  const FishCategory: int := -4

  // ---------------------------------------------------------------------
  // Case-insensitive substring search
  // ---------------------------------------------------------------------

  /** Upper-casing of the ASCII letters; every other character is its own upper case. */
  function UpperAscii(c: char): char
  {
    if 'a' <= c <= 'z' then (c as int - 32) as char else c
  }

  /** The characters of s from position i on spell pattern, ignoring ASCII case. */
  predicate MatchesAt(s: string, pattern: string, i: int)
  {
    0 <= i && i + |pattern| <= |s| &&
    forall k :: 0 <= k < |pattern| ==> UpperAscii(s[i + k]) == UpperAscii(pattern[k])
  }

  /** Ordinal, case-insensitive "s contains pattern", scanning from the left. */
  function ContainsIgnoreCase(s: string, pattern: string): bool
    decreases |s|
  {
    if |s| < |pattern| then false
    else if MatchesAt(s, pattern, 0) then true
    else ContainsIgnoreCase(s[1..], pattern)
  }

  /** The scan finds the pattern exactly when the pattern occurs at some position. */
  lemma {:induction false} ContainsIgnoreCaseMeansMatch(s: string, pattern: string)
    ensures ContainsIgnoreCase(s, pattern) <==> exists i :: MatchesAt(s, pattern, i)
    decreases |s|
  {
    if |s| < |pattern| {
    } else if MatchesAt(s, pattern, 0) {
    } else {
      ContainsIgnoreCaseMeansMatch(s[1..], pattern);
      if ContainsIgnoreCase(s[1..], pattern) {
        var j :| MatchesAt(s[1..], pattern, j);
        assert MatchesAt(s, pattern, j + 1);
      }
      if exists i :: MatchesAt(s, pattern, i) {
        var i :| MatchesAt(s, pattern, i);
        if i > 0 {
          assert MatchesAt(s[1..], pattern, i - 1);
        }
      }
    }
  }

  /** The object type tag is present and contains "Fish" in any case. */
  predicate TypeMentionsFish(objectType: Option<string>)
  {
    objectType.Some? && ContainsIgnoreCase(objectType.value, "Fish")
  }

  // ---------------------------------------------------------------------
  // Classification
  // ---------------------------------------------------------------------

  /**
   * Whether a catch-record identifier is a qualifying fish: it is normalised,
   * rejected when the exclusion is on and it is denylisted, rejected when its
   * metadata does not resolve, and otherwise accepted by its type tag or by
   * its category code.
   */
  predicate IsValidFish(itemId: string, excludeAlgae: bool, registry: Registry)
  {
    var qualifiedId := Qualify(itemId);
    if excludeAlgae && qualifiedId in Denylist then false
    else match registry(qualifiedId)
      case None => false
      case Some(data) => TypeMentionsFish(data.objectType) || data.category == FishCategory
  }

  /** With the exclusion on, a denylisted item is never a fish, whatever its metadata says. */
  lemma DenylistedNeverValid(itemId: string, registry: Registry)
    requires Qualify(itemId) in Denylist
    ensures !IsValidFish(itemId, true, registry)
  {
  }

  /** An identifier whose metadata does not resolve is never a fish. */
  lemma UnresolvedNeverValid(itemId: string, excludeAlgae: bool, registry: Registry)
    requires registry(Qualify(itemId)).None?
    ensures !IsValidFish(itemId, excludeAlgae, registry)
  {
  }

  /**
   * An identifier not excluded by the denylist is a fish exactly when its
   * metadata resolves and either its type tag contains "fish" at some
   * position, ignoring case, or its category is -4.
   */
  lemma ValidFishIff(itemId: string, excludeAlgae: bool, registry: Registry)
    requires !(excludeAlgae && Qualify(itemId) in Denylist)
    ensures IsValidFish(itemId, excludeAlgae, registry) <==>
      var data := registry(Qualify(itemId));
      data.Some? &&
      ((data.value.objectType.Some? && exists i :: MatchesAt(data.value.objectType.value, "Fish", i))
       || data.value.category == FishCategory)
  {
    var data := registry(Qualify(itemId));
    if data.Some? && data.value.objectType.Some? {
      ContainsIgnoreCaseMeansMatch(data.value.objectType.value, "Fish");
    }
  }

  /** Category -4 makes an item a fish even when its type tag is null. */
  lemma FishCategoryCountsWithoutType(itemId: string, excludeAlgae: bool, registry: Registry)
    requires !(excludeAlgae && Qualify(itemId) in Denylist)
    requires registry(Qualify(itemId)) == Some(ItemData(None, FishCategory))
    ensures IsValidFish(itemId, excludeAlgae, registry)
  {
  }

  /** "152" and "(O)152" are classified alike, for every bare identifier. */
  lemma BareAndPrefixedClassifiedAlike(itemId: string, excludeAlgae: bool, registry: Registry)
    requires !IsQualified(itemId)
    ensures IsValidFish(ObjectPrefix + itemId, excludeAlgae, registry) == IsValidFish(itemId, excludeAlgae, registry)
  {
    BareAndPrefixedQualifyAlike(itemId);
  }

  // ---------------------------------------------------------------------
  // Counting
  // ---------------------------------------------------------------------

  /** What one entry adds to the total: its times-caught count if it is a fish, else nothing. */
  function Contribution(entry: CatchEntry, excludeAlgae: bool, registry: Registry): int
    requires |entry.stats| > 0
  {
    if IsValidFish(entry.itemId, excludeAlgae, registry) then entry.stats[0] else 0
  }

  /** The running total of the counting loop after it has visited every entry of record. */
  function TotalFish(record: CatchRecord, excludeAlgae: bool, registry: Registry): int
    requires WellFormed(record)
  {
    if record == [] then 0
    else TotalFish(record[..|record| - 1], excludeAlgae, registry)
         + Contribution(record[|record| - 1], excludeAlgae, registry)
  }

  /** The entries of record that are fish, in record order. */
  function Accepted(record: CatchRecord, excludeAlgae: bool, registry: Registry): (fish: CatchRecord)
    ensures |fish| <= |record|
    ensures WellFormed(record) ==> WellFormed(fish)
    ensures forall e :: e in fish <==> e in record && IsValidFish(e.itemId, excludeAlgae, registry)
  {
    if record == [] then []
    else
      var rest := Accepted(record[..|record| - 1], excludeAlgae, registry);
      var last := record[|record| - 1];
      assert record == record[..|record| - 1] + [last];
      if IsValidFish(last.itemId, excludeAlgae, registry) then rest + [last] else rest
  }

  /**
   * Accepted keeps each fish entry as many times as the record holds it, and
   * drops every other entry.
   */
  lemma {:induction false} AcceptedCounts(record: CatchRecord, excludeAlgae: bool, registry: Registry)
    ensures forall e ::
              multiset(Accepted(record, excludeAlgae, registry))[e]
              == (if IsValidFish(e.itemId, excludeAlgae, registry) then multiset(record)[e] else 0)
    decreases |record|
  {
    if record != [] {
      var init, last := record[..|record| - 1], record[|record| - 1];
      AcceptedCounts(init, excludeAlgae, registry);
      assert record == init + [last];
      assert multiset(record) == multiset(init) + multiset{last};
      var rest := Accepted(init, excludeAlgae, registry);
      if IsValidFish(last.itemId, excludeAlgae, registry) {
        assert multiset(Accepted(record, excludeAlgae, registry)) == multiset(rest) + multiset{last};
      } else {
        assert Accepted(record, excludeAlgae, registry) == rest;
      }
    }
  }

  /** The times-caught counts of record added up, with no filtering. */
  function SumCaught(record: CatchRecord): int
    requires WellFormed(record)
  {
    if record == [] then 0 else SumCaught(record[..|record| - 1]) + record[|record| - 1].stats[0]
  }

  lemma {:induction false} TotalFishAppend(a: CatchRecord, b: CatchRecord, excludeAlgae: bool, registry: Registry)
    requires WellFormed(a) && WellFormed(b)
    ensures WellFormed(a + b)
    ensures TotalFish(a + b, excludeAlgae, registry)
         == TotalFish(a, excludeAlgae, registry) + TotalFish(b, excludeAlgae, registry)
    decreases |b|
  {
    if b != [] {
      var b' := b[..|b| - 1];
      assert (a + b)[..|a + b| - 1] == a + b';
      TotalFishAppend(a, b', excludeAlgae, registry);
    } else {
      assert a + b == a;
    }
  }

  /** The total is the sum of the counts of exactly the accepted entries. */
  lemma {:induction false} TotalFishIsSumOverAccepted(record: CatchRecord, excludeAlgae: bool, registry: Registry)
    requires WellFormed(record)
    ensures WellFormed(Accepted(record, excludeAlgae, registry))
    ensures TotalFish(record, excludeAlgae, registry) == SumCaught(Accepted(record, excludeAlgae, registry))
    decreases |record|
  {
    if record != [] {
      var init, last := record[..|record| - 1], record[|record| - 1];
      TotalFishIsSumOverAccepted(init, excludeAlgae, registry);
      var rest := Accepted(init, excludeAlgae, registry);
      if IsValidFish(last.itemId, excludeAlgae, registry) {
        assert Accepted(record, excludeAlgae, registry) == rest + [last];
        assert (rest + [last])[..|rest|] == rest;
      } else {
        assert Accepted(record, excludeAlgae, registry) == rest;
      }
    }
  }

  /** Taking one entry out of the record takes its contribution out of the total. */
  lemma TotalFishRemoveAt(b: CatchRecord, j: int, excludeAlgae: bool, registry: Registry)
    requires WellFormed(b) && 0 <= j < |b|
    ensures WellFormed(b[..j] + b[j + 1..])
    ensures TotalFish(b, excludeAlgae, registry)
         == TotalFish(b[..j] + b[j + 1..], excludeAlgae, registry) + Contribution(b[j], excludeAlgae, registry)
  {
    var front, back := b[..j], b[j + 1..];
    assert b == (front + [b[j]]) + back;
    assert WellFormed(front) && WellFormed(back) && WellFormed([b[j]]);
    TotalFishAppend(front, back, excludeAlgae, registry);
    TotalFishAppend(front, [b[j]], excludeAlgae, registry);
    TotalFishAppend(front + [b[j]], back, excludeAlgae, registry);
  }

  /** Removing matching entries from two permutations of each other leaves permutations. */
  lemma RemoveMatching(a: CatchRecord, b: CatchRecord, j: int)
    requires |a| > 0 && 0 <= j < |b| && b[j] == a[|a| - 1]
    requires multiset(a) == multiset(b)
    ensures multiset(a[..|a| - 1]) == multiset(b[..j] + b[j + 1..])
  {
    var last := a[|a| - 1];
    assert a == a[..|a| - 1] + [last];
    assert b == b[..j] + [last] + b[j + 1..];
    var init, rest := a[..|a| - 1], b[..j] + b[j + 1..];
    assert multiset(a) == multiset(init) + multiset{last};
    assert multiset(b) == multiset(rest) + multiset{last} by {
      assert multiset(b) == multiset(b[..j]) + multiset{last} + multiset(b[j + 1..]);
    }
    assert multiset(init) == multiset(a) - multiset{last};
    assert multiset(rest) == multiset(b) - multiset{last};
  }

  /** The total does not depend on the order in which the dictionary enumerates its pairs. */
  lemma {:induction false} TotalFishIgnoresOrder(a: CatchRecord, b: CatchRecord, excludeAlgae: bool, registry: Registry)
    requires WellFormed(a) && WellFormed(b)
    requires multiset(a) == multiset(b)
    ensures TotalFish(a, excludeAlgae, registry) == TotalFish(b, excludeAlgae, registry)
    decreases |a|
  {
    if a == [] {
      assert |b| == |multiset(b)| == 0;
    } else {
      var last := a[|a| - 1];
      assert last in multiset(b) by {
        assert last in multiset(a);
      }
      var j :| 0 <= j < |b| && b[j] == last;
      RemoveMatching(a, b, j);
      TotalFishRemoveAt(b, j, excludeAlgae, registry);
      TotalFishIgnoresOrder(a[..|a| - 1], b[..j] + b[j + 1..], excludeAlgae, registry);
    }
  }

  /** When every count is non-negative, so is the total. */
  lemma {:induction false} TotalFishNonNegative(record: CatchRecord, excludeAlgae: bool, registry: Registry)
    requires WellFormed(record)
    requires forall i :: 0 <= i < |record| ==> record[i].stats[0] >= 0
    ensures TotalFish(record, excludeAlgae, registry) >= 0
    decreases |record|
  {
    if record != [] {
      TotalFishNonNegative(record[..|record| - 1], excludeAlgae, registry);
    }
  }

  /**
   * GetTotalFishCount: 0 without a player; otherwise the sum of the counts of
   * the entries that are fish. The two tallies are the numbers the debug
   * summary reports (fish kinds and rejected kinds). The debug flag only
   * selects log calls, and the contract does not depend on it.
   */
  method GetTotalFishCount(player: Option<Player>, excludeAlgae: bool, enableDebug: bool, registry: Registry)
    returns (totalCount: int, validFishCount: nat, excludedCount: nat)
    requires player.Some? ==> WellFormed(player.value.fishCaught)
    ensures player.None? ==> totalCount == 0 && validFishCount == 0 && excludedCount == 0
    ensures player.Some? ==>
      && totalCount == TotalFish(player.value.fishCaught, excludeAlgae, registry)
      && validFishCount == |Accepted(player.value.fishCaught, excludeAlgae, registry)|
      && validFishCount + excludedCount == |player.value.fishCaught|
  {
    if player.None? {
      return 0, 0, 0;
    }
    var record := player.value.fishCaught;
    totalCount, validFishCount, excludedCount := 0, 0, 0;
    for i := 0 to |record|
      invariant totalCount == TotalFish(record[..i], excludeAlgae, registry)
      invariant validFishCount == |Accepted(record[..i], excludeAlgae, registry)|
      invariant validFishCount + excludedCount == i
    {
      assert record[..i + 1][..i] == record[..i];
      var fishId := record[i].itemId;
      var stats := record[i].stats;
      var count := stats[0];
      if IsValidFish(fishId, excludeAlgae, registry) {
        totalCount := totalCount + count;
        validFishCount := validFishCount + 1;
      } else {
        excludedCount := excludedCount + 1;
      }
    }
    assert record[..|record|] == record;
  }

  // ---------------------------------------------------------------------
  // Bonus pixels
  // ---------------------------------------------------------------------

  /** C# integer division by a positive divisor: the quotient is truncated toward zero. */
  function TruncatingDiv(a: int, b: int): int
    requires b > 0
  {
    if a >= 0 then a / b else -((-a) / b)
  }

  lemma QuotientBounds(a: int, b: int)
    requires a >= 0 && b > 0
    ensures 0 <= a / b
    ensures (a / b) * b <= a < (a / b + 1) * b
  {
  }

  /**
   * One bonus pixel per fishPerPixel fish, rounded toward zero; no bonus when
   * the ratio is zero or negative.
   */
  function CalculateBonusPixels(totalFish: int, fishPerPixel: int): (bonus: int)
    ensures fishPerPixel <= 0 ==> bonus == 0
    ensures fishPerPixel > 0 && totalFish >= 0 ==>
      0 <= bonus && bonus * fishPerPixel <= totalFish < (bonus + 1) * fishPerPixel
    ensures fishPerPixel > 0 && totalFish < 0 ==>
      bonus <= 0 && -bonus * fishPerPixel <= -totalFish < (-bonus + 1) * fishPerPixel
  {
    if fishPerPixel <= 0 then 0
    else
      QuotientBounds(if totalFish >= 0 then totalFish else -totalFish, fishPerPixel);
      TruncatingDiv(totalFish, fishPerPixel)
  }

  /** For non-negative totals the bonus is Dafny's (floor) division. */
  lemma BonusIsQuotient(totalFish: int, fishPerPixel: int)
    requires totalFish >= 0 && fishPerPixel > 0
    ensures CalculateBonusPixels(totalFish, fishPerPixel) == totalFish / fishPerPixel
  {
  }

  /** More fish never means a shorter bonus. */
  lemma BonusIsMonotone(fewer: int, more: int, fishPerPixel: int)
    requires 0 <= fewer <= more && fishPerPixel > 0
    ensures 0 <= CalculateBonusPixels(fewer, fishPerPixel) <= CalculateBonusPixels(more, fishPerPixel)
  {
    var lo := CalculateBonusPixels(fewer, fishPerPixel);
    var hi := CalculateBonusPixels(more, fishPerPixel);
    if lo > hi {
      MulMonotone(hi + 1, lo, fishPerPixel);
    }
  }

  lemma MulMonotone(x: int, y: int, m: int)
    requires x <= y && m > 0
    ensures x * m <= y * m
  {
    var d := y - x;
    assert y * m == x * m + d * m;
  }

  /** The bar grows only once the player has at least fishPerPixel qualifying catches. */
  lemma BonusPositiveIff(totalFish: int, fishPerPixel: int)
    requires totalFish >= 0 && fishPerPixel > 0
    ensures CalculateBonusPixels(totalFish, fishPerPixel) > 0 <==> totalFish >= fishPerPixel
  {
    var bonus := CalculateBonusPixels(totalFish, fishPerPixel);
    if bonus > 0 {
      MulMonotone(1, bonus, fishPerPixel);
    }
  }
}
