/**
 * What the mod reads from the running game, passed in as plain values:
 * the item-metadata registry, the player's catch record and the tool the
 * player holds.
 */
module Host {
  import opened Wrappers

  /** Static item metadata: the object type tag (which may be null) and the category code. */
  datatype ItemData = ItemData(objectType: Option<string>, category: int)

  /** The item-metadata lookup by qualified identifier; None when the identifier does not resolve. */
  type Registry = string -> Option<ItemData>

  /** One entry of the catch record: an item identifier and its statistics; index 0 is the times caught. */
  datatype CatchEntry = CatchEntry(itemId: string, stats: seq<int>)

  /** The catch record, in the order the host's dictionary enumerates its pairs. */
  type CatchRecord = seq<CatchEntry>

  /** Every statistics array has the cumulative count at index 0. */
  predicate WellFormed(record: CatchRecord)
  {
    forall i :: 0 <= i < |record| ==> |record[i].stats| > 0
  }

  /** The active player: the catch record and whether the current tool is a fishing rod. */
  datatype Player = Player(fishCaught: CatchRecord, holdsFishingRod: bool)
}
