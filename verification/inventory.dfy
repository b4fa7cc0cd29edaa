/**
 * The fixed catalog of five travel experiences, its set of valid ids and its
 * id index. It is the only source of item facts the search ever returns.
 */
module Inventory {

  datatype Item = Item(id: int, title: string, location: string, price: int, tags: seq<string>)

  /** The catalog, in its declared order (prices in US dollars). */
  const Items: seq<Item> := [
    Item(1, "High-Altitude Tea Trails", "Nuwara Eliya", 120, ["cold", "nature", "hiking"]),
    Item(2, "Coastal Heritage Wander", "Galle Fort", 45, ["history", "culture", "walking"]),
    Item(3, "Wild Safari Expedition", "Yala", 250, ["animals", "adventure", "photography"]),
    Item(4, "Surf & Chill Retreat", "Arugam Bay", 80, ["beach", "surfing", "young-vibe"]),
    Item(5, "Ancient City Exploration", "Sigiriya", 110, ["history", "climbing", "view"])
  ]

  /** The ids occurring in `items`. */
  function IdsOf(items: seq<Item>): set<int> {
    set i | 0 <= i < |items| :: items[i].id
  }

  /** No two entries share an id. */
  predicate DistinctIds(items: seq<Item>) {
    forall i, j :: 0 <= i < j < |items| ==> items[i].id != items[j].id
  }

  /**
   * `new Map(items.map(item => [item.id, item]))`: entries are inserted in
   * order, so a later item with a repeated id overwrites an earlier one.
   */
  function IndexById(items: seq<Item>): (index: map<int, Item>)
    ensures index.Keys == IdsOf(items)
    ensures forall id :: id in index ==> index[id] in items && index[id].id == id
  {
    if items == [] then map[]
    else
      var init, last := items[..|items| - 1], items[|items| - 1];
      var index := IndexById(init)[last.id := last];
      assert IdsOf(items) == IdsOf(init) + {last.id} by {
        assert forall i :: 0 <= i < |init| ==> items[i] == init[i];
      }
      index
  }

  /** The set of valid ids, consulted by the safety filter. */
  const ValidIds: set<int> := IdsOf(Items)

  /** The id index, consulted to enrich filtered matches. */
  const InventoryMap: map<int, Item> := IndexById(Items)

  /** With distinct ids, the index finds each item under its own id. */
  lemma {:induction false} IndexFindsItem(items: seq<Item>, k: int)
    requires DistinctIds(items)
    requires 0 <= k < |items|
    ensures items[k].id in IndexById(items)
    ensures IndexById(items)[items[k].id] == items[k]
  {
    var init, last := items[..|items| - 1], items[|items| - 1];
    if k < |items| - 1 {
      assert init[k] == items[k];
      IndexFindsItem(init, k);
    }
  }

  /** The catalog ids are pairwise distinct and are exactly 1 to 5. */
  lemma CatalogIds()
    ensures DistinctIds(Items)
    ensures ValidIds == {1, 2, 3, 4, 5}
  {
    assert forall i :: 0 <= i < |Items| ==> Items[i].id == i + 1;
    assert Items[0].id in ValidIds && Items[1].id in ValidIds && Items[2].id in ValidIds;
    assert Items[3].id in ValidIds && Items[4].id in ValidIds;
  }

  /** The index is keyed by exactly the valid ids, each mapped to the one catalog item with that id. */
  lemma IndexMatchesCatalog()
    ensures InventoryMap.Keys == ValidIds
    ensures forall k :: 0 <= k < |Items| ==> InventoryMap[Items[k].id] == Items[k]
  {
    CatalogIds();
    forall k | 0 <= k < |Items| ensures InventoryMap[Items[k].id] == Items[k] {
      IndexFindsItem(Items, k);
    }
  }

  /** Every catalog price lies in 0..300, the range of the price slider. */
  lemma PricesInSliderRange()
    ensures forall k :: 0 <= k < |Items| ==> 0 <= Items[k].price <= 300
  {
  }

  /** No item lists a tag twice. */
  lemma TagsDistinctPerItem()
    ensures forall k, i, j :: 0 <= k < |Items| && 0 <= i < j < |Items[k].tags| ==> Items[k].tags[i] != Items[k].tags[j]
  {
  }
}
