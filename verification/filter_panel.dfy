/**
 * The filter controls beside the results: the list of tag chips, toggling a
 * tag, clearing, and whether any filter is active.
 */
module FilterPanel {
  import Inventory
  import Strings
  import Seqs

  /** The bounds of the price slider. */
  const MinPrice: int := 0
  const MaxPrice: int := 300

  datatype Filters = Filters(maxPrice: int, selectedTags: seq<string>)

  /** Every tag of every catalog item, in catalog order. */
  function TagsOf(items: seq<Inventory.Item>): (tags: seq<string>)
    ensures forall t :: t in tags <==> exists k :: 0 <= k < |items| && t in items[k].tags
  {
    if items == [] then []
    else
      var rest := TagsOf(items[1..]);
      assert forall k :: 1 <= k < |items| ==> items[k] == items[1..][k - 1];
      items[0].tags + rest
  }

  /** The tag chips: the distinct catalog tags in sorted order. */
  const AllTags: seq<string> := Strings.SortedDistinct(TagsOf(Inventory.Items))

  /**
   * The chips are sorted, repeat no tag, and are exactly the tags that occur
   * in the catalog. No other list has these three properties.
   */
  lemma AllTagsIsSortedUnion()
    ensures Strings.StrictlySorted(AllTags)
    ensures forall t :: t in AllTags <==> exists k :: 0 <= k < |Inventory.Items| && t in Inventory.Items[k].tags
    ensures forall tags :: Strings.StrictlySorted(tags) && (forall t :: t in tags <==> t in AllTags) ==> tags == AllTags
  {
    forall tags | Strings.StrictlySorted(tags) && (forall t :: t in tags <==> t in AllTags)
      ensures tags == AllTags
    {
      Strings.StrictlySortedUnique(tags, AllTags);
    }
  }

  /** The predicate that drops `tag` (a fresh closure would not be equal to another one). */
  function Except(tag: string): string -> bool {
    t => t != tag
  }

  /** A chip click: deselect `tag` if it is selected, otherwise select it at the end. */
  function ToggleTag(f: Filters, tag: string): (g: Filters)
    ensures g.maxPrice == f.maxPrice
    ensures tag in g.selectedTags <==> tag !in f.selectedTags
    ensures forall t :: t != tag ==> (t in g.selectedTags <==> t in f.selectedTags)
    ensures tag !in f.selectedTags ==> g.selectedTags == f.selectedTags + [tag]
  {
    var next := if tag in f.selectedTags then Seqs.Filter(Except(tag), f.selectedTags) else f.selectedTags + [tag];
    assert forall t :: t != tag && t in f.selectedTags ==> t in next by {
      if tag in f.selectedTags {
        Seqs.FilterCounts(Except(tag), f.selectedTags);
        forall t | t != tag && t in f.selectedTags ensures t in next {
          assert multiset(next)[t] == multiset(f.selectedTags)[t];
        }
      }
    }
    f.(selectedTags := next)
  }

  /** Deselecting removes every occurrence of the tag and keeps the other tags, in their order. */
  lemma ToggleOffKeepsOthersInOrder(f: Filters, tag: string)
    requires tag in f.selectedTags
    ensures var g := ToggleTag(f, tag);
      && Seqs.IsSubsequence(g.selectedTags, f.selectedTags)
      && forall t :: multiset(g.selectedTags)[t] == if t == tag then 0 else multiset(f.selectedTags)[t]
  {
    Seqs.FilterIsSubsequence(Except(tag), f.selectedTags);
    Seqs.FilterCounts(Except(tag), f.selectedTags);
  }

  /** Selecting a tag and deselecting it again restores the filters exactly. */
  lemma ToggleTwiceRestores(f: Filters, tag: string)
    requires tag !in f.selectedTags
    ensures ToggleTag(ToggleTag(f, tag), tag) == f
  {
    var sel := f.selectedTags;
    Seqs.FilterAppend(Except(tag), sel, [tag]);
    Seqs.FilterAll(Except(tag), sel);
    assert [tag][1..] == [];
    assert Seqs.Filter(Except(tag), [tag]) == [];
    assert sel + [] == sel;
  }

  /** The "Clear" button: the full price range and no tags. */
  function ClearFilters(): (f: Filters)
    ensures !HasActiveFilters(f)
  {
    Filters(MaxPrice, [])
  }

  /** Whether the "Clear" button is shown. */
  predicate HasActiveFilters(f: Filters) {
    f.maxPrice < MaxPrice || |f.selectedTags| > 0
  }

  /** Within the slider's range, no filter is active exactly when the filters are the cleared ones. */
  lemma InactiveIffCleared(f: Filters)
    requires MinPrice <= f.maxPrice <= MaxPrice
    ensures !HasActiveFilters(f) <==> f == ClearFilters()
  {
  }
}
