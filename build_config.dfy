/**
 * The parsed contents of build-config.json: two collections of item
 * specifications, one of stems and one of connection blocks.
 */
module BuildConfig {
  import opened Wrappers

  /** One renderable variant. `licence` is None when the JSON field is absent or null. */
  datatype ItemSpec = ItemSpec(name: string, licence: Option<string>)

  datatype Config = Config(stems: seq<ItemSpec>, connectionBlocks: seq<ItemSpec>)

  /** Which of the two collections an item comes from. */
  datatype Kind = Stem | ConnectionBlock

  /** The set of names occurring in a collection. */
  function Names(items: seq<ItemSpec>): set<string>
  {
    set it | it in items :: it.name
  }

  /** No name is repeated inside the collection. */
  predicate DistinctNames(items: seq<ItemSpec>)
  {
    forall i, j :: 0 <= i < j < |items| ==> items[i].name != items[j].name
  }

  /** Without repeated names, a collection has as many names as items. */
  lemma {:induction false} DistinctNamesCount(items: seq<ItemSpec>)
    requires DistinctNames(items)
    ensures |Names(items)| == |items|
  {
    if items != [] {
      var init, last := items[..|items| - 1], items[|items| - 1];
      assert DistinctNames(init);
      DistinctNamesCount(init);
      assert items == init + [last];
      assert Names(items) == Names(init) + {last.name};
      assert last.name !in Names(init);
    }
  }
}
