/**
 * The OpenSCAD customiser document that `run` builds before rendering
 * (build.js:64-81): one parameter set per configured item, keyed
 * `stem_<name>` or `block_<name>`, and a fixed file format version.
 * JSON serialisation is not modelled; the document stays a value.
 */
module Customiser {
  import opened Wrappers
  import opened BuildConfig

  /** A parameter set: the single-field record that selects an item's type. */
  datatype Entry = StemType(stemType: string) | ConnectionBlockType(connectionBlockType: string)

  datatype Customiser = Customiser(parameterSets: map<string, Entry>, fileFormatVersion: string)

  const FileFormatVersion: string := "1"

  /** The parameter-set key of an item, also passed to the renderer after `-P`. */
  function Key(kind: Kind, name: string): string
  {
    match kind
    case Stem => "stem_" + name
    case ConnectionBlock => "block_" + name
  }

  /** The record stored under an item's key. */
  function EntryFor(kind: Kind, name: string): Entry
  {
    match kind
    case Stem => StemType(name)
    case ConnectionBlock => ConnectionBlockType(name)
  }

  /** The keys that a collection contributes. */
  function Keys(kind: Kind, items: seq<ItemSpec>): set<string>
  {
    set it | it in items :: Key(kind, it.name)
  }

  /**
   * The effect of one `for ... of` loop: the items are assigned in order,
   * so the last item is written last.
   */
  function Put(sets: map<string, Entry>, kind: Kind, items: seq<ItemSpec>): map<string, Entry>
    decreases |items|
  {
    if items == [] then sets
    else
      var last := items[|items| - 1];
      Put(sets, kind, items[..|items| - 1])[Key(kind, last.name) := EntryFor(kind, last.name)]
  }

  /** The document built from a configuration: stems first, then connection blocks. */
  function Customise(config: Config): Customiser
  {
    Customiser(Put(Put(map[], Stem, config.stems), ConnectionBlock, config.connectionBlocks), FileFormatVersion)
  }

  /** Builds the document by assignment inside two loops, as `run` does. */
  method BuildCustomiser(config: Config) returns (customiser: Customiser)
    ensures customiser == Customise(config)
  {
    var sets: map<string, Entry> := map[];
    for i := 0 to |config.stems|
      invariant sets == Put(map[], Stem, config.stems[..i])
    {
      var stemType := config.stems[i];
      PutSnoc(map[], Stem, config.stems, i);
      sets := sets[Key(Stem, stemType.name) := EntryFor(Stem, stemType.name)];
    }
    assert config.stems[..|config.stems|] == config.stems;
    ghost var afterStems := sets;
    for i := 0 to |config.connectionBlocks|
      invariant sets == Put(afterStems, ConnectionBlock, config.connectionBlocks[..i])
    {
      var blockType := config.connectionBlocks[i];
      PutSnoc(afterStems, ConnectionBlock, config.connectionBlocks, i);
      sets := sets[Key(ConnectionBlock, blockType.name) := EntryFor(ConnectionBlock, blockType.name)];
    }
    assert config.connectionBlocks[..|config.connectionBlocks|] == config.connectionBlocks;
    customiser := Customiser(sets, FileFormatVersion);
  }

  /** One more loop iteration assigns the next item's key. */
  lemma PutSnoc(sets: map<string, Entry>, kind: Kind, items: seq<ItemSpec>, i: nat)
    requires i < |items|
    ensures Put(sets, kind, items[..i + 1]) == Put(sets, kind, items[..i])[Key(kind, items[i].name) := EntryFor(kind, items[i].name)]
  {
    assert items[..i + 1][..i] == items[..i];
  }

  /** Two keys are equal exactly when they name the same item of the same collection. */
  lemma KeyInjective(k1: Kind, n1: string, k2: Kind, n2: string)
    ensures Key(k1, n1) == Key(k2, n2) <==> k1 == k2 && n1 == n2
  {
    if k1 != k2 {
      assert Key(k1, n1)[0] != Key(k2, n2)[0];
    } else if Key(k1, n1) == Key(k2, n2) {
      var p := |Key(k1, n1)| - |n1|;
      assert n1 == Key(k1, n1)[p..];
      assert n2 == Key(k2, n2)[p..];
    }
  }

  /** A stem key never equals a connection-block key: the prefixes differ. */
  lemma KeysDisjoint(stems: seq<ItemSpec>, blocks: seq<ItemSpec>)
    ensures Keys(Stem, stems) !! Keys(ConnectionBlock, blocks)
  {
    forall s, b | s in stems && b in blocks
      ensures Key(Stem, s.name) != Key(ConnectionBlock, b.name)
    {
      KeyInjective(Stem, s.name, ConnectionBlock, b.name);
    }
  }

  /** One loop adds exactly the collection's keys to the key set. */
  lemma {:induction false} PutKeys(sets: map<string, Entry>, kind: Kind, items: seq<ItemSpec>)
    ensures Put(sets, kind, items).Keys == sets.Keys + Keys(kind, items)
  {
    if items != [] {
      var init, last := items[..|items| - 1], items[|items| - 1];
      PutKeys(sets, kind, init);
      assert items == init + [last];
      KeysSnoc(kind, init, last);
    }
  }

  /** After one loop, every item's key holds that item's record, whatever came before. */
  lemma {:induction false} PutEntries(sets: map<string, Entry>, kind: Kind, items: seq<ItemSpec>)
    ensures forall it :: it in items ==>
      Key(kind, it.name) in Put(sets, kind, items) && Put(sets, kind, items)[Key(kind, it.name)] == EntryFor(kind, it.name)
  {
    if items != [] {
      var init, last := items[..|items| - 1], items[|items| - 1];
      PutEntries(sets, kind, init);
      assert items == init + [last];
      forall it | it in items
        ensures Key(kind, it.name) in Put(sets, kind, items) && Put(sets, kind, items)[Key(kind, it.name)] == EntryFor(kind, it.name)
      {
        if it != last {
          assert it in init;
          KeyInjective(kind, it.name, kind, last.name);
        }
      }
    }
  }

  /** One loop leaves every key outside the collection's keys as it was. */
  lemma {:induction false} PutKeeps(sets: map<string, Entry>, kind: Kind, items: seq<ItemSpec>)
    ensures forall key :: key in sets && key !in Keys(kind, items) ==>
      key in Put(sets, kind, items) && Put(sets, kind, items)[key] == sets[key]
  {
    if items != [] {
      var init, last := items[..|items| - 1], items[|items| - 1];
      PutKeeps(sets, kind, init);
      assert items == init + [last];
      KeysSnoc(kind, init, last);
    }
  }

  /** The number of keys a collection contributes is its number of distinct names. */
  lemma {:induction false} KeysCount(kind: Kind, items: seq<ItemSpec>)
    ensures |Keys(kind, items)| == |Names(items)|
  {
    if items != [] {
      var init, last := items[..|items| - 1], items[|items| - 1];
      KeysCount(kind, init);
      assert items == init + [last];
      KeysSnoc(kind, init, last);
      KeyInNames(kind, init, last.name);
      if last.name in Names(init) {
        assert Names(items) == Names(init);
        assert Keys(kind, items) == Keys(kind, init);
      }
    }
  }

  /** Appending an item adds its key and its name. */
  lemma KeysSnoc(kind: Kind, items: seq<ItemSpec>, item: ItemSpec)
    ensures Keys(kind, items + [item]) == Keys(kind, items) + {Key(kind, item.name)}
    ensures Names(items + [item]) == Names(items) + {item.name}
  {
  }

  /** A key is among a collection's keys exactly when its name is among the names. */
  lemma KeyInNames(kind: Kind, items: seq<ItemSpec>, name: string)
    ensures Key(kind, name) in Keys(kind, items) <==> name in Names(items)
  {
    if Key(kind, name) in Keys(kind, items) {
      var it :| it in items && Key(kind, it.name) == Key(kind, name);
      KeyInjective(kind, it.name, kind, name);
    }
  }

  /**
   * The document holds exactly the stem keys and the block keys; each maps to
   * its own item's single-field record; the format version is "1".
   */
  lemma CustomiseContents(config: Config)
    ensures Customise(config).parameterSets.Keys == Keys(Stem, config.stems) + Keys(ConnectionBlock, config.connectionBlocks)
    ensures forall s :: s in config.stems ==> Customise(config).parameterSets[Key(Stem, s.name)] == StemType(s.name)
    ensures forall b :: b in config.connectionBlocks ==>
      Customise(config).parameterSets[Key(ConnectionBlock, b.name)] == ConnectionBlockType(b.name)
    ensures Customise(config).fileFormatVersion == "1"
  {
    var afterStems := Put(map[], Stem, config.stems);
    PutKeys(map[], Stem, config.stems);
    PutEntries(map[], Stem, config.stems);
    PutKeys(afterStems, ConnectionBlock, config.connectionBlocks);
    PutEntries(afterStems, ConnectionBlock, config.connectionBlocks);
    PutKeeps(afterStems, ConnectionBlock, config.connectionBlocks);
    KeysDisjoint(config.stems, config.connectionBlocks);
  }

  /** The entry count is the number of distinct stem names plus distinct block names. */
  lemma CustomiseSize(config: Config)
    ensures |Customise(config).parameterSets| == |Names(config.stems)| + |Names(config.connectionBlocks)|
    ensures DistinctNames(config.stems) && DistinctNames(config.connectionBlocks) ==>
      |Customise(config).parameterSets| == |config.stems| + |config.connectionBlocks|
  {
    CustomiseContents(config);
    KeysDisjoint(config.stems, config.connectionBlocks);
    KeysCount(Stem, config.stems);
    KeysCount(ConnectionBlock, config.connectionBlocks);
    assert |Customise(config).parameterSets| == |Customise(config).parameterSets.Keys|;
    if DistinctNames(config.stems) && DistinctNames(config.connectionBlocks) {
      DistinctNamesCount(config.stems);
      DistinctNamesCount(config.connectionBlocks);
    }
  }

  /**
   * Last write wins: the later assignment for a repeated name stands, and since
   * an entry depends only on the name, it leaves the parameter sets unchanged.
   */
  lemma RepeatedNameOverwrites(sets: map<string, Entry>, kind: Kind, items: seq<ItemSpec>, item: ItemSpec)
    ensures Put(sets, kind, items + [item])[Key(kind, item.name)] == EntryFor(kind, item.name)
    ensures item.name in Names(items) ==> Put(sets, kind, items + [item]) == Put(sets, kind, items)
  {
    assert (items + [item])[..|items|] == items;
    if item.name in Names(items) {
      var it :| it in items && it.name == item.name;
      PutEntries(sets, kind, items);
    }
  }

  /** One stem `round` and one block `snap` give exactly their two parameter sets. */
  lemma RoundSnapDocument()
    ensures Customise(Config([ItemSpec("round", None)], [ItemSpec("snap", None)]))
            == Customiser(map["stem_round" := StemType("round"), "block_snap" := ConnectionBlockType("snap")], "1")
  {
    var round, snap := ItemSpec("round", None), ItemSpec("snap", None);
    assert [round][..0] == [] && [snap][..0] == [];
    assert Key(Stem, "round") == "stem_round";
    assert Key(ConnectionBlock, "snap") == "block_snap";
    var afterStems := Put(map[], Stem, [round]);
    assert afterStems == Put(map[], Stem, [])[Key(Stem, "round") := StemType("round")];
    assert afterStems == map["stem_round" := StemType("round")];
    assert Put(afterStems, ConnectionBlock, [snap]) == afterStems["block_snap" := ConnectionBlockType("snap")];
  }
}
