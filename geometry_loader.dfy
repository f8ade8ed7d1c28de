/** The loader-level rules of `TGXMLoader` that decide what of an item is
    drawn and how: which art regions are skipped, which pattern of a region
    is selected, how the gear's dyes are resolved against a shader, and how
    `dispose` and `reset` act on the item cache. */
module GeometryLoader {
  import opened Wrappers
  import opened Numbers
  import opened JsStrings
  import opened ItemCache

  /** `regionIndexesToNotLoad`: every entry of the dictionary is commented out. */
  const RegionIndexesToNotLoad: set<string> := {}

  /** `#skipRegion(regionIndex)` for an integral region index (a key of
      `region_index_sets` or a `region_index`): the key is looked up as the
      index's decimal string, and indexes outside -1..26 are skipped. */
  predicate SkipRegion(notLoaded: set<string>, regionIndex: int) {
    IntToString(regionIndex) in notLoaded || regionIndex < -1 || regionIndex > 26
  }

  /** With the loader's dictionary, exactly the regions -1 to 26 are loaded. */
  lemma LoadedRegions(regionIndex: int)
    ensures !SkipRegion(RegionIndexesToNotLoad, regionIndex) <==> -1 <= regionIndex <= 26
  {
  }

  /** A blacklisted region is skipped, and a region is skipped only when it
      is blacklisted or out of range; the region number the loader then looks
      up in `regionIndexOptions` is the index itself. */
  lemma SkipRegionMeaning(notLoaded: set<string>, regionIndex: int)
    ensures IntToString(regionIndex) in notLoaded ==> SkipRegion(notLoaded, regionIndex)
    ensures SkipRegion(notLoaded, regionIndex) && -1 <= regionIndex <= 26 ==> IntToString(regionIndex) in notLoaded
    ensures ParseInt(IntToString(regionIndex)) == Some(regionIndex)
  {
    ParseIntOfIntToString(regionIndex);
  }

  /** `(alt && alt < length) ? alt : 0`, where `alt` is the model options'
      entry for the region (undefined, or a parseInt result: an integer or NaN). */
  function PatternIndex(alt: Option<Num>, length: nat): (r: Num)
    ensures r == OfInt(0) || Some(r) == alt
    ensures r != OfInt(0) <==> alt.Some? && Truthy(alt.value) && Lt(alt.value, OfInt(length))
  {
    if alt.Some? && Truthy(alt.value) && Lt(alt.value, OfInt(length)) then alt.value else OfInt(0)
  }

  /** What the loader pushes for a region with patterns `patterns`: nothing
      (None) for an empty list, else `patterns[index]`, which is undefined
      (Some(None)) for an index that is not a position of the list. */
  function SelectPattern<T>(patterns: seq<T>, alt: Option<Num>): (r: Option<Option<T>>)
    ensures r.None? <==> |patterns| == 0
    ensures r.Some? && r.value.Some? ==> r.value.value in patterns
  {
    if |patterns| == 0 then None
    else
      var i := PatternIndex(alt, |patterns|);
      if IsInteger(i) && 0 <= i.r.Floor < |patterns| then Some(Some(patterns[i.r.Floor])) else Some(None)
  }

  /** Without an option, or with 0 or NaN, the first pattern is selected; a
      positional option within the list selects its pattern; one at or past
      the end falls back to the first. */
  lemma SelectPatternMeaning<T>(patterns: seq<T>, alt: Option<int>)
    requires |patterns| > 0
    ensures alt.None? ==> SelectPattern(patterns, None) == Some(Some(patterns[0]))
    ensures SelectPattern(patterns, Some(NaN)) == Some(Some(patterns[0]))
    ensures alt.Some? && 0 <= alt.value < |patterns| ==> SelectPattern(patterns, Some(OfInt(alt.value))) == Some(Some(patterns[alt.value]))
    ensures alt.Some? && alt.value >= |patterns| ==> SelectPattern(patterns, Some(OfInt(alt.value))) == Some(Some(patterns[0]))
  {
    if alt.Some? {
      assert (alt.value as real).Floor == alt.value;
    }
    assert (0 as real).Floor == 0;
  }

  /** A negative option passes the `< length` test and selects undefined. */
  lemma NegativeOptionSelectsUndefined<T>(patterns: seq<T>, alt: int)
    requires |patterns| > 0 && alt < 0
    ensures SelectPattern(patterns, Some(OfInt(alt))) == Some(None)
  {
    assert (alt as real).Floor == alt;
  }

  /** The dyes `#resolveGearDyes` has kept after visiting `dyes` on top of
      `acc`: a dye whose item type equals the target's overwrites the slot it names. */
  function Overlay(acc: map<int, Dye>, dyes: seq<Dye>, target: int): (r: map<int, Dye>)
    ensures forall k | k in r :: k in acc || r[k] in dyes
  {
    if |dyes| == 0 then acc
    else
      var p := Overlay(acc, dyes[..|dyes| - 1], target);
      var dye := dyes[|dyes| - 1];
      if dye.itemType == Some(target) then p[dye.slotTypeIndex := dye] else p
  }

  /** `dye` at `j` writes slot `k`. */
  predicate Writes(dyes: seq<Dye>, j: int, k: int, target: int) {
    0 <= j < |dyes| && dyes[j].itemType == Some(target) && dyes[j].slotTypeIndex == k
  }

  /** A slot no dye writes keeps its old value (or stays absent). */
  lemma {:induction false} OverlayUnwritten(acc: map<int, Dye>, dyes: seq<Dye>, target: int, k: int)
    requires forall j :: !Writes(dyes, j, k, target)
    ensures k in Overlay(acc, dyes, target) <==> k in acc
    ensures k in acc ==> Overlay(acc, dyes, target)[k] == acc[k]
    decreases |dyes|
  {
    if |dyes| > 0 {
      var init := dyes[..|dyes| - 1];
      forall j | Writes(init, j, k, target)
        ensures Writes(dyes, j, k, target)
      {
      }
      OverlayUnwritten(acc, init, target, k);
      assert !Writes(dyes, |dyes| - 1, k, target);
    }
  }

  /** Among the dyes writing a slot there is a last one. */
  lemma {:induction false} LastWriter(dyes: seq<Dye>, target: int, k: int, j: int) returns (l: int)
    requires Writes(dyes, j, k, target)
    ensures Writes(dyes, l, k, target) && forall j' | l < j' < |dyes| :: !Writes(dyes, j', k, target)
    decreases |dyes| - j
  {
    if forall j' | j < j' < |dyes| :: !Writes(dyes, j', k, target) {
      l := j;
    } else {
      var j' :| j < j' < |dyes| && Writes(dyes, j', k, target);
      l := LastWriter(dyes, target, k, j');
    }
  }

  /** A slot holds the last dye that writes it. */
  lemma {:induction false} OverlayLastWriter(acc: map<int, Dye>, dyes: seq<Dye>, target: int, k: int, j: int)
    requires Writes(dyes, j, k, target)
    requires forall j' | j < j' < |dyes| :: !Writes(dyes, j', k, target)
    ensures k in Overlay(acc, dyes, target) && Overlay(acc, dyes, target)[k] == dyes[j]
    decreases |dyes|
  {
    var init := dyes[..|dyes| - 1];
    if j < |dyes| - 1 {
      assert !Writes(dyes, |dyes| - 1, k, target);
      assert Writes(init, j, k, target);
      forall j' | j < j' < |init|
        ensures !Writes(init, j', k, target)
      {
        assert !Writes(dyes, j', k, target);
      }
      OverlayLastWriter(acc, init, target, k, j);
    }
  }

  /** Every dye kept from an empty start has the target item type. */
  lemma {:induction false} OverlayKeepsTarget(acc: map<int, Dye>, dyes: seq<Dye>, target: int)
    requires forall k | k in acc :: acc[k].itemType == Some(target) && acc[k].slotTypeIndex == k
    ensures forall k | k in Overlay(acc, dyes, target) ::
      Overlay(acc, dyes, target)[k].itemType == Some(target) && Overlay(acc, dyes, target)[k].slotTypeIndex == k
    decreases |dyes|
  {
    if |dyes| > 0 {
      OverlayKeepsTarget(acc, dyes[..|dyes| - 1], target);
    }
  }

  /** Visiting two lists one after the other is visiting their concatenation. */
  lemma {:induction false} OverlayConcat(acc: map<int, Dye>, a: seq<Dye>, b: seq<Dye>, target: int)
    ensures Overlay(Overlay(acc, a, target), b, target) == Overlay(acc, a + b, target)
    decreases |b|
  {
    if |b| == 0 {
      assert a + b == a;
    } else {
      OverlayConcat(acc, a, b[..|b| - 1], target);
      assert (a + b)[..|a + b| - 1] == a + b[..|b| - 1];
    }
  }

  /** `#resolveGearDyes(itemId, shaderId)` on the cache's dictionary. The
      custom dyes come from the shader's entry when it is loaded, else from
      the gear's. An absent item, an item without dyes (null groups), a loaded
      shader without dyes, and an item with a null item type (its
      `toString()` in the log line) are TypeErrors. */
  function GearDyesResolved(d: Data, itemId: string, shaderId: Option<string>): (r: Result<map<int, Dye>>)
    ensures r.Failure? ==> r.error == TypeError
  {
    if itemId !in d then Failure(TypeError)
    else
      var gear := d[itemId].dyes;
      var shader := if shaderId.Some? && shaderId.value in d then d[shaderId.value].dyes else gear;
      if d[itemId].itemType.None? || gear.None? || shader.None? then Failure(TypeError)
      else
        var t := d[itemId].itemType.value;
        Success(Overlay(map[], gear.value.defaultDyes + shader.value.customDyes + gear.value.lockedDyes, t))
  }

  /** The resolved dyes are the dyes of the item's type, each under its own
      slot; a slot goes to the last locked dye naming it, else the last
      custom one, else the last default one. */
  lemma GearDyesMeaning(d: Data, itemId: string, shaderId: Option<string>, k: int)
    requires GearDyesResolved(d, itemId, shaderId).Success?
    ensures var r := GearDyesResolved(d, itemId, shaderId).value;
      var t := d[itemId].itemType.value;
      var all := GearDyes(d, itemId, shaderId);
      (forall s | s in r :: r[s].itemType == Some(t) && r[s].slotTypeIndex == s)
      && (k in r <==> exists j :: Writes(all, j, k, t))
      && forall j | Writes(all, j, k, t) && (forall j' | j < j' < |all| :: !Writes(all, j', k, t)) :: k in r && r[k] == all[j]
  {
    var t := d[itemId].itemType.value;
    var all := GearDyes(d, itemId, shaderId);
    assert GearDyesResolved(d, itemId, shaderId).value == Overlay(map[], all, t);
    OverlayFromEmpty(all, t, k);
  }

  lemma OverlayFromEmpty(all: seq<Dye>, t: int, k: int)
    ensures var r := Overlay(map[], all, t);
      (forall s | s in r :: r[s].itemType == Some(t) && r[s].slotTypeIndex == s)
      && (k in r <==> exists j :: Writes(all, j, k, t))
      && forall j | Writes(all, j, k, t) && (forall j' | j < j' < |all| :: !Writes(all, j', k, t)) :: k in r && r[k] == all[j]
  {
    OverlayKeepsTarget(map[], all, t);
    var r := Overlay(map[], all, t);
    if k in r {
      var j :| 0 <= j < |all| && all[j] == r[k];
      assert Writes(all, j, k, t);
    } else if exists j :: Writes(all, j, k, t) {
      var j :| Writes(all, j, k, t);
      var l := LastWriter(all, t, k, j);
      OverlayLastWriter(map[], all, t, k, l);
    } else {
      OverlayUnwritten(map[], all, t, k);
    }
    forall j | Writes(all, j, k, t) && (forall j' | j < j' < |all| :: !Writes(all, j', k, t))
      ensures k in r && r[k] == all[j]
    {
      OverlayLastWriter(map[], all, t, k, j);
    }
  }

  /** The visiting order: default, custom, locked. */
  function GearDyes(d: Data, itemId: string, shaderId: Option<string>): seq<Dye>
    requires GearDyesResolved(d, itemId, shaderId).Success?
  {
    var gear := d[itemId].dyes.value;
    var shader := if shaderId.Some? && shaderId.value in d then d[shaderId.value].dyes.value else gear;
    gear.defaultDyes + shader.customDyes + gear.lockedDyes
  }

  /** The inner loop over one dye list. */
  method OverlayDyes(acc: map<int, Dye>, dyes: seq<Dye>, target: int) returns (resolved: map<int, Dye>)
    ensures resolved == Overlay(acc, dyes, target)
  {
    resolved := acc;
    for j := 0 to |dyes|
      invariant resolved == Overlay(acc, dyes[..j], target)
    {
      assert dyes[..j + 1][..j] == dyes[..j];
      var dye := dyes[j];
      if dye.itemType == Some(target) {
        resolved := resolved[dye.slotTypeIndex := dye];
      }
    }
    assert dyes[..|dyes|] == dyes;
  }

  datatype DyeType = DefaultDyes | CustomDyes | LockedDyes

  method ResolveGearDyes(cache: TGXCache, itemId: string, shaderId: Option<string>) returns (r: Result<map<int, Dye>>)
    ensures r == GearDyesResolved(cache.data, itemId, shaderId)
  {
    if itemId !in cache.data {
      return Failure(TypeError);
    }
    var gearDyeGroups := cache.data[itemId].dyes;
    var shaderDyeGroups := gearDyeGroups;
    if shaderId.Some? && shaderId.value in cache.data {
      shaderDyeGroups := cache.data[shaderId.value].dyes;
    }
    var targetItemType := cache.data[itemId].itemType;
    if targetItemType.None? {
      return Failure(TypeError);
    }
    var t := targetItemType.value;
    var resolved := map[];
    var dyeTypeOrder := [DefaultDyes, CustomDyes, LockedDyes];
    for i := 0 to 3
      invariant i > 0 ==> gearDyeGroups.Some?
      invariant i > 1 ==> shaderDyeGroups.Some?
      invariant resolved == Overlay(map[], Visited(gearDyeGroups, shaderDyeGroups, i), t)
    {
      var groups := if dyeTypeOrder[i] == CustomDyes then shaderDyeGroups else gearDyeGroups;
      if groups.None? {
        return Failure(TypeError);
      }
      var dyes := match dyeTypeOrder[i]
        case DefaultDyes => groups.value.defaultDyes
        case CustomDyes => groups.value.customDyes
        case LockedDyes => groups.value.lockedDyes;
      OverlayConcat(map[], Visited(gearDyeGroups, shaderDyeGroups, i), dyes, t);
      assert Visited(gearDyeGroups, shaderDyeGroups, i) + dyes == Visited(gearDyeGroups, shaderDyeGroups, i + 1);
      resolved := OverlayDyes(resolved, dyes, t);
    }
    r := Success(resolved);
  }

  /** The dyes of the first `i` lists in visiting order. */
  function Visited(gear: Option<DyeGroups>, shader: Option<DyeGroups>, i: nat): seq<Dye>
    requires i > 0 ==> gear.Some?
    requires i > 1 ==> shader.Some?
  {
    if i == 0 then []
    else if i == 1 then gear.value.defaultDyes
    else if i == 2 then gear.value.defaultDyes + shader.value.customDyes
    else gear.value.defaultDyes + shader.value.customDyes + gear.value.lockedDyes
  }

  /** `dispose(id)`: without an id the whole cache is reset; with one the
      loader calls `disposeSingleItem`, a method the cache does not have. */
  method Dispose(cache: TGXCache, id: Option<string>) returns (err: Option<Error>)
    requires cache.Valid()
    modifies cache
    ensures cache.Valid()
    ensures id.None? ==> err.None? && cache.data == map[]
    ensures id.Some? ==> err == Some(TypeError) && cache.data == old(cache.data)
  {
    if id.None? {
      cache.Reset(true);
      ResetMeaning(old(cache.data));
      err := None;
    } else {
      err := Some(TypeError);
    }
  }

  /** `reset()`: the cache keeps its global entries. */
  method Reset(cache: TGXCache)
    requires cache.Valid()
    modifies cache
    ensures cache.Valid()
    ensures cache.data == AfterReset(old(cache.data), false)
  {
    cache.Reset(false);
  }
}
