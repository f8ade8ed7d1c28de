/** `compareArtRegionPatterns(oldVal, newVal)`: what changes between two
    selections of art-region patterns, keyed by region index. A region only
    in the old selection has its geometry removed, one only in the new has
    its geometry added, and a region in both stays when its pattern hash is
    unchanged and is swapped otherwise. */
module ArtRegionPatterns {

  /** `selectedPattern` of a region: its hash and the geometry it draws. */
  datatype Pattern = Pattern(hash: int, geometryHashes: seq<string>)

  /** A JavaScript object of regions: its keys in `Object.keys` order and its values. */
  datatype Obj = Obj(keys: seq<string>, values: map<string, Pattern>)

  predicate Distinct(s: seq<string>) {
    forall i, j | 0 <= i < j < |s| :: s[i] != s[j]
  }

  /** What every object is: each own key listed once. */
  predicate WellFormed(o: Obj) {
    Distinct(o.keys) && (forall k | k in o.values :: k in o.keys) && (forall k | k in o.keys :: k in o.values)
  }

  function Elements(s: seq<string>): set<string> {
    set x | x in s
  }

  /** The keys of `keys`, in order, that are (or are not) own keys of `m`. */
  function KeysWhere(keys: seq<string>, m: map<string, Pattern>, present: bool): (r: seq<string>)
    ensures forall x :: x in r <==> x in keys && ((x in m) == present)
  {
    if |keys| == 0 then []
    else
      var init := KeysWhere(keys[..|keys| - 1], m, present);
      var k := keys[|keys| - 1];
      if (k in m) == present then init + [k] else init
  }

  lemma {:induction false} KeysWhereDistinct(keys: seq<string>, m: map<string, Pattern>, present: bool)
    requires Distinct(keys)
    ensures Distinct(KeysWhere(keys, m, present))
  {
    if |keys| > 0 {
      var init := keys[..|keys| - 1];
      assert Distinct(init) by {
        forall i, j | 0 <= i < j < |init|
          ensures init[i] != init[j]
        {
          assert init[i] == keys[i] && init[j] == keys[j];
        }
      }
      KeysWhereDistinct(init, m, present);
      var k := keys[|keys| - 1];
      if (k in m) == present {
        assert k !in init;
        var r := KeysWhere(init, m, present) + [k];
        forall i, j | 0 <= i < j < |r|
          ensures r[i] != r[j]
        {
          if j == |r| - 1 {
            assert r[i] in KeysWhere(init, m, present);
          }
        }
      }
    }
  }

  lemma KeysWhereSnoc(keys: seq<string>, m: map<string, Pattern>, present: bool, i: nat)
    requires i < |keys|
    ensures KeysWhere(keys[..i + 1], m, present)
            == KeysWhere(keys[..i], m, present) + (if (keys[i] in m) == present then [keys[i]] else [])
  {
    assert keys[..i + 1][..i] == keys[..i];
  }

  /** `compareKeys(obj1, obj2)`: the keys of `obj1` that `obj2` also has, those it has
      not, and the keys of `obj2` that `obj1` has not. */
  method CompareKeys(o1: Obj, o2: Obj) returns (common: seq<string>, onlyInFirst: seq<string>, onlyInSecond: seq<string>)
    ensures common == KeysWhere(o1.keys, o2.values, true)
    ensures onlyInFirst == KeysWhere(o1.keys, o2.values, false)
    ensures onlyInSecond == KeysWhere(o2.keys, o1.values, false)
  {
    common, onlyInFirst, onlyInSecond := [], [], [];
    for i := 0 to |o1.keys|
      invariant common == KeysWhere(o1.keys[..i], o2.values, true)
      invariant onlyInFirst == KeysWhere(o1.keys[..i], o2.values, false)
    {
      KeysWhereSnoc(o1.keys, o2.values, true, i);
      KeysWhereSnoc(o1.keys, o2.values, false, i);
      var key := o1.keys[i];
      if key in o2.values {
        common := common + [key];
      } else {
        onlyInFirst := onlyInFirst + [key];
      }
    }
    for i := 0 to |o2.keys|
      invariant onlyInSecond == KeysWhere(o2.keys[..i], o1.values, false)
    {
      KeysWhereSnoc(o2.keys, o1.values, false, i);
      var key := o2.keys[i];
      if key !in o1.values {
        onlyInSecond := onlyInSecond + [key];
      }
    }
    assert o1.keys[..|o1.keys|] == o1.keys && o2.keys[..|o2.keys|] == o2.keys;
  }

  /** The three key lists are pairwise disjoint, list no key twice, and
      together hold the keys of both objects. */
  lemma CompareKeysPartition(o1: Obj, o2: Obj, k: string)
    requires WellFormed(o1) && WellFormed(o2)
    ensures var common := KeysWhere(o1.keys, o2.values, true);
      var onlyInFirst := KeysWhere(o1.keys, o2.values, false);
      var onlyInSecond := KeysWhere(o2.keys, o1.values, false);
      Distinct(common) && Distinct(onlyInFirst) && Distinct(onlyInSecond)
      && !(k in common && k in onlyInFirst) && !(k in common && k in onlyInSecond)
      && !(k in onlyInFirst && k in onlyInSecond)
      && (k in common || k in onlyInFirst || k in onlyInSecond <==> k in o1.keys || k in o2.keys)
  {
    KeysWhereDistinct(o1.keys, o2.values, true);
    KeysWhereDistinct(o1.keys, o2.values, false);
    KeysWhereDistinct(o2.keys, o1.values, false);
  }

  /** The entry of one region in the result. */
  datatype Change = Change(add: seq<string>, remove: seq<string>, stay: seq<string>)

  const Empty := Change([], [], [])

  /** `if (!res[regionIndex]) res[regionIndex] = { add: [], remove: [], stay: [] }`. */
  function EntryFor(res: map<string, Change>, k: string): (r: Change)
    ensures k !in res ==> r == Empty
  {
    if k in res then res[k] else Empty
  }

  /** A region's change, by where its key is. */
  function ChangeOf(before: map<string, Pattern>, after: map<string, Pattern>, k: string): Change
    requires k in before || k in after
  {
    if k !in after then Change([], before[k].geometryHashes, [])
    else if k !in before then Change(after[k].geometryHashes, [], [])
    else if before[k].hash != after[k].hash then Change(after[k].geometryHashes, before[k].geometryHashes, [])
    else Change([], [], before[k].geometryHashes)
  }

  /** The changes of the regions in `s`. */
  function Among(before: map<string, Pattern>, after: map<string, Pattern>, s: set<string>): map<string, Change>
    requires forall k | k in s :: k in before || k in after
  {
    map k | k in s :: ChangeOf(before, after, k)
  }

  /** Adding one region to `s` adds its change to the map. */
  lemma AmongStep(before: map<string, Pattern>, after: map<string, Pattern>, s: set<string>, k: string)
    requires forall x | x in s :: x in before || x in after
    requires (k in before || k in after) && k !in s
    ensures k !in Among(before, after, s)
    ensures Among(before, after, s + {k}) == Among(before, after, s)[k := ChangeOf(before, after, k)]
  {
  }

  lemma ElementsSnoc(s: seq<string>, i: nat)
    requires i < |s| && Distinct(s)
    ensures s[i] !in Elements(s[..i])
    ensures Elements(s[..i + 1]) == Elements(s[..i]) + {s[i]}
  {
    assert s[..i + 1] == s[..i] + [s[i]];
  }

  /** The result `compareArtRegionPatterns` promises: one entry per region of
      either selection. */
  function Compared(before: map<string, Pattern>, after: map<string, Pattern>): (r: map<string, Change>)
    ensures r.Keys == before.Keys + after.Keys
  {
    Among(before, after, before.Keys + after.Keys)
  }

  /** `compareArtRegionPatterns(oldVal, newVal)`: the regions to remove, then
      those in common, then those to add, each creating its entry and pushing
      its hashes. */
  method CompareArtRegionPatterns(oldVal: Obj, newVal: Obj) returns (res: map<string, Change>)
    requires WellFormed(oldVal) && WellFormed(newVal)
    ensures res == Compared(oldVal.values, newVal.values)
  {
    var commonIndices, indicesToRemove, indicesToAdd := CompareKeys(oldVal, newVal);
    KeysWhereDistinct(oldVal.keys, newVal.values, true);
    KeysWhereDistinct(oldVal.keys, newVal.values, false);
    KeysWhereDistinct(newVal.keys, oldVal.values, false);
    var before, after := oldVal.values, newVal.values;
    ghost var removed, kept, added := Elements(indicesToRemove), Elements(commonIndices), Elements(indicesToAdd);
    KeySets(oldVal, newVal);
    res := map[];
    assert res == Among(before, after, {});
    res := RemoveRegions(before, after, res, {}, indicesToRemove);
    assert {} + removed == removed;
    res := CommonRegions(before, after, res, removed, commonIndices);
    res := AddRegions(before, after, res, removed + kept, indicesToAdd);

  }

  /** The key lists as sets: the regions only in the first object, in both, and only in the second. */
  lemma KeySets(o1: Obj, o2: Obj)
    requires WellFormed(o1) && WellFormed(o2)
    ensures Elements(KeysWhere(o1.keys, o2.values, false)) == o1.values.Keys - o2.values.Keys
    ensures Elements(KeysWhere(o1.keys, o2.values, true)) == o1.values.Keys * o2.values.Keys
    ensures Elements(KeysWhere(o2.keys, o1.values, false)) == o2.values.Keys - o1.values.Keys
    ensures (o1.values.Keys - o2.values.Keys) + (o1.values.Keys * o2.values.Keys) + (o2.values.Keys - o1.values.Keys)
            == o1.values.Keys + o2.values.Keys
  {
  }

  /** The first loop: regions only in the old selection. */
  method RemoveRegions(before: map<string, Pattern>, after: map<string, Pattern>, res0: map<string, Change>,
                       ghost s: set<string>, indices: seq<string>) returns (res: map<string, Change>)
    requires forall k | k in s :: k in before
    requires Distinct(indices) && forall k | k in indices :: k in before && k !in after && k !in s
    requires res0 == Among(before, after, s)
    ensures res == Among(before, after, s + Elements(indices))
  {
    res := res0;
    assert Elements(indices[..0]) == {};
    for i := 0 to |indices|
      invariant res == Among(before, after, s + Elements(indices[..i]))
    {
      var regionIndex := indices[i];
      ElementsSnoc(indices, i);
      var oldPattern := before[regionIndex];
      AmongStep(before, after, s + Elements(indices[..i]), regionIndex);
      var entry := EntryFor(res, regionIndex);
      assert entry.remove + oldPattern.geometryHashes == oldPattern.geometryHashes;
      res := res[regionIndex := entry.(remove := entry.remove + oldPattern.geometryHashes)];
    }
    assert indices[..|indices|] == indices;
  }

  /** The second loop: regions in both, swapped when the hash differs. */
  method CommonRegions(before: map<string, Pattern>, after: map<string, Pattern>, res0: map<string, Change>,
                       ghost s: set<string>, indices: seq<string>) returns (res: map<string, Change>)
    requires forall k | k in s :: k in before && k !in after
    requires Distinct(indices) && forall k | k in indices :: k in before && k in after
    requires res0 == Among(before, after, s)
    ensures res == Among(before, after, s + Elements(indices))
  {
    res := res0;
    assert Elements(indices[..0]) == {};
    for i := 0 to |indices|
      invariant res == Among(before, after, s + Elements(indices[..i]))
    {
      var regionIndex := indices[i];
      ElementsSnoc(indices, i);
      var oldPattern := before[regionIndex];
      var newPattern := after[regionIndex];
      AmongStep(before, after, s + Elements(indices[..i]), regionIndex);
      var entry := EntryFor(res, regionIndex);
      assert entry == Empty;
      if oldPattern.hash != newPattern.hash {
        entry := entry.(remove := entry.remove + oldPattern.geometryHashes);
        entry := entry.(add := entry.add + newPattern.geometryHashes);
        assert entry == Change(newPattern.geometryHashes, oldPattern.geometryHashes, []);
      } else {
        entry := entry.(stay := entry.stay + oldPattern.geometryHashes);
        assert entry == Change([], [], oldPattern.geometryHashes);
      }
      res := res[regionIndex := entry];
    }
    assert indices[..|indices|] == indices;
  }

  /** The third loop: regions only in the new selection. */
  method AddRegions(before: map<string, Pattern>, after: map<string, Pattern>, res0: map<string, Change>,
                    ghost s: set<string>, indices: seq<string>) returns (res: map<string, Change>)
    requires forall k | k in s :: k in before
    requires Distinct(indices) && forall k | k in indices :: k in after && k !in before
    requires res0 == Among(before, after, s)
    ensures res == Among(before, after, s + Elements(indices))
  {
    res := res0;
    assert Elements(indices[..0]) == {};
    for i := 0 to |indices|
      invariant res == Among(before, after, s + Elements(indices[..i]))
    {
      var regionIndex := indices[i];
      ElementsSnoc(indices, i);
      var newPattern := after[regionIndex];
      AmongStep(before, after, s + Elements(indices[..i]), regionIndex);
      var entry := EntryFor(res, regionIndex);
      assert entry.add + newPattern.geometryHashes == newPattern.geometryHashes;
      res := res[regionIndex := entry.(add := entry.add + newPattern.geometryHashes)];
    }
    assert indices[..|indices|] == indices;
  }

  /** A region only in the old selection is removed, one only in the new is
      added, and one in both is swapped or stays by its hash. */
  lemma ComparedMeaning(before: map<string, Pattern>, after: map<string, Pattern>, k: string)
    ensures k in Compared(before, after) <==> k in before || k in after
    ensures k in before && k !in after ==> Compared(before, after)[k] == Change([], before[k].geometryHashes, [])
    ensures k !in before && k in after ==> Compared(before, after)[k] == Change(after[k].geometryHashes, [], [])
    ensures k in before && k in after && before[k].hash != after[k].hash ==>
      Compared(before, after)[k] == Change(after[k].geometryHashes, before[k].geometryHashes, [])
    ensures k in before && k in after && before[k].hash == after[k].hash ==> Compared(before, after)[k] == Change([], [], before[k].geometryHashes)
  {
  }

  /** Comparing a selection with itself adds and removes nothing: every region stays. */
  lemma SelfComparison(p: map<string, Pattern>)
    ensures Compared(p, p).Keys == p.Keys
    ensures forall k | k in Compared(p, p) :: Compared(p, p)[k] == Change([], [], p[k].geometryHashes)
  {
  }
}
