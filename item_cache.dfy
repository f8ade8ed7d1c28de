/** `TGXCache`: the keyed store of everything loaded for an item. Entries live
    in a private dictionary keyed by `"{prefix}:{itemHash}"`; every accessor
    looks its entry up first, so an accessor given an id that has no entry
    reads a property of undefined and raises a TypeError. */
module ItemCache {
  import opened Wrappers

  /** A value the cache stores without looking into it: a definition, a gear
      file, a parsed TGX structure, a THREE texture or geometry. */
  type Token = nat

  /** A gear dye as the loader builds it; a dye with no channel has a null item type. */
  datatype Dye = Dye(hash: int, itemType: Option<int>, slotTypeIndex: int)

  /** The dye lists of a gear file. */
  datatype DyeGroups = DyeGroups(defaultDyes: seq<Dye>, customDyes: seq<Dye>, lockedDyes: seq<Dye>)

  /** An entry of a gear asset definition's `content` list; an absent
      `geometry` or `textures` list is the empty one. */
  datatype Content = Content(platform: string, geometry: seq<string>, textures: seq<string>)

  datatype GearAssetDefinition = GearAssetDefinition(content: Option<seq<Content>>)

  /** The five dictionaries of an entry that share the add/get/has accessors. */
  datatype Store = GeometryData | TexturesData | ThreeTextures | ThreeGeometries | ParsedGeometryData

  /** The two per-file loaded-flag lists. They are plain arrays: a flag set
      past the end grows the list, and reading past it gives undefined. */
  datatype Flags = GeometryFlags | TextureFlags

  /** `nthGeometryDataLoaded` and `nthTextureTGXLoaded`. */
  datatype LoadedFlags = LoadedFlags(geometry: map<int, bool>, texture: map<int, bool>)

  /** `geometryData`, `texturesData`, `threeTextures`, `threeGeometries` and `parsedGeometryData`. */
  datatype Stores = Stores(
    geometryData: map<string, Token>,
    texturesData: map<string, Token>,
    threeTextures: map<string, Token>,
    threeGeometries: map<string, Token>,
    parsedGeometryData: map<string, Token>)

  datatype Entry = Entry(
    prefix: string,
    itemHash: string,
    itemType: Option<int>,
    uniqueId: string,
    inventoryDefinition: Option<Token>,
    gearAssetDefinition: Option<GearAssetDefinition>,
    loaded: LoadedFlags,
    gearFileName: string,
    gearFilesData: map<string, Token>,
    stores: Stores,
    dyes: Option<DyeGroups>,
    resolvedDefaultDyes: Option<map<int, Dye>>,
    omolonLiquidColor: string)

  /** The cache's dictionary. */
  type Data = map<string, Entry>

  /** `createId(itemHash, prefix)`. */
  function CreateId(itemHash: string, prefix: string): (id: string)
    ensures |id| == |prefix| + 1 + |itemHash|
    ensures id[..|prefix|] == prefix && id[|prefix|] == ':' && id[|prefix| + 1..] == itemHash
  {
    prefix + ":" + itemHash
  }

  /** `hasEntry(itemHash, prefix)`. */
  predicate HasEntry(d: Data, itemHash: string, prefix: string) {
    CreateId(itemHash, prefix) in d
  }

  /** Ids of prefixes without a colon, such as "destiny", "destiny2" and
      "global", name one (prefix, hash) pair each. */
  lemma CreateIdInjective(h1: string, p1: string, h2: string, p2: string)
    requires ':' !in p1 && ':' !in p2
    requires CreateId(h1, p1) == CreateId(h2, p2)
    ensures h1 == h2 && p1 == p2
  {
    var id := CreateId(h1, p1);
    assert p1 == id[..|p1|] == p2;
  }

  /** The loaded flags of a list of `n` files: `new Array(n).fill(false)`. */
  function AllUnloaded(n: nat): (f: map<int, bool>)
    ensures forall i :: i in f <==> 0 <= i < n
    ensures forall i | i in f :: !f[i]
  {
    map i | i in Below(n) :: false
  }

  function Below(n: nat): (s: set<int>)
    ensures forall i :: i in s <==> 0 <= i < n
  {
    if n == 0 then {} else Below(n - 1) + {n - 1}
  }

  /** `gearAssetDef.content?.find(e => e.platform === "mobile")`. */
  function MobileContent(content: seq<Content>): (c: Option<Content>)
    ensures c.Some? ==> c.value in content && c.value.platform == "mobile"
    ensures c.None? <==> forall k | 0 <= k < |content| :: content[k].platform != "mobile"
  {
    if content == [] then None
    else if content[0].platform == "mobile" then Some(content[0])
    else MobileContent(content[1..])
  }

  /** The prefixes whose entries need no definitions. */
  predicate NeedsNoDefinitions(itemHash: string, prefix: string) {
    prefix == "global" || (prefix == "destiny2" && itemHash == "hands")
  }

  /** The entry `initEntry` creates, when it creates one. */
  function FreshEntry(itemHash: string, prefix: string, itemType: Option<int>,
                      inv: Option<Token>, gear: Option<GearAssetDefinition>, geometryLength: nat, textureLength: nat): Entry
  {
    Entry(prefix, itemHash, itemType, CreateId(itemHash, prefix), inv, gear,
          LoadedFlags(AllUnloaded(geometryLength), AllUnloaded(textureLength)), "", map[],
          Stores(map[], map[], map[], map[], map[]), None, None, "#00a4ff")
  }

  /** `initEntry(itemHash, prefix, itemType, inventoryDef, gearAssetDef)`: the
      id it returns (None for null) and the new dictionary. */
  function Initialized(d: Data, itemHash: string, prefix: string, itemType: Option<int>,
                     inv: Option<Token>, gear: Option<GearAssetDefinition>): (r: (Option<string>, Data))
  {
    var id := CreateId(itemHash, prefix);
    if id in d then (Some(id), d)
    else if NeedsNoDefinitions(itemHash, prefix) then
      (Some(id), d[id := FreshEntry(itemHash, prefix, itemType, inv, gear, 0, 0)])
    else if inv.None? || gear.None? || gear.value.content.None? then (None, d)
    else match MobileContent(gear.value.content.value)
      case None => (None, d)
      case Some(c) => (Some(id), d[id := FreshEntry(itemHash, prefix, itemType, inv, gear, |c.geometry|, |c.textures|)])
  }

  /** An existing id is returned and nothing changes. */
  lemma InitExisting(d: Data, itemHash: string, prefix: string, itemType: Option<int>,
                     inv: Option<Token>, gear: Option<GearAssetDefinition>)
    requires HasEntry(d, itemHash, prefix)
    ensures Initialized(d, itemHash, prefix, itemType, inv, gear) == (Some(CreateId(itemHash, prefix)), d)
  {
  }

  /** An item that needs definitions gets null and no entry when a definition
      is null or its gear asset has no mobile content; otherwise it gets its
      entry, and a global or hands entry always does. */
  lemma InitMeaning(d: Data, itemHash: string, prefix: string, itemType: Option<int>,
                    inv: Option<Token>, gear: Option<GearAssetDefinition>)
    requires !HasEntry(d, itemHash, prefix)
    ensures var (id, d') := Initialized(d, itemHash, prefix, itemType, inv, gear);
      (id.None? <==> !NeedsNoDefinitions(itemHash, prefix)
                      && (inv.None? || gear.None? || gear.value.content.None?
                          || MobileContent(gear.value.content.value).None?))
      && (id.None? ==> d' == d)
      && (id.Some? ==> id.value == CreateId(itemHash, prefix) && d'.Keys == d.Keys + {id.value}
                       && forall k | k in d :: d'[k] == d[k])
  {
  }

  /** A fresh entry has one false flag per geometry and texture file of its
      mobile content (none for a global or hands entry), and its own id. */
  lemma FreshFlags(d: Data, itemHash: string, prefix: string, itemType: Option<int>,
                   inv: Option<Token>, gear: Option<GearAssetDefinition>)
    requires !HasEntry(d, itemHash, prefix)
    requires Initialized(d, itemHash, prefix, itemType, inv, gear).0.Some?
    ensures var (id, d') := Initialized(d, itemHash, prefix, itemType, inv, gear);
      var e := d'[id.value];
      e.uniqueId == id.value && e.prefix == prefix && e.gearFileName == "" && e.dyes.None?
      && (NeedsNoDefinitions(itemHash, prefix) ==> e.loaded.geometry == map[] && e.loaded.texture == map[])
      && (!NeedsNoDefinitions(itemHash, prefix) ==>
            var c := MobileContent(gear.value.content.value).value;
            (forall i :: i in e.loaded.geometry <==> 0 <= i < |c.geometry|)
            && (forall i :: i in e.loaded.texture <==> 0 <= i < |c.textures|)
            && (forall i | i in e.loaded.geometry :: !e.loaded.geometry[i])
            && (forall i | i in e.loaded.texture :: !e.loaded.texture[i]))
  {
  }

  /** The entry of `id`; an absent one is undefined and its property read a TypeError. */
  function EntryOf(d: Data, id: string): (r: Result<Entry>)
    ensures r.Success? <==> id in d
    ensures r.Success? ==> r.value == d[id]
    ensures r.Failure? ==> r.error == TypeError
  {
    if id in d then Success(d[id]) else Failure(TypeError)
  }

  function FlagsOf(e: Entry, which: Flags): map<int, bool> {
    match which
    case GeometryFlags => e.loaded.geometry
    case TextureFlags => e.loaded.texture
  }

  function Marked(l: LoadedFlags, which: Flags, index: int): LoadedFlags {
    match which
    case GeometryFlags => l.(geometry := l.geometry[index := true])
    case TextureFlags => l.(texture := l.texture[index := true])
  }

  function StoreOf(e: Entry, s: Store): map<string, Token> {
    match s
    case GeometryData => e.stores.geometryData
    case TexturesData => e.stores.texturesData
    case ThreeTextures => e.stores.threeTextures
    case ThreeGeometries => e.stores.threeGeometries
    case ParsedGeometryData => e.stores.parsedGeometryData
  }

  function Added(st: Stores, s: Store, k: string, v: Token): Stores {
    match s
    case GeometryData => st.(geometryData := st.geometryData[k := v])
    case TexturesData => st.(texturesData := st.texturesData[k := v])
    case ThreeTextures => st.(threeTextures := st.threeTextures[k := v])
    case ThreeGeometries => st.(threeGeometries := st.threeGeometries[k := v])
    case ParsedGeometryData => st.(parsedGeometryData := st.parsedGeometryData[k := v])
  }

  /** `checkGeometryDataLoaded(id, index)` / `checkTextureTGXLoaded(id, index)`:
      the flag, or undefined (None) past the list. */
  function CheckLoaded(d: Data, id: string, which: Flags, index: int): (r: Result<Option<bool>>)
    ensures r.Failure? <==> id !in d
    ensures r.Success? ==> (r.value.Some? <==> index in FlagsOf(d[id], which))
  {
    match EntryOf(d, id)
    case Failure(e) => Failure(e)
    case Success(e) =>
      var f := FlagsOf(e, which);
      Success(if index in f then Some(f[index]) else None)
  }

  /** `get{GeometryData,TextureData,ThreeTexture,ThreeGeometry,ParsedGeometryData}(id, key)`:
      the stored value, or undefined (None). */
  function Lookup(d: Data, id: string, s: Store, key: string): (r: Result<Option<Token>>)
    ensures r.Failure? <==> id !in d
  {
    match EntryOf(d, id)
    case Failure(e) => Failure(e)
    case Success(e) => Success(if key in StoreOf(e, s) then Some(StoreOf(e, s)[key]) else None)
  }

  /** `has{GeometryData,TextureData,ThreeTexture,ThreeGeometry,ParsedGeometryData}(id, key)`. */
  function Has(d: Data, id: string, s: Store, key: string): (r: Result<bool>) {
    match EntryOf(d, id)
    case Failure(e) => Failure(e)
    case Success(e) => Success(key in StoreOf(e, s))
  }

  /** A key is present exactly when its lookup gives a value. */
  lemma HasMeaning(d: Data, id: string, s: Store, key: string)
    ensures Has(d, id, s, key).Failure? <==> Lookup(d, id, s, key).Failure?
    ensures Has(d, id, s, key) == Success(true) <==> Lookup(d, id, s, key).Success? && Lookup(d, id, s, key).value.Some?
  {
  }

  /** `getGearFile(id)`: null while the gear file name is empty, else the
      file stored under it (undefined when there is none). */
  function GetGearFile(d: Data, id: string): (r: Result<Option<Token>>)
    ensures r.Failure? <==> id !in d
    ensures r.Success? ==> (r.value.Some? <==> d[id].gearFileName != "" && d[id].gearFileName in d[id].gearFilesData)
    ensures r.Success? && r.value.Some? ==> r.value.value == d[id].gearFilesData[d[id].gearFileName]
  {
    match EntryOf(d, id)
    case Failure(e) => Failure(e)
    case Success(e) =>
      if e.gearFileName == "" then Success(None)
      else if e.gearFileName in e.gearFilesData then Success(Some(e.gearFilesData[e.gearFileName]))
      else Success(None)
  }

  /** The setters, each of which assigns one field (or one key) of an entry. */
  datatype Change =
    | MarkLoaded(which: Flags, index: int)            // markGeometryDataLoaded, markTextureTGXLoaded
    | SetGearFileName(name: string)                   // setGearFileName
    | AddGearFile(name: string, file: Token)          // addGearFile
    | Add(store: Store, key: string, value: Token)    // addGeometryData, addTextureData, addThreeTexture, ...
    | SetDyes(dyes: Option<DyeGroups>)                // setDyes
    | SetResolvedDefaultDyes(resolved: Option<map<int, Dye>>)  // setResolvedDefaultDyes
    | SetOmolonLiquidColor(color: string)             // setOmolonLiquidColor

  function Applied(e: Entry, c: Change): Entry {
    match c
    case MarkLoaded(w, i) => e.(loaded := Marked(e.loaded, w, i))
    case SetGearFileName(n) => e.(gearFileName := n)
    case AddGearFile(n, f) => e.(gearFilesData := e.gearFilesData[n := f])
    case Add(st, k, v) => e.(stores := Added(e.stores, st, k, v))
    case SetDyes(g) => e.(dyes := g)
    case SetResolvedDefaultDyes(r) => e.(resolvedDefaultDyes := r)
    case SetOmolonLiquidColor(col) => e.(omolonLiquidColor := col)
  }

  /** A setter on `id`: a TypeError when there is no entry, else the entry changed. */
  function Updated(d: Data, id: string, c: Change): (r: Result<Data>)
    ensures r.Failure? <==> id !in d
    ensures r.Success? ==> r.value.Keys == d.Keys && forall k | k in d && k != id :: r.value[k] == d[k]
  {
    match EntryOf(d, id)
    case Failure(e) => Failure(e)
    case Success(e) => Success(d[id := Applied(e, c)])
  }

  /** After marking a file loaded its flag reads true, and every other flag
      reads as before. */
  lemma {:induction false} MarkThenCheck(d: Data, id: string, which: Flags, index: int, id': string, which': Flags, index': int)
    requires id in d
    ensures var d' := Updated(d, id, MarkLoaded(which, index)).value;
      CheckLoaded(d', id, which, index) == Success(Some(true))
      && ((id', which', index') != (id, which, index) ==> CheckLoaded(d', id', which', index') == CheckLoaded(d, id', which', index'))
  {
    var d' := Updated(d, id, MarkLoaded(which, index)).value;
    assert d'[id] == Applied(d[id], MarkLoaded(which, index));
    if id' == id && which' != which {
      assert FlagsOf(d'[id], which') == FlagsOf(d[id], which');
    }
  }

  /** After adding a value under a key its lookup gives that value, and every
      other lookup is unchanged. */
  lemma {:induction false} AddThenLookup(d: Data, id: string, s: Store, key: string, v: Token, id': string, s': Store, key': string)
    requires id in d
    ensures var d' := Updated(d, id, Add(s, key, v)).value;
      Lookup(d', id, s, key) == Success(Some(v))
      && ((id', s', key') != (id, s, key) ==> Lookup(d', id', s', key') == Lookup(d, id', s', key'))
  {
    var d' := Updated(d, id, Add(s, key, v)).value;
    assert d'[id] == Applied(d[id], Add(s, key, v));
    if id' == id && s' != s {
      assert StoreOf(d'[id], s') == StoreOf(d[id], s');
    }
  }

  /** A gear file becomes visible once both its name is set (non-empty) and it is added. */
  lemma GearFileStored(d: Data, id: string, name: string, file: Token)
    requires id in d && name != ""
    ensures var d1 := Updated(d, id, AddGearFile(name, file)).value;
      GetGearFile(Updated(d1, id, SetGearFileName(name)).value, id) == Success(Some(file))
  {
    var d1 := Updated(d, id, AddGearFile(name, file)).value;
    var d2 := Updated(d1, id, SetGearFileName(name)).value;
    assert d2[id].gearFilesData == d[id].gearFilesData[name := file];
  }

  /** `disposeSingleEntry(id)`: the entry's THREE objects are disposed and the id deleted. */
  function Disposed(d: Data, id: string): (r: Result<Data>)
    ensures r.Failure? <==> id !in d
    ensures r.Success? ==> r.value.Keys == d.Keys - {id} && forall k | k in r.value :: r.value[k] == d[k]
  {
    if id in d then Success(d - {id}) else Failure(TypeError)
  }

  /** `reset` part way: the keys still to visit, and those it keeps. */
  function Pending(d: Data, todo: set<string>, fullReset: bool): Data {
    map k | k in d && (k in todo || !ResetRemoves(d[k], fullReset)) :: d[k]
  }

  lemma PendingStep(d: Data, todo: set<string>, fullReset: bool, id: string)
    requires id in todo && id in d
    ensures Pending(d, todo - {id}, fullReset)
      == if ResetRemoves(d[id], fullReset) then Pending(d, todo, fullReset) - {id} else Pending(d, todo, fullReset)
  {
  }

  /** Whether `reset(fullReset)` disposes an entry. */
  predicate ResetRemoves(e: Entry, fullReset: bool) {
    e.prefix != "global" || fullReset
  }

  /** The dictionary after `reset(fullReset)`. */
  function AfterReset(d: Data, fullReset: bool): (r: Data)
    ensures forall k | k in r :: k in d && r[k] == d[k]
  {
    map k | k in d && !ResetRemoves(d[k], fullReset) :: d[k]
  }

  /** `reset()` keeps exactly the global entries, `reset(true)` none. */
  lemma ResetMeaning(d: Data)
    ensures forall k :: k in AfterReset(d, false) <==> k in d && d[k].prefix == "global"
    ensures AfterReset(d, true) == map[]
  {
  }

  /** Every entry is stored under its own id, which is what lets `reset`
      dispose an entry through its `uniqueId`. */
  ghost predicate Keyed(d: Data) {
    forall k | k in d :: d[k].uniqueId == k
  }

  lemma InitKeeps(d: Data, itemHash: string, prefix: string, itemType: Option<int>,
                  inv: Option<Token>, gear: Option<GearAssetDefinition>)
    requires Keyed(d)
    ensures Keyed(Initialized(d, itemHash, prefix, itemType, inv, gear).1)
  {
  }

  lemma UpdatedKeeps(d: Data, id: string, c: Change)
    requires Keyed(d)
    ensures Updated(d, id, c).Success? ==> Keyed(Updated(d, id, c).value)
  {
    if id in d {
      AppliedKeepsId(d[id], c);
      var d' := d[id := Applied(d[id], c)];
      forall k | k in d'
        ensures d'[k].uniqueId == k
      {
        if k != id {
          assert d'[k] == d[k];
        }
      }
    }
  }

  lemma AppliedKeepsId(e: Entry, c: Change)
    ensures Applied(e, c).uniqueId == e.uniqueId
  {
    match c
    case MarkLoaded(_, _) =>
    case SetGearFileName(_) =>
    case AddGearFile(_, _) =>
    case Add(_, _, _) =>
    case SetDyes(_) =>
    case SetResolvedDefaultDyes(_) =>
    case SetOmolonLiquidColor(_) =>
  }

  class TGXCache {
    var data: Data

    ghost predicate Valid()
      reads this
    {
      Keyed(data)
    }

    constructor()
      ensures Valid() && data == map[]
    {
      data := map[];
    }

    method InitEntry(itemHash: string, prefix: string, itemType: Option<int>,
                     inv: Option<Token>, gear: Option<GearAssetDefinition>) returns (id: Option<string>)
      requires Valid()
      modifies this
      ensures Valid()
      ensures (id, data) == Initialized(old(data), itemHash, prefix, itemType, inv, gear)
    {
      InitKeeps(data, itemHash, prefix, itemType, inv, gear);
      var uniqueId := CreateId(itemHash, prefix);
      if uniqueId in data {
        return Some(uniqueId);
      }
      var geometryLength, textureLength := 0, 0;
      if !NeedsNoDefinitions(itemHash, prefix) {
        if inv.None? || gear.None? {
          return None;
        }
        if gear.value.content.None? {
          return None;
        }
        var contentEntry := MobileContent(gear.value.content.value);
        if contentEntry.None? {
          return None;
        }
        geometryLength, textureLength := |contentEntry.value.geometry|, |contentEntry.value.textures|;
      }
      data := data[uniqueId := FreshEntry(itemHash, prefix, itemType, inv, gear, geometryLength, textureLength)];
      id := Some(uniqueId);
    }

    /** Any of the setters; `err` is the TypeError of an absent id. */
    method Update(id: string, c: Change) returns (err: Option<Error>)
      requires Valid()
      modifies this
      ensures Valid()
      ensures Outcome(Updated(old(data), id, c), err, data)
      ensures err.Some? ==> data == old(data)
    {
      var r := Updated(data, id, c);
      UpdatedKeeps(data, id, c);
      if r.Failure? {
        return Some(r.error);
      }
      data := r.value;
      err := None;
    }

    method DisposeSingleEntry(id: string) returns (err: Option<Error>)
      requires Valid()
      modifies this
      ensures Valid()
      ensures Outcome(Disposed(old(data), id), err, data)
      ensures err.Some? ==> data == old(data)
    {
      if id !in data {
        return Some(TypeError);
      }
      data := data - {id};
      err := None;
    }

    /** `reset(fullReset)`: disposes every entry it removes, one key of the
        dictionary at a time. */
    method Reset(fullReset: bool)
      requires Valid()
      modifies this
      ensures Valid()
      ensures data == AfterReset(old(data), fullReset)
    {
      var todo := data.Keys;
      while todo != {}
        invariant Valid()
        invariant todo <= old(data).Keys
        invariant data == Pending(old(data), todo, fullReset)
        decreases |todo|
      {
        var id :| id in todo;
        var entry := data[id];
        PendingStep(old(data), todo, fullReset, id);
        if ResetRemoves(entry, fullReset) {
          var err := DisposeSingleEntry(entry.uniqueId);
        }
        todo := todo - {id};
      }
      assert Pending(old(data), {}, fullReset) == AfterReset(old(data), fullReset);
    }
  }
}
