/** `TGXModelContainer`: what the loader builds for one item. It keeps the
    item's textures and parts in two keyed maps, the meshes of its parts in a
    THREE group, a disposed flag, and the art-region patterns last applied. */
module ModelContainer {
  import opened Wrappers
  import opened JsStrings
  import opened ArtRegionPatterns

  /** A THREE object, a texture's data or a material: only their identity matters here. */
  type Token = nat

  datatype TextureRecord = TextureRecord(data: Token, texture: Option<Token>)
  datatype PartRecord = PartRecord(mesh: Option<Token>, material: Option<Token>)

  /** `getTexture`'s answer: the stored record, or the empty object `{}`. */
  datatype TextureLookup = Record(record: TextureRecord) | EmptyObject

  /** An item id as a caller may pass it. */
  datatype IdValue = IdString(s: string) | IdInteger(n: int) | IdUndefined

  predicate Truthy(v: IdValue) {
    match v
    case IdString(s) => s != ""
    case IdInteger(n) => n != 0
    case IdUndefined => false
  }

  /** `String(itemId)` for the ids that are not strings already. */
  function IdToString(v: IdValue): (s: string)
    requires Truthy(v)
    ensures s != ""
  {
    match v
    case IdString(s) => s
    case IdInteger(n) => ParseIntOfIntToString(n); IntToString(n)
  }

  const AllowedGames: seq<string> := ["destiny", "destiny2", "global"]

  /** The game kept by the constructor: an unknown one becomes "destiny2". */
  function GameOf(game: string): (r: string)
    ensures r in AllowedGames
    ensures game in AllowedGames ==> r == game
    ensures game !in AllowedGames ==> r == "destiny2"
  {
    if game in AllowedGames then game else "destiny2"
  }

  /** `children` of a THREE group after `remove(mesh)`: every occurrence taken out. */
  function Without(children: seq<Token>, mesh: Token): (r: seq<Token>)
    ensures forall m :: m in r <==> m in children && m != mesh
    ensures |r| <= |children|
  {
    if |children| == 0 then []
    else if children[0] == mesh then Without(children[1..], mesh)
    else [children[0]] + Without(children[1..], mesh)
  }

  /** `group.add(mesh)`: the mesh leaves wherever it was and goes last; a
      missing mesh is not an object and is not added. */
  function Added(children: seq<Token>, mesh: Option<Token>): (r: seq<Token>)
    ensures mesh.Some? ==> |r| > 0 && r[|r| - 1] == mesh.value
    ensures forall m :: m in r <==> m in children || mesh == Some(m)
  {
    match mesh
    case None => children
    case Some(m) => Without(children, m) + [m]
  }

  /** A key list without `key`. */
  function RemoveKey(keys: seq<string>, key: string): (r: seq<string>)
    ensures forall k :: k in r <==> k in keys && k != key
  {
    if |keys| == 0 then []
    else if keys[0] == key then RemoveKey(keys[1..], key)
    else [keys[0]] + RemoveKey(keys[1..], key)
  }

  lemma {:induction false} RemoveKeyDistinct(keys: seq<string>, key: string)
    requires Distinct(keys)
    ensures Distinct(RemoveKey(keys, key))
  {
    if |keys| > 0 {
      assert Distinct(keys[1..]) by {
        forall i, j | 0 <= i < j < |keys[1..]|
          ensures keys[1..][i] != keys[1..][j]
        {
          assert keys[1..][i] == keys[i + 1] && keys[1..][j] == keys[j + 1];
        }
      }
      RemoveKeyDistinct(keys[1..], key);
      if keys[0] != key {
        var rest := RemoveKey(keys[1..], key);
        assert keys[0] !in keys[1..];
        var r := [keys[0]] + rest;
        forall i, j | 0 <= i < j < |r|
          ensures r[i] != r[j]
        {
          if i == 0 {
            assert r[j] in rest;
          }
        }
      }
    }
  }

  /** Removing the first key of a list without repeats leaves the rest of it. */
  lemma RemoveFirstKey(keys: seq<string>)
    requires |keys| > 0 && Distinct(keys)
    ensures RemoveKey(keys, keys[0]) == keys[1..]
  {
    assert keys[0] !in keys[1..];
    RemoveAbsentKey(keys[1..], keys[0]);
  }

  lemma {:induction false} RemoveAbsentKey(keys: seq<string>, key: string)
    requires key !in keys
    ensures RemoveKey(keys, key) == keys
  {
    if |keys| > 0 {
      RemoveAbsentKey(keys[1..], key);
    }
  }

  class TGXModelContainer {
    var itemId: string
    var game: string
    var instance: int
    var textures: map<string, TextureRecord>
    /** The keys of `textures` in insertion order, as a `Map` keeps them. */
    var textureKeys: seq<string>
    var parts: map<string, PartRecord>
    /** The children of the THREE group. */
    var group: seq<Token>
    var disposed: bool
    var artRegionPatterns: Obj

    ghost predicate Valid()
      reads this
    {
      Distinct(textureKeys) && (forall k | k in textureKeys :: k in textures)
      && (forall k | k in textures :: k in textureKeys)
      && WellFormed(artRegionPatterns)
    }

    /** The constructor once `itemId` is known to be truthy. */
    constructor(id: IdValue, gameName: string, inst: int)
      requires Truthy(id)
      ensures Valid()
      ensures itemId == IdToString(id) && game == GameOf(gameName) && instance == inst
      ensures textures == map[] && parts == map[] && group == [] && !disposed
      ensures artRegionPatterns == Obj([], map[])
    {
      itemId := IdToString(id);
      instance := inst;
      game := GameOf(gameName);
      textures := map[];
      textureKeys := [];
      parts := map[];
      group := [];
      disposed := false;
      artRegionPatterns := Obj([], map[]);
    }

    method AddTexture(key: string, data: Token, texture: Option<Token>)
      requires Valid()
      modifies this
      ensures Valid()
      ensures textures == old(textures)[key := TextureRecord(data, texture)]
      ensures textureKeys == if key in old(textures) then old(textureKeys) else old(textureKeys) + [key]
      ensures unchanged(this`parts, this`group, this`disposed, this`artRegionPatterns)
      ensures unchanged(this`itemId, this`game, this`instance)
    {
      if key !in textures {
        textureKeys := textureKeys + [key];
      }
      textures := textures[key := TextureRecord(data, texture)];
    }

    predicate HasTexture(key: string)
      reads this
    {
      key in textures
    }

    function GetTexture(key: string): (r: TextureLookup)
      reads this
      ensures r.EmptyObject? <==> !HasTexture(key)
      ensures r.Record? ==> r.record == textures[key]
    {
      if key in textures then Record(textures[key]) else EmptyObject
    }

    /** `getTextureKeys()`: the keys in the order they were first added. */
    function GetTextureKeys(): (r: seq<string>)
      reads this
      requires Valid()
      ensures Distinct(r) && forall k :: k in r <==> HasTexture(k)
    {
      textureKeys
    }

    /** `removeTexture(key)`: false and nothing changes for an absent key. */
    method RemoveTexture(key: string) returns (removed: bool)
      requires Valid()
      modifies this
      ensures Valid()
      ensures removed <==> key in old(textures)
      ensures textures == old(textures) - {key}
      ensures textureKeys == if removed then RemoveKey(old(textureKeys), key) else old(textureKeys)
      ensures unchanged(this`parts, this`group, this`disposed, this`artRegionPatterns)
      ensures unchanged(this`itemId, this`game, this`instance)
    {
      if key !in textures {
        return false;
      }
      RemoveKeyDistinct(textureKeys, key);
      textures := textures - {key};
      textureKeys := RemoveKey(textureKeys, key);
      removed := true;
    }

    /** `addPart(key, mesh, material)`: the part is stored and its mesh joins the group. */
    method AddPart(key: string, mesh: Option<Token>, material: Option<Token>)
      requires Valid()
      modifies this
      ensures Valid()
      ensures parts == old(parts)[key := PartRecord(mesh, material)]
      ensures group == Added(old(group), mesh)
      ensures unchanged(this`textures, this`textureKeys, this`disposed, this`artRegionPatterns)
      ensures unchanged(this`itemId, this`game, this`instance)
    {
      parts := parts[key := PartRecord(mesh, material)];
      group := Added(group, mesh);
    }

    function GetPart(key: string): (r: Option<PartRecord>)
      reads this
      ensures r.Some? <==> HasPart(key)
      ensures r.Some? ==> r.value == parts[key]
    {
      if key in parts then Some(parts[key]) else None
    }

    predicate HasPart(key: string)
      reads this
    {
      key in parts
    }

    /** `removePart(key)`: false and nothing changes for an absent key;
        otherwise the part's mesh leaves the group and the part is deleted. */
    method RemovePart(key: string) returns (removed: bool)
      requires Valid()
      modifies this
      ensures Valid()
      ensures removed <==> key in old(parts)
      ensures parts == old(parts) - {key}
      ensures group == if removed && old(parts)[key].mesh.Some? then Without(old(group), old(parts)[key].mesh.value)
                       else old(group)
      ensures unchanged(this`textures, this`textureKeys, this`disposed, this`artRegionPatterns)
      ensures unchanged(this`itemId, this`game, this`instance)
    {
      if key !in parts {
        return false;
      }
      var part := parts[key];
      if part.mesh.Some? {
        group := Without(group, part.mesh.value);
      }
      parts := parts - {key};
      removed := true;
    }

    /** `dispose()`: every texture and part removed, the group emptied and
        the container marked disposed; a disposed container is left as it is. */
    method Dispose()
      requires Valid()
      modifies this
      ensures Valid()
      ensures old(disposed) ==> unchanged(this)
      ensures textures == map[] || old(disposed)
      ensures parts == map[] || old(disposed)
      ensures group == [] || old(disposed)
      ensures disposed
      ensures unchanged(this`itemId, this`game, this`instance, this`artRegionPatterns)
    {
      if disposed {
        return;
      }
      var keys := textureKeys;
      for i := 0 to |keys|
        invariant Valid() && textureKeys == keys[i..]
        invariant unchanged(this`itemId, this`game, this`instance, this`artRegionPatterns)
      {
        RemoveFirstKey(textureKeys);
        var _ := RemoveTexture(keys[i]);
        assert keys[i..][1..] == keys[i + 1..];
      }
      assert textures.Keys == {};
      while parts != map[]
        invariant Valid() && textureKeys == [] && textures == map[]
        invariant unchanged(this`itemId, this`game, this`instance, this`artRegionPatterns)
        decreases |parts.Keys|
      {
        var key :| key in parts;
        var _ := RemovePart(key);
      }
      group := [];
      disposed := true;
    }

    /** `compareArtRegionPatterns(newArtRegionPatterns)` against the patterns last applied. */
    method CompareArtRegionPatterns(newPatterns: Obj) returns (res: map<string, Change>)
      requires Valid() && WellFormed(newPatterns)
      ensures res == Compared(artRegionPatterns.values, newPatterns.values)
    {
      res := ArtRegionPatterns.CompareArtRegionPatterns(artRegionPatterns, newPatterns);
    }

    method UpdateArtRegionPatterns(newPatterns: Obj)
      requires Valid() && WellFormed(newPatterns)
      modifies this
      ensures Valid()
      ensures artRegionPatterns == newPatterns
      ensures unchanged(this`textures, this`textureKeys, this`parts, this`group, this`disposed)
      ensures unchanged(this`itemId, this`game, this`instance)
    {
      artRegionPatterns := newPatterns;
    }
  }

  /** `new TGXModelContainer(itemId, game, instance)`: a falsy id throws. */
  method NewModelContainer(id: IdValue, gameName: string, inst: int) returns (r: Result<TGXModelContainer>)
    ensures r.Failure? <==> !Truthy(id)
    ensures r.Failure? ==> r.error == Thrown("TGXModelContainer requires a itemId identifier")
    ensures r.Success? ==> fresh(r.value) && r.value.Valid() && r.value.itemId == IdToString(id)
                           && r.value.game == GameOf(gameName) && !r.value.disposed
  {
    if !Truthy(id) {
      return Failure(Thrown("TGXModelContainer requires a itemId identifier"));
    }
    var c := new TGXModelContainer(id, gameName, inst);
    r := Success(c);
  }

  /** Applying a selection of patterns and comparing with it again asks for no change. */
  method UpdateThenCompare(c: TGXModelContainer, p: Obj) returns (res: map<string, Change>)
    requires c.Valid() && WellFormed(p)
    modifies c
    ensures res.Keys == p.values.Keys
    ensures forall k | k in res :: res[k] == Change([], [], p.values[k].geometryHashes)
  {
    c.UpdateArtRegionPatterns(p);
    res := c.CompareArtRegionPatterns(p);
    SelfComparison(p.values);
  }

  /** `hasTexture` reflects `addTexture` and `removeTexture`, and `getTexture` returns what was added. */
  method TextureRoundTrip(c: TGXModelContainer, key: string, data: Token, texture: Option<Token>)
    requires c.Valid()
    modifies c
    ensures c.Valid()
    ensures !c.HasTexture(key) && c.GetTexture(key) == EmptyObject
  {
    c.AddTexture(key, data, texture);
    assert c.HasTexture(key) && c.GetTexture(key) == Record(TextureRecord(data, texture));
    var removed := c.RemoveTexture(key);
    assert removed;
  }
}
