/** `TGXMaterialUtilities` without the THREE materials: the table from dye
    channel hashes to the item kind and slot they colour, the decision which
    kind of item a definition describes (so the right shader is applied),
    the animated-transform fallback and the channel of a dye. */
module MaterialUtilities {
  import opened Wrappers
  import opened Numbers

  datatype ShaderItemType = Armor | Weapon | Ship | Sparrow | Shader | Ghost | Default

  datatype ChannelData = ChannelData(itemType: ShaderItemType, slotTypeIndex: nat)

  /** `ChannelHashToData`: each dye channel's item kind and slot. */
  const ChannelHashToData: map<int, ChannelData> := map[
    662199250 := ChannelData(Armor, 0),
    1367384683 := ChannelData(Armor, 1),
    218592586 := ChannelData(Armor, 2),
    1667433279 := ChannelData(Weapon, 0),
    1667433278 := ChannelData(Weapon, 1),
    1667433277 := ChannelData(Weapon, 2),
    3073305669 := ChannelData(Ship, 0),
    3073305668 := ChannelData(Ship, 1),
    3073305671 := ChannelData(Ship, 2),
    1971582085 := ChannelData(Sparrow, 0),
    1971582084 := ChannelData(Sparrow, 1),
    1971582087 := ChannelData(Sparrow, 2),
    373026848 := ChannelData(Ghost, 0),
    373026849 := ChannelData(Ghost, 1),
    373026850 := ChannelData(Ghost, 2),
    284967655 := ChannelData(Ship, 0),
    840921382 := ChannelData(Ship, 3)
  ]

  /** Every channel colours slot 0, 1 or 2 except the Destiny 1 ship decals
      channel 840921382, which names slot 3; no channel is a shader or default. */
  lemma ChannelSlots(h: int)
    requires h in ChannelHashToData
    ensures ChannelHashToData[h].slotTypeIndex <= 2 <==> h != 840921382
    ensures ChannelHashToData[h].itemType !in {Shader, Default}
  {
  }

  /** The dye entries of a definition's `translationBlock` or `equippingBlock`,
      each by its `channelHash`; a missing group is undefined. */
  datatype DyeBlock = DyeBlock(defaultDyes: Option<seq<int>>, lockedDyes: Option<seq<int>>, customDyes: Option<seq<int>>)

  /** The fields of a `DestinyInventoryItemDefinition` the decision reads.
      `itemType` is None when the definition has no such key; the other
      absent fields are undefined. */
  datatype ItemDefinition = ItemDefinition(
    itemType: Option<int>,
    itemSubType: Option<int>,
    itemCategoryHashes: Option<seq<int>>,
    traitIds: Option<seq<string>>,
    itemTypeName: Option<string>,
    translationBlock: Option<DyeBlock>,
    equippingBlock: Option<DyeBlock>)

  const WeaponOrnaments := 3124752623
  const ArmorOrnaments := 1742617626

  /** The Destiny 2 switch on `itemType`; a mod (19) is a shader when its
      subtype is 20, and an ornament otherwise. `itemCategoryHashes.includes`
      raises when the hashes are missing. */
  function Destiny2ItemType(def: ItemDefinition, itemType: int): (r: Result<ShaderItemType>)
    ensures itemType != 19 ==> r.Success?
  {
    if itemType == 2 then Success(Armor)
    else if itemType == 3 then Success(Weapon)
    else if itemType == 21 then Success(Ship)
    else if itemType == 22 then Success(Sparrow)
    else if itemType == 24 then Success(Ghost)
    else if itemType != 19 then Success(Weapon)
    else if def.itemSubType == Some(20) then Success(Shader)
    else if def.itemCategoryHashes.None? then Failure(TypeError)
    else if WeaponOrnaments in def.itemCategoryHashes.value then Success(Weapon)
    else if def.traitIds.Some? && "item.ornament.weapon" in def.traitIds.value then Success(Weapon)
    else if ArmorOrnaments in def.itemCategoryHashes.value then Success(Armor)
    else if def.traitIds.Some? && "item.ornament.armor" in def.traitIds.value then Success(Armor)
    else Success(Weapon)
  }

  const Destiny1ArmorNames: seq<string> :=
    ["Mask", "Helmet", "Gauntlets", "Chest Armor", "Leg Armor", "Titan Mark", "Hunter Cloak", "Warlock Bond"]

  /** The Destiny 1 switch on `itemType` and `itemTypeName`; an unlisted name
      leaves the kind undefined (None). */
  function Destiny1ItemType(def: ItemDefinition, itemType: int): (r: Option<ShaderItemType>)
    ensures itemType != 2 && itemType != 0 ==> r == Some(Weapon)
  {
    if itemType == 3 then Some(Weapon)
    else if itemType == 2 then
      match def.itemTypeName
      case Some(name) =>
        if name == "Ghost Shell" then Some(Ghost)
        else if name in Destiny1ArmorNames then Some(Armor)
        else None
      case None => None
    else if itemType == 0 then
      match def.itemTypeName
      case Some(name) =>
        if name == "Vehicle" then Some(Sparrow)
        else if name == "Ship" then Some(Ship)
        else if name == "Weapon Ornament" then Some(Weapon)
        else if name == "Mask" then Some(Armor)
        else None
      case None => None
    else Some(Weapon)
  }

  /** The dye groups in the order the fallback reads them. */
  function Groups(block: DyeBlock): seq<Option<seq<int>>> {
    [block.defaultDyes, block.lockedDyes, block.customDyes]
  }

  /** The channels of the first `n` groups; iterating a missing group raises. */
  function ChannelsOf(groups: seq<Option<seq<int>>>, n: nat): (r: Result<set<int>>)
    requires n <= |groups|
    ensures r.Failure? <==> exists g :: 0 <= g < n && groups[g].None?
    ensures r.Failure? ==> r.error == TypeError
    ensures r.Success? ==> forall h :: h in r.value <==> exists g :: 0 <= g < n && h in groups[g].value
  {
    if n == 0 then Success({})
    else match ChannelsOf(groups, n - 1)
      case Failure(e) => Failure(e)
      case Success(s) =>
        match groups[n - 1]
        case None => Failure(TypeError)
        case Some(entries) => Success(s + set h | h in entries)
  }

  const ShaderChannels: seq<int> := [662199250, 1667433279, 3073305669, 1971582085, 373026848]

  /** The kind the fallback reads off the channels. */
  function ChannelsItemType(channels: set<int>): ShaderItemType {
    if forall h | h in ShaderChannels :: h in channels then Shader
    else if 662199250 in channels then Armor
    else if 1667433279 in channels then Weapon
    else if 3073305669 in channels then Ship
    else if 1971582085 in channels then Sparrow
    else if 373026848 in channels then Ghost
    else Weapon
  }

  /** The fallback for a definition without `itemType`. */
  function FallbackItemType(def: ItemDefinition, game: string): Result<ShaderItemType> {
    var block := if game == "destiny2" then def.translationBlock else def.equippingBlock;
    match block
    case None => Failure(TypeError)
    case Some(b) =>
      match ChannelsOf(Groups(b), 3)
      case Failure(e) => Failure(e)
      case Success(channels) => Success(ChannelsItemType(channels))
  }

  /** `getInventoryItemType(definition, game)`; None is an undefined result. */
  function InventoryItemType(def: ItemDefinition, game: string): Result<Option<ShaderItemType>> {
    match def.itemType
    case Some(t) =>
      if game == "destiny2" then
        match Destiny2ItemType(def, t)
        case Failure(e) => Failure(e)
        case Success(k) => Success(Some(k))
      else Success(Destiny1ItemType(def, t))
    case None =>
      match FallbackItemType(def, game)
      case Failure(e) => Failure(e)
      case Success(k) => Success(Some(k))
  }

  /** `getInventoryItemType`: the switches, or the fallback collecting a set of
      channels in nested loops. */
  method GetInventoryItemType(def: ItemDefinition, game: string) returns (r: Result<Option<ShaderItemType>>)
    ensures r == InventoryItemType(def, game)
  {
    if def.itemType.Some? {
      if game == "destiny2" {
        var k := Destiny2ItemType(def, def.itemType.value);
        if k.Failure? {
          return Failure(k.error);
        }
        return Success(Some(k.value));
      }
      return Success(Destiny1ItemType(def, def.itemType.value));
    }
    var block := if game == "destiny2" then def.translationBlock else def.equippingBlock;
    if block.None? {
      return Failure(TypeError);
    }
    var dyeGroups := Groups(block.value);
    var channels: set<int> := {};
    for g := 0 to 3
      invariant ChannelsOf(dyeGroups, g) == Success(channels)
    {
      if dyeGroups[g].None? {
        assert ChannelsOf(dyeGroups, 3).Failure?;
        return Failure(TypeError);
      }
      var dyeGroup := dyeGroups[g].value;
      ghost var before := channels;
      for i := 0 to |dyeGroup|
        invariant channels == before + set h | h in dyeGroup[..i]
      {
        assert forall h :: h in dyeGroup[..i + 1] <==> h in dyeGroup[..i] || h == dyeGroup[i];
        channels := channels + {dyeGroup[i]};
      }
      assert dyeGroup[..|dyeGroup|] == dyeGroup;
    }
    r := Success(Some(ChannelsItemType(channels)));
  }

  /** The Destiny 2 kinds by `itemType`: any value other than the listed ones and the mod 19 is a weapon. */
  lemma Destiny2Kinds(def: ItemDefinition, t: int)
    requires def.itemType == Some(t) && t != 19
    ensures InventoryItemType(def, "destiny2") == Success(Some(
      if t == 2 then Armor else if t == 21 then Ship else if t == 22 then Sparrow else if t == 24 then Ghost else Weapon))
  {
  }

  /** A Destiny 2 mod is a shader by subtype first, then a weapon ornament,
      then an armor ornament, and a weapon when nothing decides. */
  lemma Destiny2ModOrder(def: ItemDefinition)
    requires def.itemType == Some(19)
    ensures def.itemSubType == Some(20) ==> InventoryItemType(def, "destiny2") == Success(Some(Shader))
    ensures def.itemSubType != Some(20) && def.itemCategoryHashes.None? ==> InventoryItemType(def, "destiny2") == Failure(TypeError)
    ensures def.itemSubType != Some(20) && def.itemCategoryHashes.Some? ==>
      var weapon := WeaponOrnaments in def.itemCategoryHashes.value || (def.traitIds.Some? && "item.ornament.weapon" in def.traitIds.value);
      var armor := ArmorOrnaments in def.itemCategoryHashes.value || (def.traitIds.Some? && "item.ornament.armor" in def.traitIds.value);
      InventoryItemType(def, "destiny2") == Success(Some(if weapon then Weapon else if armor then Armor else Weapon))
  {
  }

  /** In Destiny 1 an armor or misc item (2 or 0) with an unlisted type name has no kind. */
  lemma Destiny1Undefined(def: ItemDefinition, game: string)
    requires game != "destiny2" && def.itemType.Some? && def.itemType.value in {0, 2}
    requires def.itemTypeName.None? ||
      (def.itemTypeName.value !in Destiny1ArmorNames + ["Ghost Shell", "Vehicle", "Ship", "Weapon Ornament"])
    ensures InventoryItemType(def, game) == Success(None)
  {
  }

  /** The fallback finds a shader exactly when all five primary channels are
      there, and otherwise the first kind whose primary channel is there, in
      armor, weapon, ship, sparrow, ghost order. */
  lemma {:induction false} ChannelsItemTypeMeaning(channels: set<int>)
    ensures ChannelsItemType(channels) == Shader <==> forall h | h in ShaderChannels :: h in channels
    ensures ChannelsItemType(channels) != Shader ==>
      var first := FirstPresent(channels, 0);
      ChannelsItemType(channels) == (if first < 5 then [Armor, Weapon, Ship, Sparrow, Ghost][first] else Weapon)
  {
    if !(forall h | h in ShaderChannels :: h in channels) {
      assert ShaderChannels[0] == 662199250 && ShaderChannels[1] == 1667433279 && ShaderChannels[2] == 3073305669;
      assert ShaderChannels[3] == 1971582085 && ShaderChannels[4] == 373026848;
    }
  }

  /** The index of the first of the five primary channels present from `i` on, or 5. */
  function FirstPresent(channels: set<int>, i: nat): (r: nat)
    requires i <= 5
    ensures i <= r <= 5
    ensures r < 5 ==> ShaderChannels[r] in channels
    ensures forall j | i <= j < r :: ShaderChannels[j] !in channels
    decreases 5 - i
  {
    if i == 5 then 5 else if ShaderChannels[i] in channels then i else FirstPresent(channels, i + 1)
  }

  /** `normalizeTransform`: an all-zero transform (the empty one included)
      marks an animated one and is replaced by the default. */
  function NormalizeTransform(transform: seq<Num>): (r: seq<Num>)
    ensures (forall i | 0 <= i < |transform| :: transform[i] == Fin(0.0)) ==> r == [Fin(1.5), Fin(1.5), Fin(0.0), Fin(0.0)]
    ensures !(forall i | 0 <= i < |transform| :: transform[i] == Fin(0.0)) ==> r == transform
  {
    if forall i | 0 <= i < |transform| :: transform[i] == Fin(0.0) then [Fin(1.5), Fin(1.5), Fin(0.0), Fin(0.0)]
    else transform
  }

  /** Normalising twice is normalising once. */
  lemma NormalizeIdempotent(transform: seq<Num>)
    ensures NormalizeTransform(NormalizeTransform(transform)) == NormalizeTransform(transform)
  {
    var d := [Fin(1.5), Fin(1.5), Fin(0.0), Fin(0.0)];
    assert d[0] != Fin(0.0);
  }

  /** `getDyeChannelHash(dye, dyeHashToChannel)`: a hash that is itself a
      channel (a shader from the assets folder) is returned as it is,
      otherwise the translation map's entry, which may be undefined. */
  function GetDyeChannelHash(investmentHash: int, dyeHashToChannel: map<int, int>): (r: Option<int>)
    ensures investmentHash in ChannelHashToData ==> r == Some(investmentHash)
    ensures investmentHash !in ChannelHashToData ==>
      (r.Some? <==> investmentHash in dyeHashToChannel) && (r.Some? ==> r.value == dyeHashToChannel[investmentHash])
  {
    if investmentHash in ChannelHashToData then Some(investmentHash)
    else if investmentHash in dyeHashToChannel then Some(dyeHashToChannel[investmentHash])
    else None
  }

  /** The channel `#buildGearDye` gives a dye: a truthy channel hash reads
      `ChannelHashToData[channelHash].itemType`, which raises a TypeError
      for a hash that is not a channel; an undefined or zero hash leaves the
      dye without a channel. */
  function DyeChannel(investmentHash: int, dyeHashToChannel: map<int, int>): (r: Result<Option<ChannelData>>)
    ensures r.Failure? ==> r.error == TypeError
    ensures r.Success? && r.value.Some? ==> r.value.value in ChannelHashToData.Values
  {
    match GetDyeChannelHash(investmentHash, dyeHashToChannel)
    case None => Success(None)
    case Some(h) =>
      if h == 0 then Success(None)
      else if h in ChannelHashToData then Success(Some(ChannelHashToData[h]))
      else Failure(TypeError)
  }

  /** When the translation block maps every dye to a channel of the table,
      every hash `getDyeChannelHash` returns is a channel, so building the dye
      never throws, and the dye has a channel exactly when its hash is a
      channel itself or is translated. */
  lemma DyeChannelHashIsChannel(investmentHash: int, dyeHashToChannel: map<int, int>)
    requires forall d | d in dyeHashToChannel :: dyeHashToChannel[d] in ChannelHashToData
    ensures GetDyeChannelHash(investmentHash, dyeHashToChannel).Some? ==>
              GetDyeChannelHash(investmentHash, dyeHashToChannel).value in ChannelHashToData
    ensures DyeChannel(investmentHash, dyeHashToChannel).Success?
    ensures DyeChannel(investmentHash, dyeHashToChannel).value.Some? <==>
              investmentHash in ChannelHashToData || investmentHash in dyeHashToChannel
  {
    assert 0 !in ChannelHashToData;
  }

  /** A translation entry whose channel is not in the table is returned as it
      is, and building the dye then throws. */
  lemma UnknownChannelThrows()
    ensures GetDyeChannelHash(1, map[1 := 2]) == Some(2)
    ensures DyeChannel(1, map[1 := 2]) == Failure(TypeError)
  {
    assert 1 !in ChannelHashToData && 2 !in ChannelHashToData;
  }
}
