/** `TGXLoaderConfig`: the checks that turn the options a caller passes into
    the loader's and each model's configuration. Options are JavaScript
    values, so they are modelled as such, with the coercions the code relies
    on (`Number`, `String`, `Boolean`, `??`, `typeof`, `in`, `Object.entries`). */
module LoaderConfig {
  import opened Wrappers
  import opened Numbers
  import opened JsStrings
  import StagePartFilter
  import RenderMesh

  /** A JavaScript value; an object is its own entries in `Object.entries` order
      and a function is known by its identity. */
  datatype JsValue =
    | Undefined
    | Null
    | Bool(b: bool)
    | Number(n: Num)
    | Str(s: string)
    | Function(id: nat)
    | Array(items: seq<JsValue>)
    | Object(entries: seq<(string, JsValue)>)
    | Skeleton(id: nat)  // an instance of `THREE.Skeleton`, known by its identity

  /** How `Number` reads a string or an array and how `String` renders a
      function, an array or a number that is not a small integer; the code
      never depends on these beyond their results. */
  datatype Coercions = Coercions(number: JsValue -> Num, text: JsValue -> string)

  /** `Number(v)`; an object has no custom `valueOf` or `toString`. */
  function ToNumber(v: JsValue, c: Coercions): Num {
    match v
    case Undefined => NaN
    case Null => OfInt(0)
    case Bool(b) => OfInt(if b then 1 else 0)
    case Number(n) => n
    case Function(_) => NaN
    case Object(_) => NaN
    case Skeleton(_) => NaN
    case _ => c.number(v)
  }

  /** `String(v)`, and so a template literal's rendering of `v`. */
  function ToText(v: JsValue, c: Coercions): string {
    match v
    case Undefined => "undefined"
    case Null => "null"
    case Bool(b) => if b then "true" else "false"
    case Str(s) => s
    case Object(_) => "[object Object]"
    case Skeleton(_) => "[object Object]"
    case Number(n) =>
      if n.NaN? then "NaN"
      else if IsInteger(n) && -1000000000000000000000.0 < n.r < 1000000000000000000000.0 then IntToString(n.r.Floor)
      else c.text(v)
    case _ => c.text(v)
  }

  /** `Boolean(v)`. */
  predicate JsTruthy(v: JsValue) {
    match v
    case Undefined => false
    case Null => false
    case Bool(b) => b
    case Number(n) => Truthy(n)
    case Str(s) => s != ""
    case _ => true
  }

  /** The value of an own entry, or undefined. */
  function Find(entries: seq<(string, JsValue)>, name: string): (r: JsValue)
    ensures r != Undefined ==> exists j :: 0 <= j < |entries| && entries[j] == (name, r)
  {
    if |entries| == 0 then Undefined
    else if entries[0].0 == name then entries[0].1
    else Find(entries[1..], name)
  }

  /** `name in v` for an object. */
  predicate HasOwn(entries: seq<(string, JsValue)>, name: string) {
    exists j :: 0 <= j < |entries| && entries[j].0 == name
  }

  /** `v.name`: reading a property of undefined or null raises a TypeError. */
  function Get(v: JsValue, name: string): (r: Result<JsValue>)
    ensures r.Failure? <==> v.Undefined? || v.Null?
    ensures r.Failure? ==> r.error == TypeError
  {
    match v
    case Undefined => Failure(TypeError)
    case Null => Failure(TypeError)
    case Object(entries) => Success(Find(entries, name))
    case _ => Success(Undefined)
  }

  /** `v ?? "none"`. */
  function OrNone(v: JsValue): (r: JsValue)
    ensures r == Str("none") || r == v
    ensures v.Undefined? || v.Null? ==> r == Str("none")
  {
    if v.Undefined? || v.Null? then Str("none") else v
  }

  // ----- verifyLOD -----

  /** `verifyLOD`: `Number(options.lod)` when it lies strictly between -1 and 4,
      the default otherwise (NaN included). */
  function VerifyLOD(lod: JsValue, defaultLOD: Num, c: Coercions): (r: Num)
    ensures Lt(ToNumber(lod, c), OfInt(4)) && Lt(OfInt(-1), ToNumber(lod, c)) ==> r == ToNumber(lod, c)
    ensures !(Lt(ToNumber(lod, c), OfInt(4)) && Lt(OfInt(-1), ToNumber(lod, c))) ==> r == defaultLOD
  {
    var n := ToNumber(lod, c);
    if Lt(n, OfInt(4)) && Lt(OfInt(-1), n) then n else defaultLOD
  }

  /** A kept LOD need not be one of the four `LODToValues` knows: a LOD of 1.5
      passes `verifyLOD`, and then the Destiny 2 filter raises on any part. */
  lemma FractionalLODBreaksFilter(parts: seq<RenderMesh.StagePart>, allowed: seq<Num>, defaultLOD: Num, c: Coercions)
    requires |parts| > 0
    ensures VerifyLOD(Number(Fin(1.5)), defaultLOD, c) == Fin(1.5)
    ensures StagePartFilter.Filtered(parts, VerifyLOD(Number(Fin(1.5)), defaultLOD, c), allowed, true).Failure?
  {
    assert !IsInteger(Fin(1.5)) by {
      assert (1.5).Floor == 1;
    }
    StagePartFilter.FilteredMeaning(parts, Fin(1.5), allowed, true);
  }

  // ----- verifyAllowedRenderStageIndices -----

  const DefaultAllowedRenderStageIndices: seq<int> := [0, 1, 2, 6, 7]
  const DefaultLOD: int := 0

  predicate StageInRange(n: Num) {
    Lt(OfInt(-1), n) && Lt(n, OfInt(24))
  }

  /** The stage list iterated: the option when it is an array, the default otherwise. */
  function StageCandidates(stages: JsValue, defaultStages: seq<JsValue>): seq<JsValue> {
    if stages.Array? then stages.items else defaultStages
  }

  /** The numbers of the candidates that lie strictly between -1 and 24, in order. */
  function Kept(items: seq<JsValue>, c: Coercions): seq<Num> {
    if |items| == 0 then []
    else
      var n := ToNumber(items[|items| - 1], c);
      Kept(items[..|items| - 1], c) + (if StageInRange(n) then [n] else [])
  }

  /** `verifyAllowedRenderStageIndices(options, defaultValue)`. */
  method VerifyAllowedRenderStageIndices(stages: JsValue, defaultStages: seq<JsValue>, c: Coercions) returns (result: seq<Num>)
    ensures result == Kept(StageCandidates(stages, defaultStages), c)
  {
    var optionsStages := if stages.Array? then stages.items else defaultStages;
    result := [];
    for i := 0 to |optionsStages|
      invariant result == Kept(optionsStages[..i], c)
    {
      assert optionsStages[..i + 1][..i] == optionsStages[..i];
      var num := ToNumber(optionsStages[i], c);
      if Lt(OfInt(-1), num) && Lt(num, OfInt(24)) {
        result := result + [num];
      }
    }
    assert optionsStages[..|optionsStages|] == optionsStages;
  }

  /** Filtering distributes over concatenation: entries are kept in their order. */
  lemma {:induction false} KeptConcat(a: seq<JsValue>, b: seq<JsValue>, c: Coercions)
    ensures Kept(a + b, c) == Kept(a, c) + Kept(b, c)
    decreases |b|
  {
    if |b| == 0 {
      assert a + b == a;
    } else {
      var b' := b[..|b| - 1];
      assert (a + b)[..|a + b| - 1] == a + b';
      KeptConcat(a, b', c);
    }
  }

  /** Exactly the entries whose number lies strictly between -1 and 24 are kept. */
  lemma {:induction false} KeptMeaning(items: seq<JsValue>, c: Coercions)
    ensures |Kept(items, c)| <= |items|
    ensures forall n | n in Kept(items, c) :: StageInRange(n)
    ensures forall i | 0 <= i < |items| && StageInRange(ToNumber(items[i], c)) :: ToNumber(items[i], c) in Kept(items, c)
  {
    if |items| > 0 {
      var init := items[..|items| - 1];
      KeptMeaning(init, c);
      forall i | 0 <= i < |items| && StageInRange(ToNumber(items[i], c))
        ensures ToNumber(items[i], c) in Kept(items, c)
      {
        if i < |init| {
          assert init[i] == items[i];
        }
      }
    }
  }

  /** The default list passes unchanged. */
  lemma DefaultStagesKept(c: Coercions)
    ensures Kept(seq(5, i requires 0 <= i < 5 => Number(OfInt(DefaultAllowedRenderStageIndices[i]))), c)
            == [OfInt(0), OfInt(1), OfInt(2), OfInt(6), OfInt(7)]
  {
    var items := seq(5, i requires 0 <= i < 5 => Number(OfInt(DefaultAllowedRenderStageIndices[i])));
    var n := [OfInt(0), OfInt(1), OfInt(2), OfInt(6), OfInt(7)];
    assert items == [Number(n[0]), Number(n[1]), Number(n[2]), Number(n[3]), Number(n[4])];
    forall k | 0 <= k < 5
      ensures StageInRange(n[k])
    {
    }
    assert Kept(items[..0], c) == [];
    assert items[..1][..0] == items[..0] && n[..1] == n[..0] + [n[0]];
    assert Kept(items[..1], c) == n[..1];
    assert items[..2][..1] == items[..1] && n[..2] == n[..1] + [n[1]];
    assert Kept(items[..2], c) == n[..2];
    assert items[..3][..2] == items[..2] && n[..3] == n[..2] + [n[2]];
    assert Kept(items[..3], c) == n[..3];
    assert items[..4][..3] == items[..3] && n[..4] == n[..3] + [n[3]];
    assert Kept(items[..4], c) == n[..4];
    assert items[..5][..4] == items[..4] && n[..5] == n[..4] + [n[4]];
    assert items[..5] == items && n[..5] == n;
  }

  // ----- validateSource, validateShaders, validateHands -----

  datatype Source = SourceNone | SourceApi | SyncHandler(handler: nat) | AsyncHandler(handler: nat)

  /** The `source` string of a validated configuration. */
  function SourceTag(s: Source): string {
    match s
    case SourceNone => "none"
    case SourceApi => "api"
    case SyncHandler(_) => "syncHandler"
    case AsyncHandler(_) => "asyncHandler"
  }

  /** `validateSource(option, name)`. */
  function ValidateSource(option: JsValue, name: string, c: Coercions): (r: Result<Source>)
    ensures option.Undefined? || option.Null? ==> r == Failure(TypeError)
    ensures r.Success? ==> Str(SourceTag(r.value)) == OrNone(Get(option, "source").value)
    ensures r.Success? && r.value.SyncHandler? ==> Get(option, "syncHandler") == Success(Function(r.value.handler))
    ensures r.Success? && r.value.AsyncHandler? ==> Get(option, "asyncHandler") == Success(Function(r.value.handler))
  {
    match Get(option, "source")
    case Failure(e) => Failure(e)
    case Success(given) =>
      var source := OrNone(given);
      if source == Str("none") then Success(SourceNone)
      else if source == Str("api") then Success(SourceApi)
      else if source == Str("syncHandler") && Get(option, "syncHandler").value.Function? then
        Success(SyncHandler(Get(option, "syncHandler").value.id))
      else if source == Str("asyncHandler") && Get(option, "asyncHandler").value.Function? then
        Success(AsyncHandler(Get(option, "asyncHandler").value.id))
      else Failure(Thrown("Invalid " + name + ".source: " + ToText(source, c)))
  }

  /** A missing source means "none"; any source other than the four accepted
      ones, or a handler source without its function, throws naming it. */
  lemma ValidateSourceMeaning(option: JsValue, name: string, c: Coercions)
    requires !option.Undefined? && !option.Null?
    ensures var source := OrNone(Get(option, "source").value);
      (Get(option, "source").value.Undefined? ==> ValidateSource(option, name, c) == Success(SourceNone))
      && (ValidateSource(option, name, c).Failure? <==>
          source != Str("none") && source != Str("api")
          && !(source == Str("syncHandler") && Get(option, "syncHandler").value.Function?)
          && !(source == Str("asyncHandler") && Get(option, "asyncHandler").value.Function?))
      && (ValidateSource(option, name, c).Failure? ==>
          ValidateSource(option, name, c).error == Thrown("Invalid " + name + ".source: " + ToText(source, c)))
  {
  }

  datatype Shaders = ShadersNone | ShadersApi | Custom(gearUrlPrefix: string, texturesUrlPrefix: string)

  /** `validateShaders(shaders = {})`: undefined takes the default `{}`. */
  function ValidateShaders(shaders: JsValue, c: Coercions): (r: Result<Shaders>)
    ensures shaders.Undefined? ==> r == Success(ShadersNone)
    ensures shaders.Null? ==> r == Failure(TypeError)
  {
    var s := if shaders.Undefined? then Object([]) else shaders;
    match Get(s, "source")
    case Failure(e) => Failure(e)
    case Success(given) =>
      var source := OrNone(given);
      if source == Str("none") then Success(ShadersNone)
      else if source == Str("api") then Success(ShadersApi)
      else if source == Str("custom") then
        match (Get(s, "gearUrlPrefix").value, Get(s, "texturesUrlPrefix").value)
        case (Str(gear), Str(textures)) => Success(Custom(gear, textures))
        case _ => Failure(Thrown("Missing required URLs for shaders.load"))
      else Failure(Thrown("Invalid shaders.source: " + ToText(source, c)))
  }

  /** A custom source is accepted exactly when both URL prefixes are strings,
      and then carries them; only none, api and custom are accepted. */
  lemma ValidateShadersMeaning(shaders: JsValue, c: Coercions)
    requires shaders.Object?
    ensures var source := OrNone(Get(shaders, "source").value);
      var gear := Get(shaders, "gearUrlPrefix").value;
      var textures := Get(shaders, "texturesUrlPrefix").value;
      (source == Str("custom") ==>
        (ValidateShaders(shaders, c).Success? <==> gear.Str? && textures.Str?)
        && (ValidateShaders(shaders, c).Success? ==> ValidateShaders(shaders, c).value == Custom(gear.s, textures.s))
        && (ValidateShaders(shaders, c).Failure? ==> ValidateShaders(shaders, c).error == Thrown("Missing required URLs for shaders.load")))
      && (ValidateShaders(shaders, c).Success? ==> source in [Str("none"), Str("api"), Str("custom")])
      && (source !in [Str("none"), Str("api"), Str("custom")] ==>
          ValidateShaders(shaders, c) == Failure(Thrown("Invalid shaders.source: " + ToText(source, c))))
  {
  }

  datatype Hands = HandsNone | HandsSync(texturesHandler: nat, geometryHandler: nat) | HandsAsync(texturesHandler: nat, geometryHandler: nat)

  /** `validateHands(hands = {})`: a handler source needs both of its functions. */
  function ValidateHands(hands: JsValue, c: Coercions): (r: Result<Hands>)
    ensures hands.Undefined? ==> r == Success(HandsNone)
    ensures hands.Null? ==> r == Failure(TypeError)
  {
    var h := if hands.Undefined? then Object([]) else hands;
    match Get(h, "source")
    case Failure(e) => Failure(e)
    case Success(given) =>
      var source := OrNone(given);
      if source == Str("none") then Success(HandsNone)
      else if source == Str("syncHandler") && Get(h, "syncTexturesHandler").value.Function?
              && Get(h, "syncGeometryHandler").value.Function? then
        Success(HandsSync(Get(h, "syncTexturesHandler").value.id, Get(h, "syncGeometryHandler").value.id))
      else if source == Str("asyncHandler") && Get(h, "asyncTexturesHandler").value.Function?
              && Get(h, "asyncGeometryHandler").value.Function? then
        Success(HandsAsync(Get(h, "asyncTexturesHandler").value.id, Get(h, "asyncGeometryHandler").value.id))
      else Failure(Thrown("Invalid hands.source: " + ToText(source, c)))
  }

  /** Hands take no "api" source; a sync or async source missing either
      handler throws. */
  lemma ValidateHandsMeaning(hands: JsValue, c: Coercions)
    requires hands.Object?
    ensures var source := OrNone(Get(hands, "source").value);
      (source == Str("api") ==> ValidateHands(hands, c) == Failure(Thrown("Invalid hands.source: api")))
      && (source == Str("syncHandler") ==>
          (ValidateHands(hands, c).Success? <==>
           Get(hands, "syncTexturesHandler").value.Function? && Get(hands, "syncGeometryHandler").value.Function?))
      && (source == Str("asyncHandler") ==>
          (ValidateHands(hands, c).Success? <==>
           Get(hands, "asyncTexturesHandler").value.Function? && Get(hands, "asyncGeometryHandler").value.Function?))
      && (ValidateHands(hands, c).Success? ==> source in [Str("none"), Str("syncHandler"), Str("asyncHandler")])
  {
    assert "Invalid hands.source: " + "api" == "Invalid hands.source: api";
  }

  // ----- createModelConfig -----

  /** The parts of the global configuration a model configuration inherits. */
  datatype GlobalSettings = GlobalSettings(lod: Num, allowedRenderStages: seq<Num>)

  /** `parseInt` gives an integer or NaN (None); a NaN key is the property "NaN". */
  datatype ModelConfig = ModelConfig(
    skeleton: Option<nat>,
    shaderHash: JsValue,
    useTrialsMetalness: bool,
    useTrialsGlow: bool,
    trialsColor: JsValue,
    classHash: JsValue,
    isFemale: bool,
    lod: Num,
    allowedRenderStages: seq<Num>,
    regionIndexOptions: map<Option<int>, Option<int>>)

  /** `typeof v == 'object'`. */
  predicate IsObjectType(v: JsValue) {
    v.Null? || v.Array? || v.Object? || v.Skeleton?
  }

  /** `Object.entries(v)`: a string and an array list their indices; the own
      properties of a skeleton are not modelled. */
  function Entries(v: JsValue): seq<(string, JsValue)> {
    match v
    case Object(entries) => entries
    case Array(items) => seq(|items|, i requires 0 <= i < |items| => (IntToString(i), items[i]))
    case Str(s) => seq(|s|, i requires 0 <= i < |s| => (IntToString(i), Str([s[i]])))
    case _ => []
  }

  /** Each entry's name and value through `parseInt`. */
  function Parsed(entries: seq<(string, JsValue)>, c: Coercions): (r: seq<(Option<int>, Option<int>)>)
    ensures |r| == |entries|
    ensures forall j | 0 <= j < |r| :: r[j] == (ParseInt(entries[j].0), ParseInt(ToText(entries[j].1, c)))
  {
    seq(|entries|, j requires 0 <= j < |entries| => (ParseInt(entries[j].0), ParseInt(ToText(entries[j].1, c))))
  }

  /** The object after `o[k] = v` for each pair in turn. */
  function Assigned<K, V>(pairs: seq<(K, V)>): map<K, V> {
    if |pairs| == 0 then map[]
    else Assigned(pairs[..|pairs| - 1])[pairs[|pairs| - 1].0 := pairs[|pairs| - 1].1]
  }

  /** A key is present exactly when some pair assigns it. */
  lemma {:induction false} AssignedKeys<K, V>(pairs: seq<(K, V)>)
    ensures forall k | k in Assigned(pairs) :: exists j :: 0 <= j < |pairs| && pairs[j].0 == k
    ensures forall j | 0 <= j < |pairs| :: pairs[j].0 in Assigned(pairs)
  {
    if |pairs| > 0 {
      var init := pairs[..|pairs| - 1];
      AssignedKeys(init);
      forall k | k in Assigned(pairs)
        ensures exists j :: 0 <= j < |pairs| && pairs[j].0 == k
      {
        if k != pairs[|pairs| - 1].0 {
          var j :| 0 <= j < |init| && init[j].0 == k;
          assert pairs[j] == init[j];
        }
      }
      forall j | 0 <= j < |pairs|
        ensures pairs[j].0 in Assigned(pairs)
      {
        if j < |init| {
          assert init[j] == pairs[j];
        }
      }
    }
  }

  /** The value under a key is that of the last pair assigning it. */
  lemma {:induction false} AssignedLastWins<K, V>(pairs: seq<(K, V)>, j: nat)
    requires j < |pairs|
    requires forall l | j < l < |pairs| :: pairs[l].0 != pairs[j].0
    ensures pairs[j].0 in Assigned(pairs) && Assigned(pairs)[pairs[j].0] == pairs[j].1
    decreases |pairs|
  {
    if j < |pairs| - 1 {
      var init := pairs[..|pairs| - 1];
      assert init[j] == pairs[j];
      AssignedLastWins(init, j);
    }
  }

  /** `config.regionIndexOptions[parseInt(regionIndex)] = parseInt(indexOption)`
      for each entry in turn. */
  function RegionOptions(entries: seq<(string, JsValue)>, c: Coercions): map<Option<int>, Option<int>> {
    Assigned(Parsed(entries, c))
  }

  method ParseRegionIndexOptions(entries: seq<(string, JsValue)>, c: Coercions) returns (options: map<Option<int>, Option<int>>)
    ensures options == RegionOptions(entries, c)
  {
    ghost var pairs := Parsed(entries, c);
    options := map[];
    for i := 0 to |entries|
      invariant options == Assigned(pairs[..i])
    {
      assert pairs[..i + 1][..i] == pairs[..i];
      var (regionIndex, indexOption) := entries[i];
      options := options[ParseInt(regionIndex) := ParseInt(ToText(indexOption, c))];
    }
    assert pairs[..|entries|] == pairs;
  }

  /** A key is present exactly when some entry's name parses to it. */
  lemma RegionOptionsKeys(entries: seq<(string, JsValue)>, c: Coercions)
    ensures forall k | k in RegionOptions(entries, c) :: exists j :: 0 <= j < |entries| && ParseInt(entries[j].0) == k
    ensures forall j | 0 <= j < |entries| :: ParseInt(entries[j].0) in RegionOptions(entries, c)
  {
    var pairs := Parsed(entries, c);
    AssignedKeys(pairs);
    forall k | k in RegionOptions(entries, c)
      ensures exists j :: 0 <= j < |entries| && ParseInt(entries[j].0) == k
    {
      var j :| 0 <= j < |pairs| && pairs[j].0 == k;
    }
  }

  /** The value under a key is that of the last entry whose name parses to it. */
  lemma RegionOptionsLastWins(entries: seq<(string, JsValue)>, c: Coercions, j: nat)
    requires j < |entries|
    requires forall l | j < l < |entries| :: ParseInt(entries[l].0) != ParseInt(entries[j].0)
    ensures ParseInt(entries[j].0) in RegionOptions(entries, c)
    ensures RegionOptions(entries, c)[ParseInt(entries[j].0)] == ParseInt(ToText(entries[j].1, c))
  {
    var pairs := Parsed(entries, c);
    forall l | j < l < |pairs|
      ensures pairs[l].0 != pairs[j].0
    {
    }
    AssignedLastWins(pairs, j);
  }

  /** `"classHash" in options ? options.classHash : 0`. */
  function ClassHash(options: JsValue): (r: JsValue)
    ensures options.Object? && HasOwn(options.entries, "classHash") ==> r == Find(options.entries, "classHash")
    ensures !(options.Object? && HasOwn(options.entries, "classHash")) ==> r == Number(OfInt(0))
  {
    if options.Object? && HasOwn(options.entries, "classHash") then Find(options.entries, "classHash")
    else Number(OfInt(0))
  }

  /** `createModelConfig(options, globalConfig)`: a value that is not an object
      counts as `{}`; null is an object, and reading its properties raises.
      The skeleton is kept only when it is a `THREE.Skeleton`, and is null otherwise. */
  method CreateModelConfig(options: JsValue, global: GlobalSettings, c: Coercions) returns (r: Result<ModelConfig>)
    ensures r.Failure? <==> options.Null?
    ensures r.Failure? ==> r.error == TypeError
    ensures r.Success? ==>
      var o := if IsObjectType(options) then options else Object([]);
      var config := r.value;
      (config.skeleton.Some? <==> Get(o, "skeleton").value.Skeleton?)
      && (config.skeleton.Some? ==> config.skeleton.value == Get(o, "skeleton").value.id)
      && config.shaderHash == Get(o, "shaderHash").value && config.trialsColor == Get(o, "trialsColor").value
      && config.useTrialsMetalness == JsTruthy(Get(o, "useTrialsMetalness").value)
      && config.useTrialsGlow == JsTruthy(Get(o, "useTrialsGlow").value)
      && config.isFemale == JsTruthy(Get(o, "isFemale").value)
      && config.classHash == ClassHash(o)
      && config.lod == VerifyLOD(Get(o, "lod").value, global.lod, c)
      && config.allowedRenderStages ==
         Kept(StageCandidates(Get(o, "allowedRenderStages").value,
                              seq(|global.allowedRenderStages|, i requires 0 <= i < |global.allowedRenderStages| => Number(global.allowedRenderStages[i]))), c)
      && config.regionIndexOptions ==
         (if JsTruthy(Get(o, "regionIndexOptions").value) then RegionOptions(Entries(Get(o, "regionIndexOptions").value), c) else map[])
  {
    var o := if IsObjectType(options) then options else Object([]);
    if o.Null? {
      return Failure(TypeError);
    }
    var lod := VerifyLOD(Get(o, "lod").value, global.lod, c);
    var defaultStages := seq(|global.allowedRenderStages|, i requires 0 <= i < |global.allowedRenderStages| => Number(global.allowedRenderStages[i]));
    var stages := VerifyAllowedRenderStageIndices(Get(o, "allowedRenderStages").value, defaultStages, c);
    var regionIndexOptions := map[];
    var given := Get(o, "regionIndexOptions").value;
    if JsTruthy(given) {
      regionIndexOptions := ParseRegionIndexOptions(Entries(given), c);
    }
    var skeleton := Get(o, "skeleton").value;
    r := Success(ModelConfig(
      if skeleton.Skeleton? then Some(skeleton.id) else None,
      Get(o, "shaderHash").value,
      JsTruthy(Get(o, "useTrialsMetalness").value),
      JsTruthy(Get(o, "useTrialsGlow").value),
      Get(o, "trialsColor").value,
      ClassHash(o),
      JsTruthy(Get(o, "isFemale").value),
      lod, stages, regionIndexOptions));
  }

  /** Options without a `classHash` entry get class hash 0, and a class hash of
      undefined given explicitly is kept. */
  lemma ClassHashDefault(entries: seq<(string, JsValue)>)
    ensures !HasOwn(entries, "classHash") ==> ClassHash(Object(entries)) == Number(OfInt(0))
    ensures ClassHash(Object([("classHash", Undefined)])) == Undefined
  {
    assert HasOwn([("classHash", Undefined)], "classHash") by {
      assert [("classHash", Undefined)][0].0 == "classHash";
    }
  }
}
