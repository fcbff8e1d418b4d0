/**
 * `pn::PFNSerializer::save_to`: the JSON tree a level is written as. The tree
 * is a value (`Json`); `json::dumps` and the file write are not modelled.
 * A reference reader (`ReadLevel`) states what the tree carries: reading the
 * encoding of a level gives back its metadata, its sorted active textures
 * and, per layer in order, its name and its cells' image ids.
 */
module PfnSerializers {
  import opened Basics
  import opened Tiles
  import opened Levels
  import opened StringOrder
  import opened Scenes

  /** The JSON node kinds `save_to` builds. Dictionaries are keyed; their textual key order is
      left to `json::dumps`. */
  datatype Json = JString(s: string) | JNumber(n: int) | JArray(items: seq<Json>) | JObject(fields: map<string, Json>)

  /** One entry of a layer's "tiles" list. */
  function EncodeTile(position: nat, tile: TileInstance): Json
  {
    JObject(map["position" := JNumber(position), "texture" := JNumber(tile.tileImageId)])
  }

  /** The first `total` cells, in row-major order. */
  function EncodeTiles(tiles: seq<TileInstance>, total: nat): (r: seq<Json>)
    requires total <= |tiles|
    ensures |r| == total
  {
    seq(total, j requires 0 <= j < total => EncodeTile(j, tiles[j]))
  }

  function EncodeLayer(layer: LayerSnapshot, total: nat): Json
    requires total <= |layer.tiles|
  {
    JObject(map["name" := JString(layer.name), "tiles" := JArray(EncodeTiles(layer.tiles, total))])
  }

  /** One "layers" entry per layer, in array order. */
  function EncodeLayers(layers: seq<LayerSnapshot>, total: nat): (r: seq<Json>)
    requires forall k :: 0 <= k < |layers| ==> total <= |layers[k].tiles|
    ensures |r| == |layers|
    ensures forall k :: 0 <= k < |layers| ==> r[k] == EncodeLayer(layers[k], total)
  {
    seq(|layers|, i requires 0 <= i < |layers| => EncodeLayer(layers[i], total))
  }

  function EncodeStrings(strings: seq<string>): (r: seq<Json>)
    ensures |r| == |strings|
  {
    seq(|strings|, k requires 0 <= k < |strings| => JString(strings[k]))
  }

  /** `total`: the `uint32_t` product of width and height. */
  function TileTotal(level: LevelSnapshot): nat
  {
    (level.width * level.height) % U32Limit
  }

  /** Every layer has at least `width * height` cells, so `tile_at` stays in range. */
  ghost predicate Encodable(level: LevelSnapshot)
  {
    forall i :: 0 <= i < |level.layers| ==> TileTotal(level) <= |level.layers[i].tiles|
  }

  /** The document tree `save_to` assembles, for any list of texture names. */
  function Document(level: LevelSnapshot, names: seq<string>): Json
    requires Encodable(level)
  {
    JObject(map[
      "level" := JObject(map["name" := JString(level.name), "width" := JNumber(level.width), "height" := JNumber(level.height)]),
      "textures" := JArray(EncodeStrings(names)),
      "layers" := JArray(EncodeLayers(level.layers, TileTotal(level)))
    ])
  }

  /** The tree `save_to` builds: level metadata, the active textures in ascending order, and one
      dictionary per layer in array order. */
  ghost function Encode(level: LevelSnapshot): Json
    requires Encodable(level)
  {
    Document(level, SortedSeq(level.activeTextures))
  }

  /** What a reader recovers of one layer: its name and its cells' image ids. */
  datatype LayerRecord = LayerRecord(name: string, textures: seq<int>)

  /** What a reader recovers of a level. */
  datatype LevelRecord = LevelRecord(name: string, width: int, height: int, textures: seq<string>, layers: seq<LayerRecord>)

  function Field(node: Json, key: string): Option<Json>
  {
    if node.JObject? && key in node.fields then Some(node.fields[key]) else None
  }

  function ReadStrings(items: seq<Json>): Option<seq<string>>
  {
    if items == [] then Some([])
    else if !items[0].JString? then None
    else match ReadStrings(items[1..])
      case None => None
      case Some(rest) => Some([items[0].s] + rest)
  }

  /** Reads a "tiles" list, insisting that the entry at index k has `position == start + k`. */
  function ReadTiles(items: seq<Json>, start: nat): Option<seq<int>>
  {
    if items == [] then Some([])
    else match (Field(items[0], "position"), Field(items[0], "texture"))
      case (Some(JNumber(p)), Some(JNumber(t))) =>
        if p != start then None
        else (match ReadTiles(items[1..], start + 1)
          case None => None
          case Some(rest) => Some([t] + rest))
      case _ => None
  }

  function ReadLayer(node: Json): Option<LayerRecord>
  {
    match (Field(node, "name"), Field(node, "tiles"))
    case (Some(JString(name)), Some(JArray(tiles))) =>
      (match ReadTiles(tiles, 0)
        case None => None
        case Some(textures) => Some(LayerRecord(name, textures)))
    case _ => None
  }

  function ReadLayers(items: seq<Json>): Option<seq<LayerRecord>>
  {
    if items == [] then Some([])
    else match (ReadLayer(items[0]), ReadLayers(items[1..]))
      case (Some(layer), Some(rest)) => Some([layer] + rest)
      case _ => None
  }

  function ReadLevel(doc: Json): Option<LevelRecord>
  {
    match (Field(doc, "level"), Field(doc, "textures"), Field(doc, "layers"))
    case (Some(meta), Some(JArray(textures)), Some(JArray(layers))) =>
      var name, width, height := Field(meta, "name"), Field(meta, "width"), Field(meta, "height");
      if name.Some? && name.value.JString? && width.Some? && width.value.JNumber? && height.Some? && height.value.JNumber? then
        match (ReadStrings(textures), ReadLayers(layers))
        case (Some(names), Some(records)) =>
          Some(LevelRecord(name.value.s, width.value.n, height.value.n, names, records))
        case _ => None
      else None
    case _ => None
  }

  /** The image ids of the first `total` cells. */
  function ImageIds(tiles: seq<TileInstance>, total: nat): (r: seq<int>)
    requires total <= |tiles|
    ensures |r| == total
  {
    seq(total, j requires 0 <= j < total => tiles[j].tileImageId)
  }

  /** What the encoding of `level` must carry. */
  ghost function Expected(level: LevelSnapshot): LevelRecord
    requires Encodable(level)
  {
    LevelRecord(level.name, level.width, level.height, SortedSeq(level.activeTextures),
      LayerRecords(level.layers, TileTotal(level)))
  }

  function LayerRecords(layers: seq<LayerSnapshot>, total: nat): (r: seq<LayerRecord>)
    requires forall k :: 0 <= k < |layers| ==> total <= |layers[k].tiles|
    ensures |r| == |layers|
    ensures forall k :: 0 <= k < |layers| ==> r[k] == LayerRecord(layers[k].name, ImageIds(layers[k].tiles, total))
  {
    seq(|layers|, k requires 0 <= k < |layers| => LayerRecord(layers[k].name, ImageIds(layers[k].tiles, total)))
  }

  lemma {:induction false} ReadStringsEncoded(strings: seq<string>)
    ensures ReadStrings(EncodeStrings(strings)) == Some(strings)
  {
    if strings != [] {
      assert EncodeStrings(strings)[1..] == EncodeStrings(strings[1..]);
      ReadStringsEncoded(strings[1..]);
      assert strings == [strings[0]] + strings[1..];
    }
  }

  /** Reading encoded cells from index `start` on gives back their image ids. */
  lemma {:induction false} ReadTilesEncoded(items: seq<Json>, tiles: seq<TileInstance>, start: nat)
    requires start + |items| <= |tiles|
    requires forall k :: 0 <= k < |items| ==> items[k] == EncodeTile(start + k, tiles[start + k])
    ensures ReadTiles(items, start) == Some(ImageIds(tiles, start + |items|)[start..])
  {
    if items != [] {
      ReadTilesEncoded(items[1..], tiles, start + 1);
      assert ImageIds(tiles, start + |items|)[start..] ==
        [tiles[start].tileImageId] + ImageIds(tiles, start + 1 + |items[1..]|)[start + 1..];
    }
  }

  /** Reading one encoded layer gives back its name and the image ids of its first `total` cells. */
  lemma ReadLayerEncoded(layer: LayerSnapshot, total: nat)
    requires total <= |layer.tiles|
    ensures ReadLayer(EncodeLayer(layer, total)) == Some(LayerRecord(layer.name, ImageIds(layer.tiles, total)))
  {
    ReadTilesEncoded(EncodeTiles(layer.tiles, total), layer.tiles, 0);
    assert ImageIds(layer.tiles, total)[0..] == ImageIds(layer.tiles, total);
  }

  /** Reading encoded layers gives back each layer's name and image ids, in order. */
  lemma {:induction false} ReadLayersEncoded(items: seq<Json>, layers: seq<LayerSnapshot>, total: nat)
    requires |items| == |layers|
    requires forall k :: 0 <= k < |layers| ==> total <= |layers[k].tiles|
    requires forall k :: 0 <= k < |items| ==> items[k] == EncodeLayer(layers[k], total)
    ensures ReadLayers(items) == Some(LayerRecords(layers, total))
  {
    if items != [] {
      ReadLayerEncoded(layers[0], total);
      ReadLayersEncoded(items[1..], layers[1..], total);
      assert LayerRecords(layers, total) == [LayerRecord(layers[0].name, ImageIds(layers[0].tiles, total))] + LayerRecords(layers[1..], total);
    }
  }

  /** A reader recovers every part of the assembled tree. */
  lemma ReadDocument(level: LevelSnapshot, names: seq<string>)
    requires Encodable(level)
    ensures ReadLevel(Document(level, names)) ==
      Some(LevelRecord(level.name, level.width, level.height, names, LayerRecords(level.layers, TileTotal(level))))
  {
    var total := TileTotal(level);
    var meta := JObject(map["name" := JString(level.name), "width" := JNumber(level.width), "height" := JNumber(level.height)]);
    var textures := EncodeStrings(names);
    var layers := EncodeLayers(level.layers, total);
    var doc := Document(level, names);
    assert Field(doc, "level") == Some(meta);
    assert Field(doc, "textures") == Some(JArray(textures));
    assert Field(doc, "layers") == Some(JArray(layers));
    assert Field(meta, "name") == Some(JString(level.name));
    assert Field(meta, "width") == Some(JNumber(level.width));
    assert Field(meta, "height") == Some(JNumber(level.height));
    ReadStringsEncoded(names);
    ReadLayersEncoded(layers, level.layers, total);
  }

  /** The tree carries the level exactly: a reader recovers its name and size, its active textures
      in ascending order, and each layer's name and the image id of every cell at its position. */
  lemma ReadEncoded(level: LevelSnapshot)
    requires Encodable(level)
    ensures ReadLevel(Encode(level)) == Some(Expected(level))
  {
    ReadDocument(level, SortedSeq(level.activeTextures));
  }

  /** The textures list names each active texture once, in ascending order, and nothing else. */
  lemma EncodedTexturesAreActive(level: LevelSnapshot)
    requires Encodable(level)
    ensures ReadLevel(Encode(level)).Some?
    ensures var names := ReadLevel(Encode(level)).value.textures;
      StrictlySorted(names) && |names| == |level.activeTextures| &&
      forall t :: t in names <==> t in level.activeTextures
  {
    ReadEncoded(level);
  }

  /** A fresh 40 x 10 level with one layer of unassigned cells and no textures in use encodes 400
      tiles, all with texture -1, and an empty textures list. */
  lemma FreshLevelEncoding(level: LevelSnapshot)
    requires level.width == 40 && level.height == 10 && level.activeTextures == {}
    requires |level.layers| == 1 && |level.layers[0].tiles| == 400
    requires forall j :: 0 <= j < 400 ==> level.layers[0].tiles[j].tileImageId == Unassigned
    ensures Encodable(level)
    ensures var r := ReadLevel(Encode(level));
      && r.Some? && r.value.name == level.name && r.value.width == 40 && r.value.height == 10
      && r.value.textures == [] && |r.value.layers| == 1 && r.value.layers[0].name == level.layers[0].name
      && |r.value.layers[0].textures| == 400
      && forall j :: 0 <= j < 400 ==> r.value.layers[0].textures[j] == Unassigned
  {
    assert SortedSeq(level.activeTextures) == [];
    assert TileTotal(level) == 400;
    ReadDocument(level, []);
    var layer := LayerRecords(level.layers, 400)[0];
    assert layer == LayerRecord(level.layers[0].name, ImageIds(level.layers[0].tiles, 400));
  }

  class PfnSerializer {
    const level: Level

    constructor(level: Level)
      ensures this.level == level
    {
      this.level := level;
    }

    /** `save_to(filename)`: builds the tree with nested loops (active textures in the set's
        ascending order, then layer by layer, cell by cell) and reports success. */
    method SaveTo(filename: string) returns (saved: bool, document: Json)
      requires level.Valid()
      ensures Encodable(level.Snapshot())
      ensures saved
      ensures document == Encode(level.Snapshot())
    {
      ghost var snapshot := level.Snapshot();
      assert Encodable(snapshot) by {
        forall k | 0 <= k < |snapshot.layers|
          ensures TileTotal(snapshot) <= |snapshot.layers[k].tiles|
        {
          assert snapshot.layers[k] == level.layers[k].Snapshot();
          assert level.layers[k] in level.layers;
        }
      }
      var levelDict := JObject(map[
        "name" := JString(level.Name()),
        "width" := JNumber(level.horizontalTileCount),
        "height" := JNumber(level.verticalTileCount)]);

      var texList := TextureList(level.ActiveTextures());

      var total := (level.horizontalTileCount * level.verticalTileCount) % U32Limit;
      assert total == TileTotal(snapshot);
      var layerList: seq<Json> := [];
      var i := 0;
      while i < level.LayerCount()
        invariant i <= |level.layers|
        invariant |layerList| == i
        invariant forall k :: 0 <= k < i ==> layerList[k] == EncodeLayer(snapshot.layers[k], total)
      {
        var layer := level.LayerAt(i);
        var tileList := TileList(layer, total);
        layerList := layerList + [JObject(map["name" := JString(layer.Name()), "tiles" := JArray(tileList)])];
        i := i + 1;
      }
      assert layerList == EncodeLayers(snapshot.layers, total);

      document := JObject(map["level" := levelDict, "textures" := JArray(texList), "layers" := JArray(layerList)]);
      assert document == Encode(snapshot);
      saved := true;
    }
  }

  /** The "textures" loop of `save_to`: a range-for over the `std::set`, which visits its
      strings in ascending order, appending each as a string node. */
  method TextureList(textures: set<string>) returns (texList: seq<Json>)
    ensures texList == EncodeStrings(SortedSeq(textures))
  {
    var remaining := textures;
    var visited: seq<string> := [];
    texList := [];
    while remaining != {}
      invariant remaining <= textures
      invariant StrictlySorted(visited)
      invariant forall x :: x in visited <==> x in textures && x !in remaining
      invariant forall x, y :: x in visited && y in remaining ==> Below(x, y) && x != y
      invariant texList == EncodeStrings(visited)
      decreases |remaining|
    {
      LeastExists(remaining);
      var texture :| texture in remaining && forall x :: x in remaining ==> Below(texture, x);
      texList := texList + [JString(texture)];
      visited := visited + [texture];
      remaining := remaining - {texture};
    }
    SortedUnique(visited, SortedSeq(textures));
  }

  /** The inner loop of `save_to`: one `{position, texture}` node per cell `j < total`, reading
      the cell through `tile_at(j)`. */
  method TileList(layer: Layer, total: nat) returns (tileList: seq<Json>)
    requires total <= |layer.tiles|
    ensures tileList == EncodeTiles(layer.tiles, total)
  {
    tileList := [];
    var j := 0;
    while j < total
      invariant j <= total
      invariant tileList == EncodeTiles(layer.tiles, j)
    {
      tileList := tileList + [EncodeTile(j, layer.TileAt(j))];
      j := j + 1;
    }
  }

  /** Saving the level `Level(scene)` has just built: an "Untitled" 40 x 10 document with no
      textures and one "Untitled" layer of 400 tiles, all with texture -1. */
  method SaveNewLevel(scene: Scene) returns (saved: bool, document: Json)
    requires scene.Valid()
    modifies scene`nextMesh, scene`parent
    ensures saved
    ensures var r := ReadLevel(document);
      && r.Some? && r.value.name == "Untitled" && r.value.width == 40 && r.value.height == 10
      && r.value.textures == [] && |r.value.layers| == 1 && r.value.layers[0].name == "Untitled"
      && |r.value.layers[0].textures| == 400
      && forall j :: 0 <= j < 400 ==> r.value.layers[0].textures[j] == Unassigned
  {
    var level := new Level(scene);
    var serializer := new PfnSerializer(level);
    saved, document := serializer.SaveTo("");
    FreshLevelEncoding(level.Snapshot());
  }
}
