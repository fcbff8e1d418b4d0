/**
 * `pn::Layer` and `pn::Level`: the editable grid and its aggregate. A layer
 * keeps a reference to its parent level, from which it takes the grid size,
 * so both classes live in one module.
 */
module Levels {
  import opened Basics
  import opened Scenes
  import opened Tiles
  import TextureRefCounts

  /** The state of one layer, as a value. */
  datatype LayerSnapshot = LayerSnapshot(name: string, zindex: int, tiles: seq<TileInstance>)

  /** The state of a level that its serializer reads, as a value. */
  datatype LevelSnapshot = LevelSnapshot(
    name: string, width: U32, height: U32, activeTextures: set<string>, layers: seq<LayerSnapshot>)

  class Layer {
    const parent: Level
    /** Set once by the constructor; `Layer` has no setter for it. */
    const name: string
    /** `zindex_`; the constructor leaves it uninitialised. */
    var zindex: int
    /** `tiles_`, row-major. */
    var tiles: seq<TileInstance>
    /** `mesh_container_`. */
    var meshContainer: MeshId

    /** `Layer(Level& parent)`: named "Untitled", sized to the parent's grid with unassigned cells. */
    constructor(parent: Level)
      ensures this.parent == parent && name == "Untitled" && meshContainer == 0
      ensures tiles == Resized([], (parent.horizontalTileCount * parent.verticalTileCount) % U32Limit)
    {
      this.parent := parent;
      name := "Untitled";
      meshContainer := 0;
      tiles := [];
      new;
      Resize(parent.horizontalTileCount, parent.verticalTileCount);
    }

    function Name(): string
    {
      name
    }

    function Zindex(): int
      reads this
    {
      zindex
    }

    /** `set_zindex`: only the z-index changes. */
    method SetZindex(z: int)
      modifies this`zindex
      ensures Zindex() == z
    {
      zindex := z;
    }

    /** `tile_at(j)`: the `j`-th cell in row-major order. */
    function TileAt(j: nat): TileInstance
      reads this
      requires j < |tiles|
    {
      tiles[j]
    }

    /** `resize(w, h)`: the vector gets `w*h` cells (a `uint32_t` product), keeping its prefix and
        filling new cells with defaults. */
    method Resize(newWidth: U32, newHeight: U32)
      modifies this`tiles
      ensures tiles == Resized(old(tiles), (newWidth * newHeight) % U32Limit)
    {
      tiles := Resized(tiles, (newWidth * newHeight) % U32Limit);
    }

    function Snapshot(): LayerSnapshot
      reads this
    {
      LayerSnapshot(name, zindex, tiles)
    }

    /** `add_to_scene`: allocates the container mesh, then walks the grid row by row (z outer,
        x inner), giving the cell at index `z*W + x` a fresh fill mesh and a fresh border mesh
        parented to the fill. Image ids are untouched. */
    method AddToScene(scene: Scene)
      requires scene.Valid()
      requires parent.horizontalTileCount * parent.verticalTileCount <= |tiles|
      modifies this`tiles, this`meshContainer, scene`nextMesh, scene`parent
      ensures scene.Valid()
      ensures meshContainer == old(scene.nextMesh)
      ensures scene.nextMesh == FillMesh(meshContainer, parent.horizontalTileCount * parent.verticalTileCount)
      ensures tiles == Materialized(old(tiles), meshContainer, parent.horizontalTileCount * parent.verticalTileCount)
      ensures scene.parent == WithBorders(old(scene.parent), meshContainer, parent.horizontalTileCount * parent.verticalTileCount)
    {
      var width: nat := parent.horizontalTileCount;
      var height: nat := parent.verticalTileCount;
      meshContainer := scene.NewMesh();
      var base := meshContainer;
      ghost var tiles0 := tiles;
      ghost var parent0 := scene.parent;
      var z: nat := 0;
      ghost var rowStart: nat := 0;
      while z < height
        invariant z <= height
        invariant rowStart == z * width
        invariant meshContainer == base
        invariant rowStart <= width * height <= |tiles0|
        invariant scene.Valid()
        invariant scene.nextMesh == FillMesh(base, rowStart)
        invariant tiles == Materialized(tiles0, base, rowStart)
        invariant scene.parent == WithBorders(parent0, base, rowStart)
      {
        RowEnd(z, width, height);
        MaterializeRow(scene, tiles0, parent0, base, z, width, rowStart);
        rowStart := rowStart + width;
        z := z + 1;
      }
    }

    /** The inner loop of the grid walk: row `z`, whose first cell has index `rowStart == z*W`,
        x from 0 to `width - 1`. */
    method MaterializeRow(scene: Scene, ghost tiles0: seq<TileInstance>, ghost parent0: map<MeshId, MeshId>,
                          base: MeshId, z: nat, width: nat, ghost rowStart: nat)
      requires scene.Valid()
      requires rowStart == z * width && rowStart + width <= |tiles0|
      requires tiles == Materialized(tiles0, base, rowStart)
      requires scene.nextMesh == FillMesh(base, rowStart)
      requires scene.parent == WithBorders(parent0, base, rowStart)
      modifies this`tiles, scene`nextMesh, scene`parent
      ensures scene.Valid()
      ensures tiles == Materialized(tiles0, base, rowStart + width)
      ensures scene.nextMesh == FillMesh(base, rowStart + width)
      ensures scene.parent == WithBorders(parent0, base, rowStart + width)
    {
      var x: nat := 0;
      ghost var done := rowStart;
      while x < width
        invariant x <= width && done == rowStart + x
        invariant scene.Valid()
        invariant scene.nextMesh == FillMesh(base, done)
        invariant tiles == Materialized(tiles0, base, done)
        invariant scene.parent == WithBorders(parent0, base, done)
      {
        var index := CellIndex(x, z, width);
        assert index == done;
        MaterializeCell(scene, tiles0, parent0, base, index);
        x := x + 1;
        done := index + 1;
      }
    }

    /** One step of the grid walk: the cell at `index` gets a fresh fill mesh and a fresh border
        mesh, and the border is parented to the fill. */
    method MaterializeCell(scene: Scene, ghost tiles0: seq<TileInstance>, ghost parent0: map<MeshId, MeshId>,
                           base: MeshId, index: nat)
      requires scene.Valid() && index < |tiles0|
      requires tiles == Materialized(tiles0, base, index)
      requires scene.nextMesh == FillMesh(base, index)
      requires scene.parent == WithBorders(parent0, base, index)
      modifies this`tiles, scene`nextMesh, scene`parent
      ensures scene.Valid()
      ensures tiles == Materialized(tiles0, base, index + 1)
      ensures scene.nextMesh == FillMesh(base, index + 1)
      ensures scene.parent == WithBorders(parent0, base, index + 1)
    {
      var fill := scene.NewMesh();
      var border := scene.NewMesh();
      tiles := tiles[index := tiles[index].(meshId := Some(fill), borderMeshId := Some(border))];
      scene.SetParent(border, fill);
      assert tiles == Materialized(tiles0, base, index + 1);
    }

    /** `remove_from_scene`: an empty body in the source; nothing changes. */
    method RemoveFromScene(scene: Scene)
      ensures unchanged(this) && unchanged(scene)
    {
    }
  }

  /** Snapshots of a sequence of layers, position by position. */
  function LayerSnapshots(layers: seq<Layer>): (r: seq<LayerSnapshot>)
    reads layers
    ensures |r| == |layers|
    ensures forall i :: 0 <= i < |layers| ==> r[i] == layers[i].Snapshot()
  {
    seq(|layers|, i requires 0 <= i < |layers| reads layers => layers[i].Snapshot())
  }

  class Level {
    const scene: Scene
    var name: string
    var activeLayer: U32
    var layers: seq<Layer>
    const horizontalTileCount: U32
    const verticalTileCount: U32
    var textureRefCount: TextureRefCounts.RefTable
    /** How many times `signal_layers_changed` has fired. */
    var layersChanged: nat

    /** The grid is the 40 x 10 the constructor fixes; each layer is distinct, belongs to this
        level and holds exactly one cell per grid position. */
    ghost predicate Valid()
      reads this, layers
    {
      && horizontalTileCount == 40 && verticalTileCount == 10
      && (forall i, j :: 0 <= i < j < |layers| ==> layers[i] != layers[j])
      && forall l :: l in layers ==> l.parent == this && |l.tiles| == TileCount()
    }

    /** Cells per layer. */
    function TileCount(): nat
    {
      horizontalTileCount * verticalTileCount
    }

    /** `Level(scene)`: "Untitled", 40 x 10, active layer 0, an empty refcount table, and the one
        layer `add_layer` creates. */
    constructor(scene: Scene)
      requires scene.Valid()
      modifies scene`nextMesh, scene`parent
      ensures Valid() && scene.Valid() && this.scene == scene
      ensures name == "Untitled" && activeLayer == 0 && textureRefCount == map[]
      ensures horizontalTileCount == 40 && verticalTileCount == 10
      ensures |layers| == 1 && fresh(layers[0]) && layers[0].zindex == 1 && layers[0].name == "Untitled"
      ensures forall i :: 0 <= i < TileCount() ==> layers[0].tiles[i].tileImageId == Unassigned
      ensures layers[0].meshContainer == old(scene.nextMesh)
      ensures layers[0].tiles == Materialized(Resized([], TileCount()), layers[0].meshContainer, TileCount())
      ensures scene.nextMesh == FillMesh(old(scene.nextMesh), TileCount())
      ensures scene.parent == WithBorders(old(scene.parent), layers[0].meshContainer, TileCount())
      ensures layersChanged == 1
    {
      this.scene := scene;
      name := "Untitled";
      activeLayer := 0;
      horizontalTileCount := 40;
      verticalTileCount := 10;
      layers := [];
      textureRefCount := map[];
      layersChanged := 0;
      new;
      AddLayer();
    }

    function ActiveLayer(): U32
      reads this
    {
      activeLayer
    }

    /** `set_active_layer`: stored as given, with no bounds check. */
    method SetActiveLayer(active: U32)
      modifies this`activeLayer
      ensures ActiveLayer() == active
    {
      activeLayer := active;
    }

    function Name(): string
      reads this
    {
      name
    }

    /** `set_name`: `name()` returns exactly this string afterwards. */
    method SetName(newName: string)
      modifies this`name
      ensures Name() == newName
    {
      name := newName;
    }

    function LayerCount(): nat
      reads this
    {
      |layers|
    }

    /** `layer_at(idx)`: `vector::at` throws unless `idx < layer_count()`. */
    function LayerAt(idx: nat): (l: Layer)
      reads this
      requires idx < LayerCount()
      ensures l in layers
    {
      layers[idx]
    }

    /** `add_layer`: appends a fresh layer sized to the grid, gives it alone z-index `layer_count()`
        (its array index plus one; earlier layers keep theirs), materialises it in the scene and fires
        `signal_layers_changed`. Earlier layers, the name and the active layer are untouched. */
    method AddLayer()
      requires Valid() && scene.Valid()
      modifies this`layers, this`layersChanged, scene`nextMesh, scene`parent
      ensures Valid() && scene.Valid()
      ensures LayerCount() == old(LayerCount()) + 1
      ensures layers[..old(LayerCount())] == old(layers)
      ensures fresh(layers[LayerCount() - 1])
      ensures var l := layers[LayerCount() - 1];
        && l.name == "Untitled" && l.zindex == LayerCount()
        && l.meshContainer == old(scene.nextMesh)
        && l.tiles == Materialized(Resized([], TileCount()), l.meshContainer, TileCount())
        && scene.parent == WithBorders(old(scene.parent), l.meshContainer, TileCount())
      ensures scene.nextMesh == FillMesh(old(scene.nextMesh), TileCount())
      ensures ActiveLayer() == old(ActiveLayer()) && Name() == old(Name())
      ensures layersChanged == old(layersChanged) + 1
    {
      var layer := new Layer(this);
      layers := layers + [layer];
      assert Valid();
      LayerAt(LayerCount() - 1).SetZindex(LayerCount());
      assert Valid();
      LayerAt(LayerCount() - 1).AddToScene(scene);
      layersChanged := layersChanged + 1;
    }

    /** `remove_layer(idx)`: requires `idx < layer_count()`; drops that layer keeping the others in
        order, renumbers every remaining z-index to its array position, resets the active layer to 0
        (also when no layer is left) and fires `signal_layers_changed`. */
    method RemoveLayer(idx: nat)
      requires Valid() && idx < LayerCount()
      modifies this`layers, this`activeLayer, this`layersChanged, (layers[..idx] + layers[idx + 1..])`zindex
      ensures Valid()
      ensures LayerCount() == old(LayerCount()) - 1
      ensures layers == old(layers[..idx] + layers[idx + 1..])
      ensures forall i :: 0 <= i < LayerCount() ==> layers[i].zindex == i
      ensures forall l :: l in layers ==> l.tiles == old(l.tiles)
      ensures ActiveLayer() == 0 && Name() == old(Name())
      ensures layersChanged == old(layersChanged) + 1
    {
      LayerAt(idx).RemoveFromScene(scene);
      layers := layers[..idx] + layers[idx + 1..];
      RenumberLayers();
      SetActiveLayer(0);
      layersChanged := layersChanged + 1;
    }

    /** The z-index rebuild of `remove_layer`: layer `i` gets z-index `i`. */
    method RenumberLayers()
      requires Valid()
      modifies layers`zindex
      ensures Valid()
      ensures forall i :: 0 <= i < LayerCount() ==> layers[i].zindex == i
    {
      var i := 0;
      while i < LayerCount()
        invariant 0 <= i <= LayerCount()
        invariant Valid()
        invariant forall k :: 0 <= k < i ==> layers[k].zindex == k
      {
        LayerAt(i).SetZindex(i);
        i := i + 1;
      }
    }

    /** `active_textures`: the key set of the refcount table. */
    function ActiveTextures(): set<string>
      reads this
    {
      TextureRefCounts.ActiveTextures(textureRefCount)
    }

    /** `increase_texture_refcount`: insert with count 1 or increment (wrapping as a `uint32_t`). */
    method IncreaseTextureRefcount(texturePath: string)
      modifies this`textureRefCount
      ensures textureRefCount == TextureRefCounts.Increased(old(textureRefCount), texturePath)
    {
      if texturePath in textureRefCount {
        textureRefCount := textureRefCount[texturePath := (textureRefCount[texturePath] + 1) % U32Limit];
      } else {
        textureRefCount := textureRefCount[texturePath := 1];
      }
    }

    /** `decrease_texture_refcount`: asserts the path is present, decrements, erases at zero. */
    method DecreaseTextureRefcount(texturePath: string)
      requires texturePath in textureRefCount
      modifies this`textureRefCount
      ensures textureRefCount == TextureRefCounts.Decreased(old(textureRefCount), texturePath)
    {
      textureRefCount := textureRefCount[texturePath := (textureRefCount[texturePath] - 1) % U32Limit];
      if textureRefCount[texturePath] == 0 {
        textureRefCount := textureRefCount - {texturePath};
      }
    }

    function Snapshot(): LevelSnapshot
      reads this, layers
    {
      LevelSnapshot(name, horizontalTileCount, verticalTileCount, ActiveTextures(), LayerSnapshots(layers))
    }
  }
}
