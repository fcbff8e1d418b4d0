/**
 * One grid cell (`TileInstance`) and the value-level facts about a layer's
 * row-major tile vector: resizing, the (x, z) -> index mapping, and what
 * `Layer::add_to_scene` writes into the cells and the scene's parent relation.
 */
module Tiles {
  import opened Basics
  import opened Scenes

  /** The `tile_image_id` of a cell with no texture assigned. */
  const Unassigned: int := -1

  /** A grid cell. The default constructor leaves `mesh_id` and `border_mesh_id` uninitialised;
      `None` stands for "never assigned". */
  datatype TileInstance = TileInstance(tileImageId: int, meshId: Option<MeshId>, borderMeshId: Option<MeshId>)

  /** `TileInstance()`: the cell starts unassigned and without meshes. */
  function DefaultTile(): (t: TileInstance)
    ensures t.tileImageId == Unassigned
    ensures t.meshId.None? && t.borderMeshId.None?
  {
    TileInstance(Unassigned, None, None)
  }

  /** `std::vector::resize(n, TileInstance())` on the tile vector. */
  function Resized(tiles: seq<TileInstance>, n: nat): (r: seq<TileInstance>)
    ensures |r| == n
    ensures forall i :: 0 <= i < n && i < |tiles| ==> r[i] == tiles[i]
    ensures forall i :: |tiles| <= i < n ==> r[i] == DefaultTile()
  {
    if n <= |tiles| then tiles[..n] else tiles + seq(n - |tiles|, _ => DefaultTile())
  }

  /** A new layer's tiles: `n` unassigned cells. */
  lemma ResizedFromEmpty(n: nat)
    ensures |Resized([], n)| == n
    ensures forall i :: 0 <= i < n ==> Resized([], n)[i].tileImageId == Unassigned
  {
  }

  /** Row-major position of cell (x, z) in a grid `width` cells wide. */
  function CellIndex(x: nat, z: nat, width: nat): nat
  {
    z * width + x
  }

  /** Every cell of a `width` x `height` grid has an index inside the tile vector. */
  lemma CellIndexInGrid(x: nat, z: nat, width: nat, height: nat)
    requires x < width && z < height
    ensures CellIndex(x, z, width) < width * height
  {
    calc {
      CellIndex(x, z, width);
      < z * width + width;
      == (z + 1) * width;
      <= { MulMonotone(z + 1, height, width); }
      height * width;
    }
  }

  lemma MulMonotone(a: nat, b: nat, c: nat)
    requires a <= b
    ensures a * c <= b * c
  {
  }

  /** Finishing row `z` of the grid walk reaches the first index of row `z + 1`, still inside the grid. */
  lemma RowEnd(z: nat, width: nat, height: nat)
    requires z < height
    ensures CellIndex(width, z, width) == (z + 1) * width
    ensures (z + 1) * width <= width * height
  {
    MulMonotone(z + 1, height, width);
  }

  /** Distinct cells have distinct indices. */
  lemma CellIndexInjective(x1: nat, z1: nat, x2: nat, z2: nat, width: nat)
    requires x1 < width && x2 < width
    requires CellIndex(x1, z1, width) == CellIndex(x2, z2, width)
    ensures x1 == x2 && z1 == z2
  {
    if z1 < z2 {
      MulMonotone(z1 + 1, z2, width);
      assert false;
    } else if z2 < z1 {
      MulMonotone(z2 + 1, z1, width);
      assert false;
    }
  }

  /** Every index of the tile vector is the index of some cell. */
  lemma CellIndexCovers(i: nat, width: nat, height: nat)
    requires i < width * height
    ensures width > 0
    ensures i % width < width && i / width < height
    ensures CellIndex(i % width, i / width, width) == i
  {
    if i / width >= height {
      MulMonotone(height, i / width, width);
      assert false;
    }
  }

  /** The fill mesh `add_to_scene` allocates for the cell visited `i`-th, when the layer's
      container mesh got id `base`. */
  function FillMesh(base: MeshId, i: nat): MeshId
  {
    base + 1 + 2 * i
  }

  /** The border mesh allocated right after the fill mesh of the same cell. */
  function BorderMesh(base: MeshId, i: nat): MeshId
  {
    base + 2 + 2 * i
  }

  /** Container, fill and border meshes of all cells are pairwise distinct and above `base - 1`. */
  lemma MeshesDistinct(base: MeshId, i: nat, j: nat)
    ensures FillMesh(base, i) != BorderMesh(base, j)
    ensures i != j ==> FillMesh(base, i) != FillMesh(base, j) && BorderMesh(base, i) != BorderMesh(base, j)
    ensures base < FillMesh(base, i) && base < BorderMesh(base, j)
  {
  }

  /** The tiles after the first `done` cells got their fill and border meshes. */
  function Materialized(tiles: seq<TileInstance>, base: MeshId, done: nat): (r: seq<TileInstance>)
    requires done <= |tiles|
    ensures |r| == |tiles|
  {
    seq(|tiles|, i requires 0 <= i < |tiles| =>
      if i < done then tiles[i].(meshId := Some(FillMesh(base, i)), borderMeshId := Some(BorderMesh(base, i)))
      else tiles[i])
  }

  /** Materialising touches only the mesh fields: every image id survives, each visited cell holds
      its own fill and border mesh, and the cells not yet visited are unchanged. */
  lemma MaterializedCells(tiles: seq<TileInstance>, base: MeshId, done: nat)
    requires done <= |tiles|
    ensures forall i :: 0 <= i < |tiles| ==> Materialized(tiles, base, done)[i].tileImageId == tiles[i].tileImageId
    ensures forall i :: done <= i < |tiles| ==> Materialized(tiles, base, done)[i] == tiles[i]
    ensures forall i :: 0 <= i < done ==>
      Materialized(tiles, base, done)[i].meshId == Some(FillMesh(base, i)) &&
      Materialized(tiles, base, done)[i].borderMeshId == Some(BorderMesh(base, i))
  {
  }

  /** The parent relation after the first `n` cells' border meshes were parented to their fills. */
  function WithBorders(parent: map<MeshId, MeshId>, base: MeshId, n: nat): map<MeshId, MeshId>
  {
    if n == 0 then parent
    else WithBorders(parent, base, n - 1)[BorderMesh(base, n - 1) := FillMesh(base, n - 1)]
  }

  /** Each cell's border mesh is a child of its own fill mesh, and the relation on meshes older than
      the container is untouched. */
  lemma {:induction false} WithBordersParents(parent: map<MeshId, MeshId>, base: MeshId, n: nat)
    requires forall m :: m in parent ==> m < base
    ensures forall i :: 0 <= i < n ==>
      BorderMesh(base, i) in WithBorders(parent, base, n) &&
      WithBorders(parent, base, n)[BorderMesh(base, i)] == FillMesh(base, i)
    ensures forall m :: m in parent ==> m in WithBorders(parent, base, n) && WithBorders(parent, base, n)[m] == parent[m]
  {
    if n > 0 {
      WithBordersParents(parent, base, n - 1);
    }
  }

  /** Nothing but the new border meshes gains a parent. */
  lemma {:induction false} WithBordersKeys(parent: map<MeshId, MeshId>, base: MeshId, n: nat)
    ensures WithBorders(parent, base, n).Keys == parent.Keys + set i | 0 <= i < n :: BorderMesh(base, i)
  {
    if n > 0 {
      WithBordersKeys(parent, base, n - 1);
      var prev := WithBorders(parent, base, n - 1);
      assert WithBorders(parent, base, n).Keys == prev.Keys + {BorderMesh(base, n - 1)};
      assert (set i | 0 <= i < n :: BorderMesh(base, i)) == (set i | 0 <= i < n - 1 :: BorderMesh(base, i)) + {BorderMesh(base, n - 1)};
    }
  }
}
