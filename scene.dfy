/**
 * The part of the kglt scene graph the editor's data model relies on:
 * handing out fresh mesh and texture identifiers, and the parent relation
 * between meshes. Geometry, transforms, texture upload and rendering are
 * not modelled.
 */
module Scenes {

  type MeshId = nat
  type TextureId = nat

  class Scene {
    /** The next mesh id `new_mesh` hands out; every id below it is allocated. */
    var nextMesh: MeshId
    /** The next texture id `create_texture_from_file` hands out. */
    var nextTexture: TextureId
    /** child mesh -> parent mesh, as set by `Mesh::set_parent`. */
    var parent: map<MeshId, MeshId>

    /** The parent relation only mentions allocated meshes. */
    ghost predicate Valid()
      reads this
    {
      forall m :: m in parent ==> m < nextMesh && parent[m] < nextMesh
    }

    /** `Scene::new_mesh`: a mesh id never handed out before. */
    method NewMesh() returns (id: MeshId)
      requires Valid()
      modifies this`nextMesh
      ensures Valid()
      ensures id == old(nextMesh) && nextMesh == id + 1
    {
      id := nextMesh;
      nextMesh := nextMesh + 1;
    }

    /** `kglt::create_texture_from_file`: the loaded image is reduced to a fresh, opaque id. */
    method CreateTexture(path: string) returns (id: TextureId)
      modifies this`nextTexture
      ensures id == old(nextTexture) && nextTexture == id + 1
    {
      id := nextTexture;
      nextTexture := nextTexture + 1;
    }

    /** `Mesh::set_parent`: `child` now moves with `p`. */
    method SetParent(child: MeshId, p: MeshId)
      requires Valid() && child < nextMesh && p < nextMesh
      modifies this`parent
      ensures Valid()
      ensures parent == old(parent)[child := p]
    {
      parent := parent[child := p];
    }
  }
}
