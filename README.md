# Platformation level model in Dafny

This project models the data core of the Platformation 2D platform-level editor:

- a **level** (`pn::Level`): a named 40 × 10 grid holding an ordered stack of layers, an active-layer index, and a per-texture reference count;
- a **layer** (`pn::Layer`): a row-major vector of tile instances, which it materialises in the scene as one fill mesh and one parented border mesh per cell;
- the **tile chooser** (`pn::TileChooser`): a registry of tile directories, with one palette entry per `.png` file found in each directory;
- the **PFN serializer** (`PFNSerializer::save_to`): builds the JSON document that records a level.

The kglt scene is modelled only as far as the editor relies on it (`scene.dfy`):

- `new_mesh` and `create_texture_from_file` hand out fresh identifiers;
- `Mesh::set_parent` records a child → parent relation.

The file system is an input. `is_dir` is membership in a map from directory to listing, and `list_dir` is that listing. `os::path::join` is a function parameter.

Files:

- `basics.dfy`: `Option` and the `uint32_t` range.
- `scene.dfy`: the `Scene` allocator class.
- `refcount.dfy`: the texture reference-count table as pure functions, with lemmas.
- `tiles.dfy`: `TileInstance`, resizing, row-major indexing, and the mesh layout of a materialised layer.
- `levels.dfy`: the `Layer` and `Level` classes. Their methods update fields in place.
- `tile_chooser.dfy`: the `TileChooser` class, with the `.png` filter and the directory-removal filter.
- `string_order.dfy`: `std::string` ordering and the ascending listing of a `std::set<std::string>`.
- `pfn_serializer.dfy`: the JSON tree `save_to` builds, a reference reader, the round-trip lemma, and `SaveTo` with its loops.

## Model

| member | source | states |
|---|---|---|
| TextureRefCounts.IncreaseAddsOne | platformation/level.h:40-46 | Increasing adds one to the path's count (starting from 0 when the path is absent) as long as the count is below 2^32-1; no other path's count changes |
| TextureRefCounts.IncreaseWrapsAtLimit | platformation/level.h:41-42 | At count 2^32-1 the `uint32_t` increment wraps to 0, and the path stays in the table |
| TextureRefCounts.DecreaseSubtractsOne | platformation/level.h:48-54 | Decreasing a present path subtracts one; at count 1 the path leaves the table; other paths are unchanged |
| TextureRefCounts.DecreaseKeepsNoZeroCounts | platformation/level.h:50-53 | If no entry is zero before a decrease, none is zero after it (erase-at-zero) |
| TextureRefCounts.IncreaseKeepsNoZeroCounts | platformation/level.h:40-46 | An increase below the wrap point keeps every stored count non-zero |
| TextureRefCounts.ActiveTexturesAreCounted | platformation/level.h:56-58 | The active textures are exactly the paths with a stored count |
| TextureRefCounts.IncreasedNCount | platformation/level.h:40-46 | n increases of a path, starting from count c, give count c+n when c+n < 2^32 |
| TextureRefCounts.DecreaseUndoesIncrease | platformation/level.h:40-54 | A decrease after an increase restores the table, provided the count was below the wrap point |
| TextureRefCounts.IncreaseThenDecrease | platformation/level.h:40-54 | n increases followed by n+k decreases act like k decreases on the original table (below the wrap point) |
| TextureRefCounts.BalancedUseLeavesTextureInactive | platformation/level.h:40-58 | From a table without the path, n uses followed by n releases restore the table; the texture is then inactive, and one more release fails the presence assertion |
| Levels.Level.IncreaseTextureRefcount | platformation/level.h:40-46 | The table becomes `Increased` of the old table: insert with count 1, or increment with `uint32_t` wrap |
| Levels.Level.DecreaseTextureRefcount | platformation/level.h:48-54 | Requires the path to be present (the source asserts it); the table becomes `Decreased` of the old table |
| Levels.Level.SetActiveLayer | platformation/level.h:23-24 | `active_layer()` returns the value set, with no bounds check |
| Levels.Level.SetName | platformation/level.h:25-26 | `name()` returns the value set |
| Levels.Level.constructor | platformation/level.cpp:8-16 | A new level is "Untitled", 40 × 10, with active layer 0 and no textures in use; it has exactly one fresh layer with z-index 1 and all cells unassigned (-1); that layer's container is the scene's next mesh id, its cells are `Materialized` with their own fill and border meshes, the scene hands out exactly 2·W·H + 1 ids, and every border mesh is parented to its fill mesh; the layers-changed signal has fired once |
| Levels.Level.LayerAt | platformation/level.cpp:30-32 | Defined only for `idx < layer_count()` (`vector::at`); returns a layer of the level |
| Levels.Level.AddLayer | platformation/level.cpp:34-42 | Appends one fresh "Untitled" layer, keeping the earlier layers, with z-index equal to the new layer count; its cells are materialised as in `AddToScene` over a grid-sized vector; name and active layer are unchanged; the signal fires once; the level invariant is kept |
| Levels.Level.RemoveLayer | platformation/level.cpp:44-55 | Removes exactly layer `idx`, keeping the others in order; z-indices become 0..count-1; tiles are untouched; the active layer becomes 0; the signal fires once; the level invariant is kept |
| Levels.Level.RenumberLayers | platformation/level.cpp:48-51 | After the rebuild loop, layer i has z-index i, and the level invariant is kept |
| Tiles.DefaultTile | platformation/layer.h:14-23 | A default tile instance has image id -1 and no meshes |
| Tiles.Resized | platformation/layer.cpp:17-20 | `vector::resize(n, TileInstance())`: length n, the surviving prefix is kept, new cells are defaults |
| Tiles.ResizedFromEmpty | platformation/layer.cpp:7-20 | Sizing a new layer gives n unassigned cells |
| Tiles.CellIndexInGrid | platformation/layer.cpp:25-27 | For x < W and z < H, the cell index `z*W + x` is below W*H |
| Tiles.CellIndexInjective | platformation/layer.cpp:25-27 | Distinct grid positions map to distinct cell indices |
| Tiles.CellIndexCovers | platformation/layer.cpp:25-27 | Every index below W*H is the cell index of some in-grid position |
| Tiles.MeshesDistinct | platformation/layer.cpp:28-30 | Every fill and border mesh handed out during materialisation is distinct from every other one and from the container mesh |
| Tiles.MaterializedCells | platformation/layer.cpp:27-30 | After the first `done` cells are visited: image ids are untouched, each visited cell holds its own fill and border mesh, and later cells are unchanged |
| Tiles.WithBordersParents | platformation/layer.cpp:38 | Each visited cell's border mesh is parented to its fill mesh; the relation on meshes older than the container survives |
| Tiles.WithBordersKeys | platformation/layer.cpp:38 | The only meshes that gain a parent are the border meshes of visited cells |
| Levels.Layer.SetZindex | platformation/layer.h:35-36 | `zindex()` returns the value set; only the z-index changes |
| Levels.Layer.constructor | platformation/layer.cpp:7-15 | A new layer belongs to its level, is named "Untitled", has container 0, and has `uint32_t`(W*H) default cells |
| Levels.Layer.Resize | platformation/layer.cpp:17-20 | The tile vector becomes `Resized` to the `uint32_t` product of the new width and height |
| Levels.Layer.AddToScene | platformation/layer.cpp:22-44 | The container mesh is the next id; after the z/x walk every cell has its own fill and border meshes (`Materialized`); the scene hands out exactly 2·W·H more ids; every border is parented to its fill; the scene invariant is kept |
| Levels.Layer.MaterializeRow | platformation/layer.cpp:26-42 | One row of the walk advances the materialised prefix, the mesh counter and the parent relation by one row's width |
| Levels.Layer.MaterializeCell | platformation/layer.cpp:27-38 | One cell gets a fresh fill mesh and then a fresh border mesh, and the border's parent is set to the fill |
| Levels.Layer.RemoveFromScene | platformation/layer.cpp:46-48 | Changes neither the layer nor the scene |
| TileChoosers.TileChooser.constructor | platformation/tile_chooser.cpp:10-13 | A new chooser has no directories and no entries, and satisfies its invariant |
| TileChoosers.TileChooser.AddDirectory | platformation/tile_chooser.cpp:15-53 | Requires the path to be a directory (the source asserts it); registers it; appends one entry per `.png` listing entry, in listing order, each holding its joined path and a fresh mesh and texture id; the scene counters advance by that many; the locations-changed signal fires once; the invariant is kept |
| TileChoosers.TileChooser.RemoveDirectory | platformation/tile_chooser.cpp:55-67 | Requires the directory to be registered (the source asserts it); entries become `WithoutDirectory` of the old ones; the directory is unregistered; the invariant is kept |
| TileChoosers.PngPaths | platformation/tile_chooser.cpp:22-30 | The first loop of `add_directory` collects exactly `ToLoad` of the listing |
| TileChoosers.LoadedEntriesStep | platformation/tile_chooser.cpp:34-46 | Loading one more path appends exactly one entry, carrying the next mesh and texture ids |
| TileChoosers.PngFilesAppend | platformation/tile_chooser.cpp:25-30 | Filtering a listing piecewise equals filtering it whole |
| TileChoosers.PngFilesMembers | platformation/tile_chooser.cpp:25-30 | The filter keeps exactly the listed names ending in ".png" |
| TileChoosers.PngFilesNone | platformation/tile_chooser.cpp:25-30 | A listing without `.png` names yields no entries |
| TileChoosers.PngFilesAll | platformation/tile_chooser.cpp:25-30 | A listing of only `.png` names is kept whole, in order |
| TileChoosers.AddedEntriesDescribeFiles | platformation/tile_chooser.cpp:25-46 | Each appended entry names a listed `.png` file of its directory, joined onto that directory, with its own mesh and texture |
| TileChoosers.WithoutDirectoryAppend | platformation/tile_chooser.cpp:59-63 | Removing from a concatenation removes from each part |
| TileChoosers.WithoutDirectoryMembers | platformation/tile_chooser.cpp:59-63 | An entry survives exactly when it was present and belongs to another directory |
| TileChoosers.WithoutDirectoryKeepsOthers | platformation/tile_chooser.cpp:59-63 | Entries from other directories keep their order: with no entry of the directory, nothing changes |
| TileChoosers.WithoutDirectoryRemovesAll | platformation/tile_chooser.cpp:59-63 | Every entry of the removed directory is dropped |
| TileChoosers.RemoveUndoesAdd | platformation/tile_chooser.cpp:15-67 | Removing a directory that was just added to a chooser holding none of its entries restores the entry list |
| StringOrder.BelowTotal | platformation/serializers/pfn_serializer.cpp:43 | The `std::string` order is total |
| StringOrder.BelowAntisymmetric | platformation/serializers/pfn_serializer.cpp:43 | The `std::string` order is antisymmetric |
| StringOrder.BelowTransitive | platformation/serializers/pfn_serializer.cpp:43 | The `std::string` order is transitive |
| StringOrder.SortedSeq | platformation/serializers/pfn_serializer.cpp:43-45 | The ascending listing of a set is strictly sorted, has one element per member, and holds exactly the members |
| StringOrder.SortedUnique | platformation/serializers/pfn_serializer.cpp:43-45 | Two strictly sorted sequences with the same members are equal, so the listing order is determined |
| PfnSerializers.PfnSerializer.SaveTo | platformation/serializers/pfn_serializer.cpp:32-69 | From a valid level, reports success and builds exactly `Encode` of the level's state |
| PfnSerializers.TextureList | platformation/serializers/pfn_serializer.cpp:43-45 | The "textures" list holds the active textures as strings, in ascending order |
| PfnSerializers.TileList | platformation/serializers/pfn_serializer.cpp:54-60 | The "tiles" list has one `{position: j, texture: image id}` node for each j < total, in order |
| PfnSerializers.ReadEncoded | platformation/serializers/pfn_serializer.cpp:32-61 | A reader recovers from the document the level's name, width, height, its active textures in ascending order, and each layer's name and the image ids of its first W·H cells, in layer order |
| PfnSerializers.EncodedTexturesAreActive | platformation/serializers/pfn_serializer.cpp:43-45 | The recovered texture list is strictly ascending and names exactly the active textures |
| PfnSerializers.FreshLevelEncoding | platformation/serializers/pfn_serializer.cpp:32-61 | A 40 × 10 level with no textures in use and one layer whose 400 cells all have image id -1 (meshes or not) is recorded as 400 tiles, all with texture -1, and an empty texture list |
| PfnSerializers.SaveNewLevel | platformation/level.cpp:8-16 | Saving the level the constructor has just built (its one layer already materialised in the scene) gives an "Untitled" 40 × 10 document with no textures and one "Untitled" layer of 400 tiles, all with texture -1 |
| PfnSerializers.ReadStringsEncoded | platformation/serializers/pfn_serializer.cpp:43-45 | The string list reads back as the original strings |
| PfnSerializers.ReadTilesEncoded | platformation/serializers/pfn_serializer.cpp:54-60 | Encoded cells read back as their image ids, with positions checked |
| PfnSerializers.ReadLayerEncoded | platformation/serializers/pfn_serializer.cpp:48-60 | One encoded layer reads back as its name and the image ids of its first W·H cells |
| PfnSerializers.ReadLayersEncoded | platformation/serializers/pfn_serializer.cpp:47-61 | Encoded layers read back as their names and image ids, in order |
| PfnSerializers.ReadDocument | platformation/serializers/pfn_serializer.cpp:33-61 | A reader recovers every part of the assembled tree: metadata, the texture list as given, and the layers |

## Left out

- `PFNSerializer::load_from`: the source has no implementation (it asserts). `ReadLevel` is a reference reader used only to state what the document carries; it is not a model of `load_from`.
- `json::dumps`, the `std::ofstream` write and the file name: output is the JSON tree, not its text. `SaveTo` returns the tree, and `saved` is always true, as in the source.
- JSON key order inside dictionaries: dictionaries are maps, so the order in which `insert_value` adds keys is not modelled.
- Mesh geometry (`rectangle`, `rectangle_outline`), `move_to` positions (floating point), `apply_texture` and texture upload: the scene reduces to identifier allocation and the parent relation.
- The tile chooser's progress signal `signal_tile_loaded_`: a floating-point percentage. It is also not declared in `tile_chooser.h`.
- Logging (`L_INFO`) and the `signal_layers_changed` / `signal_locations_changed` subscribers. Each signal is counted as a number of firings.
- Levels.Level.AddLayer, Levels.Level.RenumberLayers: the `uint32_t` layer count in `add_layer` and the `uint32_t` loop index in the rebuild loop of `remove_layer` are passed to `set_zindex(int32_t)` without narrowing. Above 2^31 layers the source's z-index would be negative.
- Levels.Layer.AddToScene: the `uint32_t` index `z*W + x` is taken unbounded. Inside the 40 × 10 grid the level fixes, it never wraps.
- Levels.Level.RemoveLayer: neither the removed layer's meshes nor the scene change, because `remove_from_scene` has an empty body. Meshes are never released.
- TileChoosers.TileChooser.RemoveDirectory: the removed entries' meshes and textures are not released, as in the source.
- Plain getters (`name`, `zindex`, `layer_count`, `active_layer`, `directories`, `active_textures`): these are functions over the fields and carry no contract of their own. `horizontal_tile_count` and `vertical_tile_count` are read directly as the constant fields `horizontalTileCount` and `verticalTileCount`.
- `Layer::tile_at`, called at `pfn_serializer.cpp:58`, is declared in no header. `TileAt` takes it to return `tiles_[j]` and requires `j < |tiles|`; `save_to` only calls it with `j < W*H`, which is the layer's cell count.
- Palette stepping, a visible tile window and pick routing: `TileChooser` has no selection state, and picking ends at `Canvas::mouse_button_pressed_cb` (`canvas.cpp`), which only emits `signal_mesh_selected_`. `MainWindow` connects no handler to that signal, so there is nothing to model.
- Strings are Dafny `string`s, sequences of Unicode characters, where `std::string` holds bytes. UTF-8 byte order equals code-point order, so the ascending texture list and the `.png` suffix test agree for valid UTF-8 names. File names that are not valid UTF-8 cannot be expressed.
- The gettext lookup `_("Untitled")` in the `Level` and `Layer` constructors is taken as the identity. No text domain is bound, so the lookup returns the untranslated string.

Behaviour of the code worth noting:

- `add_layer` gives only the new layer a z-index, equal to the new layer count. Earlier layers keep theirs. After `remove_layer` the z-indices are the array positions 0..count-1. A later `add_layer` leaves a gap (e.g. [0, 1, 3]).
- `add_layer` does not change the active layer.
- `add_directory` accepts an already-registered directory again and appends its entries again.
- `remove_directory` fires no signal.
- The tile chooser's invariant is that every entry's directory is registered. The reverse does not hold: a directory with no `.png` files is registered with no entries.
- The format comment at the top of `pfn_serializer.cpp` describes a flat list of texture indexes. The code emits one `{position, texture}` dictionary per cell holding the raw image id, plus a "name" in "level" and in each layer. The model follows the code.
