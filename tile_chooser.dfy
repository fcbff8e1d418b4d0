/**
 * `pn::TileChooser`: the palette's registry of tile directories and its
 * ordered list of entries, one per `.png` file found in a registered
 * directory. The file system is an input (`is_dir` is membership in it,
 * `list_dir` is its listing), and `os::path::join` is a parameter.
 */
module TileChoosers {
  import opened Scenes

  /** `TileChooserEntry`. */
  datatype TileChooserEntry = TileChooserEntry(textureId: TextureId, meshId: MeshId, directory: string, absPath: string)

  /** Directory path -> the file names `list_dir` returns for it, in listing order. */
  type FileSystem = map<string, seq<string>>

  /** `str::ends_with(file, ".png")`, case-sensitive. */
  predicate IsPng(file: string)
  {
    |file| >= 4 && file[|file| - 4..] == ".png"
  }

  /** The listed file names that end in ".png", in listing order. */
  function PngFiles(files: seq<string>): seq<string>
  {
    if files == [] then []
    else (if IsPng(files[0]) then [files[0]] else []) + PngFiles(files[1..])
  }

  /** The `to_load` vector of `add_directory`: each ".png" name joined onto the directory. */
  function ToLoad(directory: string, files: seq<string>, join: (string, string) -> string): seq<string>
  {
    var pngs := PngFiles(files);
    seq(|pngs|, k requires 0 <= k < |pngs| => join(directory, pngs[k]))
  }

  /** The entries `add_directory` appends for `paths`: the k-th gets the k-th mesh and the k-th
      texture allocated by the loop. */
  function LoadedEntries(directory: string, paths: seq<string>, meshBase: MeshId, textureBase: TextureId)
    : seq<TileChooserEntry>
  {
    seq(|paths|, k requires 0 <= k < |paths| =>
      TileChooserEntry(textureBase + k, meshBase + k, directory, paths[k]))
  }

  /** What `erase(remove_if(..., directory == d), end)` leaves: the other entries, in order. */
  function WithoutDirectory(entries: seq<TileChooserEntry>, directory: string): seq<TileChooserEntry>
  {
    if entries == [] then []
    else (if entries[0].directory == directory then [] else [entries[0]]) + WithoutDirectory(entries[1..], directory)
  }

  /** Loading one more path appends exactly one entry, with the next mesh and texture ids. */
  lemma LoadedEntriesStep(directory: string, paths: seq<string>, path: string, meshBase: MeshId, textureBase: TextureId)
    ensures LoadedEntries(directory, paths + [path], meshBase, textureBase) ==
      LoadedEntries(directory, paths, meshBase, textureBase) +
      [TileChooserEntry(textureBase + |paths|, meshBase + |paths|, directory, path)]
  {
    assert forall k :: 0 <= k < |paths| ==> (paths + [path])[k] == paths[k];
  }

  /** Filtering a listing piecewise is filtering it whole. */
  lemma {:induction false} PngFilesAppend(a: seq<string>, b: seq<string>)
    ensures PngFiles(a + b) == PngFiles(a) + PngFiles(b)
  {
    if a == [] {
      assert a + b == b;
    } else {
      var head := if IsPng(a[0]) then [a[0]] else [];
      assert (a + b)[0] == a[0];
      assert (a + b)[1..] == a[1..] + b;
      assert PngFiles(a + b) == head + PngFiles(a[1..] + b);
      PngFilesAppend(a[1..], b);
      assert PngFiles(a) == head + PngFiles(a[1..]);
    }
  }

  /** A name is kept exactly when it is listed and ends in ".png". */
  lemma {:induction false} PngFilesMembers(files: seq<string>)
    ensures forall f :: f in PngFiles(files) <==> f in files && IsPng(f)
  {
    if files != [] {
      PngFilesMembers(files[1..]);
      assert forall f :: f in files <==> f == files[0] || f in files[1..];
    }
  }

  /** A listing with no ".png" name yields nothing. */
  lemma {:induction false} PngFilesNone(files: seq<string>)
    requires forall f :: f in files ==> !IsPng(f)
    ensures PngFiles(files) == []
  {
    if files != [] {
      assert files[0] in files;
      PngFilesNone(files[1..]);
    }
  }

  /** A listing of ".png" names only is kept whole, in order. */
  lemma {:induction false} PngFilesAll(files: seq<string>)
    requires forall f :: f in files ==> IsPng(f)
    ensures PngFiles(files) == files
  {
    if files != [] {
      assert files[0] in files;
      PngFilesAll(files[1..]);
      assert files == [files[0]] + files[1..];
    }
  }

  /** Each entry `add_directory` appends names a listed ".png" file of its directory, joined onto
      that directory, in listing order, with its own fresh mesh and texture. */
  lemma AddedEntriesDescribeFiles(directory: string, files: seq<string>, join: (string, string) -> string,
                                  meshBase: MeshId, textureBase: TextureId, k: nat)
    requires k < |PngFiles(files)|
    ensures var added := LoadedEntries(directory, ToLoad(directory, files, join), meshBase, textureBase);
      && |added| == |PngFiles(files)|
      && added[k].directory == directory
      && added[k].absPath == join(directory, PngFiles(files)[k])
      && PngFiles(files)[k] in files && IsPng(PngFiles(files)[k])
      && added[k].meshId == meshBase + k && added[k].textureId == textureBase + k
  {
    PngFilesMembers(files);
    assert PngFiles(files)[k] in PngFiles(files);
  }

  /** Removing piecewise is removing whole. */
  lemma {:induction false} WithoutDirectoryAppend(a: seq<TileChooserEntry>, b: seq<TileChooserEntry>, directory: string)
    ensures WithoutDirectory(a + b, directory) == WithoutDirectory(a, directory) + WithoutDirectory(b, directory)
  {
    if a == [] {
      assert a + b == b;
    } else {
      assert (a + b)[0] == a[0];
      assert (a + b)[1..] == a[1..] + b;
      WithoutDirectoryAppend(a[1..], b, directory);
    }
  }

  /** Exactly the entries of other directories survive. */
  lemma {:induction false} WithoutDirectoryMembers(entries: seq<TileChooserEntry>, directory: string)
    ensures forall e :: e in WithoutDirectory(entries, directory) <==> e in entries && e.directory != directory
  {
    if entries != [] {
      WithoutDirectoryMembers(entries[1..], directory);
      assert forall e :: e in entries <==> e == entries[0] || e in entries[1..];
    }
  }

  /** Entries of other directories keep their relative order: with none from `directory`, nothing moves. */
  lemma {:induction false} WithoutDirectoryKeepsOthers(entries: seq<TileChooserEntry>, directory: string)
    requires forall i :: 0 <= i < |entries| ==> entries[i].directory != directory
    ensures WithoutDirectory(entries, directory) == entries
  {
    if entries != [] {
      WithoutDirectoryKeepsOthers(entries[1..], directory);
    }
  }

  /** Every entry of `directory` is removed. */
  lemma {:induction false} WithoutDirectoryRemovesAll(entries: seq<TileChooserEntry>, directory: string)
    requires forall i :: 0 <= i < |entries| ==> entries[i].directory == directory
    ensures WithoutDirectory(entries, directory) == []
  {
    if entries != [] {
      WithoutDirectoryRemovesAll(entries[1..], directory);
    }
  }

  /** Removing a directory that was added to a chooser holding none of its entries restores the entry list. */
  lemma RemoveUndoesAdd(entries: seq<TileChooserEntry>, directory: string, paths: seq<string>, meshBase: MeshId, textureBase: TextureId)
    requires forall i :: 0 <= i < |entries| ==> entries[i].directory != directory
    ensures WithoutDirectory(entries + LoadedEntries(directory, paths, meshBase, textureBase), directory) == entries
  {
    var added := LoadedEntries(directory, paths, meshBase, textureBase);
    WithoutDirectoryAppend(entries, added, directory);
    WithoutDirectoryKeepsOthers(entries, directory);
    WithoutDirectoryRemovesAll(added, directory);
  }

  /** The first loop of `add_directory`: walks the listing and collects each ".png" name joined
      onto the directory. */
  method PngPaths(tileDirectory: string, listing: seq<string>, join: (string, string) -> string)
    returns (toLoad: seq<string>)
    ensures toLoad == ToLoad(tileDirectory, listing, join)
  {
    toLoad := [];
    var i := 0;
    while i < |listing|
      invariant i <= |listing|
      invariant toLoad == ToLoad(tileDirectory, listing[..i], join)
    {
      var file := listing[i];
      PngFilesAppend(listing[..i], [file]);
      assert listing[..i + 1] == listing[..i] + [file];
      if IsPng(file) {
        toLoad := toLoad + [join(tileDirectory, file)];
      }
      i := i + 1;
    }
    assert listing[..i] == listing;
  }

  class TileChooser {
    const scene: Scene
    /** `directories_`: a set, so no directory is recorded twice. */
    var directories: set<string>
    /** `entries_`, in the order they were added. */
    var entries: seq<TileChooserEntry>
    /** How many times `signal_locations_changed` has fired. */
    var locationsChanged: nat

    /** Every entry comes from a registered directory. */
    ghost predicate Valid()
      reads this
    {
      forall i :: 0 <= i < |entries| ==> entries[i].directory in directories
    }

    /** `TileChooser(scene)`: no directories, no entries. */
    constructor(scene: Scene)
      ensures Valid() && this.scene == scene
      ensures directories == {} && entries == [] && locationsChanged == 0
    {
      this.scene := scene;
      directories := {};
      entries := [];
      locationsChanged := 0;
    }

    /** `directories()`: a copy of the registered set. */
    function Directories(): set<string>
      reads this
    {
      directories
    }

    /** `add_directory(d)`: asserts `d` is a directory, registers it (again, if it already is),
        appends one entry per ".png" file of its listing in listing order, each with a fresh mesh
        and texture, and fires `signal_locations_changed`. */
    method AddDirectory(tileDirectory: string, fs: FileSystem, join: (string, string) -> string)
      requires Valid() && scene.Valid()
      requires tileDirectory in fs
      modifies this`directories, this`entries, this`locationsChanged, scene`nextMesh, scene`nextTexture
      ensures Valid() && scene.Valid()
      ensures directories == old(directories) + {tileDirectory}
      ensures entries == old(entries) + LoadedEntries(tileDirectory, ToLoad(tileDirectory, fs[tileDirectory], join),
                                                      old(scene.nextMesh), old(scene.nextTexture))
      ensures scene.nextMesh == old(scene.nextMesh) + |PngFiles(fs[tileDirectory])|
      ensures scene.nextTexture == old(scene.nextTexture) + |PngFiles(fs[tileDirectory])|
      ensures locationsChanged == old(locationsChanged) + 1
    {
      directories := directories + {tileDirectory};

      var toLoad := PngPaths(tileDirectory, fs[tileDirectory], join);

      ghost var entries0 := entries;
      var meshBase := scene.nextMesh;
      var textureBase := scene.nextTexture;
      var k := 0;
      while k < |toLoad|
        invariant k <= |toLoad|
        invariant scene.Valid()
        invariant directories == old(directories) + {tileDirectory}
        invariant scene.nextMesh == meshBase + k && scene.nextTexture == textureBase + k
        invariant entries == entries0 + LoadedEntries(tileDirectory, toLoad[..k], meshBase, textureBase)
        invariant locationsChanged == old(locationsChanged)
      {
        var absPath := toLoad[k];
        var meshId := scene.NewMesh();
        var textureId := scene.CreateTexture(absPath);
        var newEntry := TileChooserEntry(textureId, meshId, tileDirectory, absPath);
        LoadedEntriesStep(tileDirectory, toLoad[..k], absPath, meshBase, textureBase);
        assert toLoad[..k + 1] == toLoad[..k] + [absPath];
        entries := entries + [newEntry];
        k := k + 1;
      }
      assert toLoad[..k] == toLoad;

      locationsChanged := locationsChanged + 1;
    }

    /** `remove_directory(d)`: asserts `d` is registered, drops exactly the entries from `d`
        keeping the others in order (the remove_if/erase idiom), and unregisters `d`. No signal
        fires and no scene mesh is released. */
    method RemoveDirectory(tileDirectory: string)
      requires Valid()
      requires tileDirectory in directories
      modifies this`directories, this`entries
      ensures Valid()
      ensures entries == WithoutDirectory(old(entries), tileDirectory)
      ensures directories == old(directories) - {tileDirectory}
    {
      var kept: seq<TileChooserEntry> := [];
      var i := 0;
      while i < |entries|
        modifies {}
        invariant i <= |entries|
        invariant kept == WithoutDirectory(entries[..i], tileDirectory)
      {
        WithoutDirectoryAppend(entries[..i], [entries[i]], tileDirectory);
        assert entries[..i + 1] == entries[..i] + [entries[i]];
        if entries[i].directory != tileDirectory {
          kept := kept + [entries[i]];
        }
        i := i + 1;
      }
      assert entries[..i] == entries;
      WithoutDirectoryMembers(entries, tileDirectory);
      entries := kept;
      directories := directories - {tileDirectory};
      assert forall j :: 0 <= j < |entries| ==> entries[j] in kept;
    }
  }
}
