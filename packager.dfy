/** The per-entry rules of the packager's directory walks: which files are skipped as hidden,
    where `copyDir` puts each entry, and the name and mode of each entry of the distribution
    zip. Paths are sequences of components; the walk itself, the copying and the zip writing
    are not modelled. */
module Packager {
  import opened Wrappers
  import opened Strs

  /** A file or directory the walk visits: its path relative to the walked root as components
      (empty for the root itself), whether it is a directory, and its permission bits. */
  datatype WalkEntry = WalkEntry(rel: seq<string>, isDir: bool, mode: bv32)

  /** `info.Name()`: the last component of the path, or the root's own name for the root. */
  function EntryName(rootName: string, e: WalkEntry): string {
    if e.rel == [] then rootName else e.rel[|e.rel| - 1]
  }

  /** ".DS_Store" and AppleDouble "._" files are skipped. */
  predicate Hidden(name: string) {
    name == ".DS_Store" || HasPrefix(name, "._")
  }

  /** What `copyDir` does for one entry. */
  datatype CopyAction = Skip | MakeDir(target: seq<string>, mode: bv32) | CopyFile(source: seq<string>, target: seq<string>)

  /** `copyDir`'s callback: hidden entries are skipped; otherwise the entry is re-created at
      `dst` joined with its path relative to `src`, as a directory or as a copied file. */
  function CopyDirAction(src: seq<string>, dst: seq<string>, rootName: string, e: WalkEntry): (a: CopyAction)
    ensures a.Skip? <==> Hidden(EntryName(rootName, e))
    ensures !a.Skip? ==> |a.target| >= |dst| && a.target[..|dst|] == dst && a.target[|dst|..] == e.rel
    ensures a.MakeDir? <==> !Hidden(EntryName(rootName, e)) && e.isDir
    ensures a.MakeDir? ==> a.mode == e.mode
    ensures a.CopyFile? ==> |a.source| >= |src| && a.source[..|src|] == src && a.source[|src|..] == e.rel
  {
    if Hidden(EntryName(rootName, e)) then Skip
    else if e.isDir then MakeDir(dst + e.rel, e.mode)
    else CopyFile(src + e.rel, dst + e.rel)
  }

  /** Components joined by "/", as `filepath.ToSlash` of `filepath.Join` writes them. */
  function Slashed(cs: seq<string>): string {
    if cs == [] then ""
    else if |cs| == 1 then cs[0]
    else cs[0] + "/" + Slashed(cs[1..])
  }

  /** A zip header: a directory entry, or a file entry with its permission bits. */
  datatype ZipHeader = DirHeader(name: string) | FileHeader(name: string, mode: bv32)

  const ExecBits: bv32 := 0x49
  const ExecMode: bv32 := 0x1ED

  /** `createZipArchive`'s callback: hidden entries and the root get no entry; every other entry
      is named `baseName/rel` with forward slashes, directories with a trailing "/"; a file with
      any executable bit is stored with mode 0755 and otherwise with its own mode. */
  function ZipEntry(baseName: string, rootName: string, e: WalkEntry): (r: Option<ZipHeader>)
    ensures r.None? <==> Hidden(EntryName(rootName, e)) || e.rel == []
    ensures r.Some? ==> HasPrefix(r.value.name, baseName + "/")
    ensures r.Some? ==> (r.value.DirHeader? <==> e.isDir)
    ensures r.Some? && r.value.DirHeader? ==> r.value.name == Slashed([baseName] + e.rel) + "/"
    ensures r.Some? && r.value.FileHeader? ==> r.value.name == Slashed([baseName] + e.rel)
    ensures r.Some? && r.value.FileHeader? ==>
      ((r.value.mode & ExecBits != 0) <==> (e.mode & ExecBits != 0))
      && (e.mode & ExecBits != 0 ==> r.value.mode == ExecMode)
      && (e.mode & ExecBits == 0 ==> r.value.mode == e.mode)
  {
    if Hidden(EntryName(rootName, e)) || e.rel == [] then None
    else
      var path := Slashed([baseName] + e.rel);
      assert ([baseName] + e.rel)[1..] == e.rel;
      assert path == baseName + "/" + Slashed(e.rel);
      assert path[..|baseName + "/"|] == baseName + "/";
      if e.isDir then
        assert (path + "/")[..|baseName + "/"|] == baseName + "/";
        Some(DirHeader(path + "/"))
      else if e.mode & ExecBits != 0 then Some(FileHeader(path, ExecMode))
      else Some(FileHeader(path, e.mode))
  }

  /** The zip headers of a whole walk, in walk order. */
  function ZipEntries(baseName: string, rootName: string, entries: seq<WalkEntry>): (r: seq<ZipHeader>)
    ensures |r| <= |entries|
  {
    if entries == [] then []
    else
      var last := ZipEntry(baseName, rootName, entries[|entries| - 1]);
      ZipEntries(baseName, rootName, entries[..|entries| - 1]) + (if last.Some? then [last.value] else [])
  }

  /** Every header of the archive comes from a visited entry that is neither hidden nor the root,
      and every such entry has a header. */
  lemma ZipEntriesMembers(baseName: string, rootName: string, entries: seq<WalkEntry>)
    ensures forall h :: h in ZipEntries(baseName, rootName, entries) <==>
      exists i :: 0 <= i < |entries| && ZipEntry(baseName, rootName, entries[i]) == Some(h)
  {
    forall h | h in ZipEntries(baseName, rootName, entries)
      ensures exists i :: 0 <= i < |entries| && ZipEntry(baseName, rootName, entries[i]) == Some(h)
    {
      ZipHeaderFrom(baseName, rootName, entries, h);
    }
    forall i | 0 <= i < |entries| && ZipEntry(baseName, rootName, entries[i]).Some?
      ensures ZipEntry(baseName, rootName, entries[i]).value in ZipEntries(baseName, rootName, entries)
    {
      ZipHeaderOf(baseName, rootName, entries, i);
    }
  }

  /** Every header comes from some entry. */
  lemma {:induction false} ZipHeaderFrom(baseName: string, rootName: string, entries: seq<WalkEntry>, h: ZipHeader)
    requires h in ZipEntries(baseName, rootName, entries)
    ensures exists i :: 0 <= i < |entries| && ZipEntry(baseName, rootName, entries[i]) == Some(h)
    decreases |entries|
  {
    var n := |entries|;
    var front := entries[..n - 1];
    var last := ZipEntry(baseName, rootName, entries[n - 1]);
    assert ZipEntries(baseName, rootName, entries)
        == ZipEntries(baseName, rootName, front) + (if last.Some? then [last.value] else []);
    if h in ZipEntries(baseName, rootName, front) {
      ZipHeaderFrom(baseName, rootName, front, h);
      var i :| 0 <= i < |front| && ZipEntry(baseName, rootName, front[i]) == Some(h);
      assert entries[i] == front[i];
    }
  }

  /** Every entry that gets a header has it in the archive. */
  lemma {:induction false} ZipHeaderOf(baseName: string, rootName: string, entries: seq<WalkEntry>, i: int)
    requires 0 <= i < |entries| && ZipEntry(baseName, rootName, entries[i]).Some?
    ensures ZipEntry(baseName, rootName, entries[i]).value in ZipEntries(baseName, rootName, entries)
    decreases |entries|
  {
    var n := |entries|;
    var front := entries[..n - 1];
    var last := ZipEntry(baseName, rootName, entries[n - 1]);
    assert ZipEntries(baseName, rootName, entries)
        == ZipEntries(baseName, rootName, front) + (if last.Some? then [last.value] else []);
    if i < n - 1 {
      assert entries[i] == front[i];
      ZipHeaderOf(baseName, rootName, front, i);
    }
  }

  /** The filter looks at one entry's own name only: the contents of a directory whose name
      starts with "._" are still archived under that directory's name. */
  lemma HiddenDirectoryContentsKept()
    ensures ZipEntry("game", "dist", WalkEntry(["._meta"], true, 0x1ED)).None?
    ensures ZipEntry("game", "dist", WalkEntry(["._meta", "a.txt"], false, 0x1A4))
         == Some(FileHeader("game/._meta/a.txt", 0x1A4))
  {
    assert HasPrefix("._meta", "._");
    assert !Hidden("a.txt") by {
      assert "a.txt"[..2] != "._" by {
        assert "a.txt"[..2][0] == 'a';
      }
    }
    assert Slashed(["game", "._meta", "a.txt"]) == "game/._meta/a.txt" by {
      assert ["game", "._meta", "a.txt"][1..] == ["._meta", "a.txt"];
      assert ["._meta", "a.txt"][1..] == ["a.txt"];
    }
    assert [ "game" ] + ["._meta", "a.txt"] == ["game", "._meta", "a.txt"];
  }

  /** `copyDir` likewise skips creating a "._" directory but still issues `copyFile` for the
      files inside it, with a target whose parent directory was never made; creating that file
      then fails, and the walk stops with that error. */
  lemma HiddenDirectoryContentsCopied()
    ensures CopyDirAction(["assets"], ["out"], "assets", WalkEntry(["._meta"], true, 0x1ED)).Skip?
    ensures CopyDirAction(["assets"], ["out"], "assets", WalkEntry(["._meta", "a.txt"], false, 0x1A4))
         == CopyFile(["assets", "._meta", "a.txt"], ["out", "._meta", "a.txt"])
  {
    assert HasPrefix("._meta", "._");
    assert !Hidden("a.txt") by {
      assert "a.txt"[..2][0] == 'a';
    }
  }
}
