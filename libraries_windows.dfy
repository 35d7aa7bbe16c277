/** The SDL DLLs bundled into Windows packages: which DLLs the configured versions ask for, the
    release URL of each archive, the per-version cache directory, the file-name to cached-path
    map, and the choice of the archive entry to extract. The cache directory, the SHA-256 digest,
    whether a DLL is cached, the download and the file writes are inputs. */
module LibrariesWindows {
  import opened Wrappers
  import opened Strs

  /** `DLLInfo`. */
  datatype DLLInfo = DLLInfo(name: string, version: string, fileName: string, archiveName: string, baseURL: string)

  /** The naming convention of the SDL Windows release archives. */
  predicate WellFormed(d: DLLInfo) {
    && d.version != ""
    && d.fileName == d.name + ".dll"
    && d.archiveName == d.name + "-" + d.version + "-win32-x64.zip"
  }

  /** The entry of one SDL library, released from the libsdl-org repository `repo`. */
  function SDLEntry(name: string, repo: string, version: string): (d: DLLInfo)
    requires version != ""
    ensures WellFormed(d) && d.name == name && d.version == version
    ensures d.baseURL == "https://github.com/libsdl-org/" + repo + "/releases/download"
  {
    DLLInfo(name, version, name + ".dll", name + "-" + version + "-win32-x64.zip",
            "https://github.com/libsdl-org/" + repo + "/releases/download")
  }

  /** The DLLs the configured versions ask for: one per non-empty version, in the order SDL3,
      SDL3_ttf, SDL3_image. */
  function Requested(sdlVersion: string, sdlTTFVersion: string, sdlImageVersion: string): seq<DLLInfo> {
    (if sdlVersion != "" then [SDLEntry("SDL3", "SDL", sdlVersion)] else [])
    + (if sdlTTFVersion != "" then [SDLEntry("SDL3_ttf", "SDL_ttf", sdlTTFVersion)] else [])
    + (if sdlImageVersion != "" then [SDLEntry("SDL3_image", "SDL_image", sdlImageVersion)] else [])
  }

  /** `GetSDLDLLs`. */
  method GetSDLDLLs(sdlVersion: string, sdlTTFVersion: string, sdlImageVersion: string)
    returns (dlls: seq<DLLInfo>)
    ensures dlls == Requested(sdlVersion, sdlTTFVersion, sdlImageVersion)
  {
    dlls := [];
    if sdlVersion != "" {
      dlls := dlls + [SDLEntry("SDL3", "SDL", sdlVersion)];
    }
    if sdlTTFVersion != "" {
      dlls := dlls + [SDLEntry("SDL3_ttf", "SDL_ttf", sdlTTFVersion)];
    }
    if sdlImageVersion != "" {
      dlls := dlls + [SDLEntry("SDL3_image", "SDL_image", sdlImageVersion)];
    }
  }

  /** Every requested DLL follows the naming convention, and no two share a file name. */
  lemma RequestedWellFormed(sdlVersion: string, sdlTTFVersion: string, sdlImageVersion: string)
    ensures var dlls := Requested(sdlVersion, sdlTTFVersion, sdlImageVersion);
      && |dlls| <= 3
      && (forall i :: 0 <= i < |dlls| ==> WellFormed(dlls[i]))
      && (forall i, j :: 0 <= i < j < |dlls| ==> dlls[i].fileName != dlls[j].fileName)
  {
    var dlls := Requested(sdlVersion, sdlTTFVersion, sdlImageVersion);
    assert forall i :: 0 <= i < |dlls| ==> dlls[i].name in {"SDL3", "SDL3_ttf", "SDL3_image"};
    assert forall i, j :: 0 <= i < j < |dlls| ==> |dlls[i].name| < |dlls[j].name|;
  }

  /** The DLL of each library is requested exactly when its version is non-empty. */
  lemma RequestedPresence(sdlVersion: string, sdlTTFVersion: string, sdlImageVersion: string)
    ensures (exists i :: 0 <= i < |Requested(sdlVersion, sdlTTFVersion, sdlImageVersion)|
               && Requested(sdlVersion, sdlTTFVersion, sdlImageVersion)[i].name == "SDL3") <==> sdlVersion != ""
    ensures (exists i :: 0 <= i < |Requested(sdlVersion, sdlTTFVersion, sdlImageVersion)|
               && Requested(sdlVersion, sdlTTFVersion, sdlImageVersion)[i].name == "SDL3_ttf") <==> sdlTTFVersion != ""
    ensures (exists i :: 0 <= i < |Requested(sdlVersion, sdlTTFVersion, sdlImageVersion)|
               && Requested(sdlVersion, sdlTTFVersion, sdlImageVersion)[i].name == "SDL3_image") <==> sdlImageVersion != ""
  {
    var dlls := Requested(sdlVersion, sdlTTFVersion, sdlImageVersion);
    var ttfAt := if sdlVersion != "" then 1 else 0;
    var imageAt := ttfAt + if sdlTTFVersion != "" then 1 else 0;
    assert |dlls| == imageAt + if sdlImageVersion != "" then 1 else 0;
    if sdlVersion != "" {
      assert dlls[0].name == "SDL3";
    }
    if sdlTTFVersion != "" {
      assert dlls[ttfAt].name == "SDL3_ttf";
    }
    if sdlImageVersion != "" {
      assert dlls[imageAt].name == "SDL3_image";
    }
    assert forall i :: 0 <= i < |dlls| ==>
      (dlls[i].name == "SDL3" ==> sdlVersion != "") && (dlls[i].name == "SDL3_ttf" ==> sdlTTFVersion != "")
      && (dlls[i].name == "SDL3_image" ==> sdlImageVersion != "");
  }

  /** The release URL of the archive: the base URL, the release tag and the archive name. */
  function DownloadURL(info: DLLInfo): (r: string)
    ensures HasPrefix(r, info.baseURL + "/release-" + info.version + "/")
    ensures HasSuffix(r, "/" + info.archiveName)
    ensures |r| == |info.baseURL| + |"/release-"| + |info.version| + 1 + |info.archiveName|
  {
    var tagged := info.baseURL + "/release-" + info.version;
    SuffixOfConcat(tagged, "/" + info.archiveName);
    assert (tagged + "/" + info.archiveName)[..|tagged + "/"|] == tagged + "/";
    tagged + "/" + info.archiveName
  }

  /** The URL of a well-formed entry names the release tag and the versioned archive, as in
      ".../SDL/releases/download/release-3.2.28/SDL3-3.2.28-win32-x64.zip". */
  lemma SDLDownloadURL(name: string, repo: string, version: string)
    requires version != ""
    ensures DownloadURL(SDLEntry(name, repo, version)) ==
      "https://github.com/libsdl-org/" + repo + "/releases/download/release-" + version + "/"
      + name + "-" + version + "-win32-x64.zip"
  {
    var d := SDLEntry(name, repo, version);
    var r := DownloadURL(d);
    var expected := "https://github.com/libsdl-org/" + repo + "/releases/download/release-" + version + "/"
      + name + "-" + version + "-win32-x64.zip";
    var head := d.baseURL + "/release-" + version + "/";
    assert |r| == |expected|;
    assert r[..|head|] == head == expected[..|head|];
    assert r[|head|..] == d.archiveName == expected[|head|..];
    assert r == r[..|head|] + r[|head|..];
    assert expected == expected[..|head|] + expected[|head|..];
  }

  /** `getVersionedCacheDir`: a directory of the cache named after the library, its version and
      `digest`, the hexadecimal first eight bytes of the SHA-256 of "name-version". */
  function VersionedCacheDir(cacheDir: string, name: string, version: string, digest: string -> string): (r: string)
    ensures cacheDir != "" ==> HasPrefix(r, cacheDir + "/")
    ensures HasSuffix(r, name + "-" + version + "-" + digest(name + "-" + version))
  {
    var leaf := name + "-" + version + "-" + digest(name + "-" + version);
    SuffixOfConcat(cacheDir + "/", leaf);
    assert (cacheDir + "/" + leaf)[..|cacheDir + "/"|] == cacheDir + "/";
    JoinPath(cacheDir, leaf)
  }

  /** The cached path of one DLL. */
  function CachedPath(cacheDir: string, dll: DLLInfo, digest: string -> string): string {
    JoinPath(VersionedCacheDir(cacheDir, dll.name, dll.version, digest), dll.fileName)
  }

  /** The map `EnsureDLLsDownloaded` builds: file name to cached path, a later entry of the same
      file name replacing an earlier one. */
  function PathsOf(dlls: seq<DLLInfo>, cacheDir: string, digest: string -> string): (m: map<string, string>)
  {
    if dlls == [] then map[]
    else
      var d := dlls[|dlls| - 1];
      PathsOf(dlls[..|dlls| - 1], cacheDir, digest)[d.fileName := CachedPath(cacheDir, d, digest)]
  }

  /** The keys are exactly the file names. */
  lemma PathsOfKeys(dlls: seq<DLLInfo>, cacheDir: string, digest: string -> string)
    ensures forall k :: k in PathsOf(dlls, cacheDir, digest) <==> exists i :: 0 <= i < |dlls| && dlls[i].fileName == k
  {
    forall k | k in PathsOf(dlls, cacheDir, digest)
      ensures exists i :: 0 <= i < |dlls| && dlls[i].fileName == k
    {
      PathsKeyFrom(dlls, cacheDir, digest, k);
    }
    forall i | 0 <= i < |dlls|
      ensures dlls[i].fileName in PathsOf(dlls, cacheDir, digest)
    {
      PathsKeyOf(dlls, cacheDir, digest, i);
    }
  }

  /** Every key is the file name of some DLL. */
  lemma {:induction false} PathsKeyFrom(dlls: seq<DLLInfo>, cacheDir: string, digest: string -> string, k: string)
    requires k in PathsOf(dlls, cacheDir, digest)
    ensures exists i :: 0 <= i < |dlls| && dlls[i].fileName == k
    decreases |dlls|
  {
    var n := |dlls|;
    var front := dlls[..n - 1];
    var d := dlls[n - 1];
    if k != d.fileName {
      PathsKeyFrom(front, cacheDir, digest, k);
      var i :| 0 <= i < |front| && front[i].fileName == k;
      assert dlls[i] == front[i];
    }
  }

  /** Every DLL's file name is a key. */
  lemma {:induction false} PathsKeyOf(dlls: seq<DLLInfo>, cacheDir: string, digest: string -> string, i: int)
    requires 0 <= i < |dlls|
    ensures dlls[i].fileName in PathsOf(dlls, cacheDir, digest)
    decreases |dlls|
  {
    var n := |dlls|;
    var front := dlls[..n - 1];
    if i < n - 1 {
      assert dlls[i] == front[i];
      PathsKeyOf(front, cacheDir, digest, i);
    }
  }

  /** With distinct file names, each file name maps to its own DLL's cached path. */
  lemma {:induction false} PathsOfDistinct(dlls: seq<DLLInfo>, cacheDir: string, digest: string -> string, i: int)
    requires forall a, b :: 0 <= a < b < |dlls| ==> dlls[a].fileName != dlls[b].fileName
    requires 0 <= i < |dlls|
    ensures dlls[i].fileName in PathsOf(dlls, cacheDir, digest)
    ensures PathsOf(dlls, cacheDir, digest)[dlls[i].fileName] == CachedPath(cacheDir, dlls[i], digest)
    decreases |dlls|
  {
    if i < |dlls| - 1 {
      var front := dlls[..|dlls| - 1];
      assert front[i] == dlls[i];
      PathsOfDistinct(front, cacheDir, digest, i);
    }
  }

  /** How the file system and network answer for the DLL cache. */
  datatype Cache = Cache(
    cacheDir: Result<string>,
    digest: string -> string,
    cached: string -> bool,
    fetch: (DLLInfo, string) -> Option<string>)

  /** A DLL that is not cached and whose download and extraction fail. */
  predicate Fails(cache: Cache, dir: string, dll: DLLInfo) {
    !cache.cached(CachedPath(dir, dll, cache.digest)) && cache.fetch(dll, dir).Some?
  }

  /** `EnsureDLLsDownloaded`: no DLLs gives the empty map without consulting the cache; otherwise
      every DLL is taken from the cache or downloaded, in order, and the first failed download
      is the error. */
  method EnsureDLLsDownloaded(dlls: seq<DLLInfo>, cache: Cache) returns (r: Result<map<string, string>>)
    ensures dlls == [] ==> r == Ok(map[])
    ensures dlls != [] && cache.cacheDir.Err? ==> r == Err(cache.cacheDir.msg)
    ensures dlls != [] && cache.cacheDir.Ok? ==> r == Downloaded(dlls, cache, cache.cacheDir.value)
  {
    if |dlls| == 0 {
      return Ok(map[]);
    }
    if cache.cacheDir.Err? {
      return Err(cache.cacheDir.msg);
    }
    var cacheDir := cache.cacheDir.value;
    var dllPaths: map<string, string> := map[];
    for i := 0 to |dlls|
      invariant dllPaths == PathsOf(dlls[..i], cacheDir, cache.digest)
      invariant Downloaded(dlls, cache, cacheDir) == Continue(dlls, i, cache, cacheDir, dllPaths)
    {
      assert dlls[..i + 1][..i] == dlls[..i];
      var dllPath := CachedPath(cacheDir, dlls[i], cache.digest);
      if cache.cached(dllPath) {
        dllPaths := dllPaths[dlls[i].fileName := dllPath];
        continue;
      }
      var failure := cache.fetch(dlls[i], cacheDir);
      if failure.Some? {
        return Err("downloading " + dlls[i].name + ": " + failure.value);
      }
      dllPaths := dllPaths[dlls[i].fileName := dllPath];
    }
    assert dlls[..|dlls|] == dlls;
    return Ok(dllPaths);
  }

  /** The outcome of the download loop from DLL `i` on, with `paths` collected so far. */
  function Continue(dlls: seq<DLLInfo>, i: nat, cache: Cache, dir: string, paths: map<string, string>): Result<map<string, string>>
    requires i <= |dlls|
    decreases |dlls| - i
  {
    if i == |dlls| then Ok(paths)
    else if Fails(cache, dir, dlls[i]) then
      Err("downloading " + dlls[i].name + ": " + cache.fetch(dlls[i], dir).value)
    else Continue(dlls, i + 1, cache, dir, paths[dlls[i].fileName := CachedPath(dir, dlls[i], cache.digest)])
  }

  /** The outcome of taking every DLL from the cache or downloading it, in order. */
  function Downloaded(dlls: seq<DLLInfo>, cache: Cache, dir: string): Result<map<string, string>> {
    Continue(dlls, 0, cache, dir, map[])
  }

  /** The loop succeeds exactly when no remaining DLL fails. */
  lemma {:induction false} ContinueOk(dlls: seq<DLLInfo>, i: nat, cache: Cache, dir: string, paths: map<string, string>)
    requires i <= |dlls|
    ensures Continue(dlls, i, cache, dir, paths).Ok? <==> forall j :: i <= j < |dlls| ==> !Fails(cache, dir, dlls[j])
    decreases |dlls| - i
  {
    if i < |dlls| && !Fails(cache, dir, dlls[i]) {
      ContinueOk(dlls, i + 1, cache, dir, paths[dlls[i].fileName := CachedPath(dir, dlls[i], cache.digest)]);
    }
  }

  /** A successful loop returns the map of every cached path. */
  lemma {:induction false} ContinueValue(dlls: seq<DLLInfo>, i: nat, cache: Cache, dir: string, paths: map<string, string>)
    requires i <= |dlls|
    requires paths == PathsOf(dlls[..i], dir, cache.digest)
    requires Continue(dlls, i, cache, dir, paths).Ok?
    ensures Continue(dlls, i, cache, dir, paths).value == PathsOf(dlls, dir, cache.digest)
    decreases |dlls| - i
  {
    if i == |dlls| {
      assert dlls[..i] == dlls;
    } else {
      var next := paths[dlls[i].fileName := CachedPath(dir, dlls[i], cache.digest)];
      assert next == PathsOf(dlls[..i + 1], dir, cache.digest) by {
        assert dlls[..i + 1][..i] == dlls[..i];
      }
      ContinueValue(dlls, i + 1, cache, dir, next);
    }
  }

  /** Otherwise the error is that of the first remaining DLL that fails. */
  lemma {:induction false} ContinueErr(dlls: seq<DLLInfo>, i: nat, cache: Cache, dir: string, paths: map<string, string>)
    requires i <= |dlls|
    requires Continue(dlls, i, cache, dir, paths).Err?
    ensures exists k :: (i <= k < |dlls| && Fails(cache, dir, dlls[k])
                         && (forall j :: i <= j < k ==> !Fails(cache, dir, dlls[j]))
                         && Continue(dlls, i, cache, dir, paths).msg
                              == "downloading " + dlls[k].name + ": " + cache.fetch(dlls[k], dir).value)
    decreases |dlls| - i
  {
    if !Fails(cache, dir, dlls[i]) {
      ContinueErr(dlls, i + 1, cache, dir, paths[dlls[i].fileName := CachedPath(dir, dlls[i], cache.digest)]);
    }
  }

  /** `EnsureDLLsDownloaded` with a cache directory succeeds exactly when no DLL fails, with one
      key per file name; the first DLL that fails is the error. */
  lemma DownloadedProperties(dlls: seq<DLLInfo>, cache: Cache, dir: string)
    ensures Downloaded(dlls, cache, dir).Ok? <==> forall i :: 0 <= i < |dlls| ==> !Fails(cache, dir, dlls[i])
    ensures Downloaded(dlls, cache, dir).Ok? ==> Downloaded(dlls, cache, dir).value == PathsOf(dlls, dir, cache.digest)
    ensures Downloaded(dlls, cache, dir).Err? ==>
      exists k :: 0 <= k < |dlls| && Fails(cache, dir, dlls[k])
        && (forall j :: 0 <= j < k ==> !Fails(cache, dir, dlls[j]))
        && Downloaded(dlls, cache, dir).msg == "downloading " + dlls[k].name + ": " + cache.fetch(dlls[k], dir).value
  {
    assert dlls[..0] == [];
    ContinueOk(dlls, 0, cache, dir, map[]);
    if Downloaded(dlls, cache, dir).Ok? {
      ContinueValue(dlls, 0, cache, dir, map[]);
    } else {
      ContinueErr(dlls, 0, cache, dir, map[]);
    }
  }

  /** The archive entry holds the DLL: its name ends with the DLL's name, ignoring case. */
  predicate Selects(entryName: string, dllFileName: string) {
    HasSuffix(ToLower(entryName), ToLower(dllFileName))
  }

  /** Extracting one archive entry to the target directory. */
  datatype ExtractOutcome = Extracted | OpenFailed(msg: string) | CreateFailed(msg: string) | CopyFailed(msg: string)

  /** `extractDLLFromZip`: the first entry that holds the DLL is extracted to
      `targetDir/dllFileName`; no such entry is an error. `archive` is the list of entry names or
      the error of opening the archive; `extract` extracts one entry to a target path. */
  method ExtractDLLFromZip(archive: Result<seq<string>>, dllFileName: string, targetDir: string,
                           extract: (string, string) -> ExtractOutcome)
    returns (chosen: Option<nat>, err: Option<string>)
    ensures archive.Err? ==> chosen == None && err == Some("opening zip archive: " + archive.msg)
    ensures chosen.Some? ==>
      && archive.Ok? && chosen.value < |archive.value|
      && Selects(archive.value[chosen.value], dllFileName)
      && forall j :: 0 <= j < chosen.value ==> !Selects(archive.value[j], dllFileName)
    ensures archive.Ok? && chosen.None? ==>
      && (forall j :: 0 <= j < |archive.value| ==> !Selects(archive.value[j], dllFileName))
      && err == Some("DLL file " + dllFileName + " not found in archive")
    ensures chosen.Some? ==>
      var name := archive.value[chosen.value];
      match extract(name, JoinPath(targetDir, dllFileName))
      case Extracted => err == None
      case OpenFailed(msg) => err == Some("opening " + name + " in archive: " + msg)
      case CreateFailed(msg) => err == Some("creating target file: " + msg)
      case CopyFailed(msg) => err == Some("extracting " + dllFileName + ": " + msg)
  {
    if archive.Err? {
      return None, Some("opening zip archive: " + archive.msg);
    }
    var files := archive.value;
    var found := false;
    chosen := None;
    err := None;
    var i := 0;
    while i < |files|
      invariant 0 <= i <= |files|
      invariant !found && chosen == None && err == None
      invariant forall j :: 0 <= j < i ==> !Selects(files[j], dllFileName)
    {
      if HasSuffix(ToLower(files[i]), ToLower(dllFileName)) {
        found := true;
        chosen := Some(i);
        var outcome := extract(files[i], JoinPath(targetDir, dllFileName));
        match outcome {
          case Extracted =>
          case OpenFailed(msg) => return chosen, Some("opening " + files[i] + " in archive: " + msg);
          case CreateFailed(msg) => return chosen, Some("creating target file: " + msg);
          case CopyFailed(msg) => return chosen, Some("extracting " + dllFileName + ": " + msg);
        }
        break;
      }
      i := i + 1;
    }
    if !found {
      return None, Some("DLL file " + dllFileName + " not found in archive");
    }
  }
}
