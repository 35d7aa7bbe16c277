/** The Steamworks redistributable libraries for an Odin target: which runtime library and, on
    64-bit Windows, which link library are fetched, and where they are put. The download of one
    file (skipped when present) is an input. */
module Steamworks {
  import opened Wrappers
  import opened Strs

  const SteamworksRepo := "rlabrecque/SteamworksSDK"
  const SteamworksCommit := "e7bb839178fc5a48aa380d85e2ad04cc97d9d11c"

  /** A library in the SDK repository: its path there, and its sub-directory and file name in
      the local copy. */
  datatype RemoteLibrary = RemoteLibrary(remotePath: string, subdir: string, filename: string)

  /** The remote path is the redistributable directory, the sub-directory and the file name. */
  predicate WellPlaced(lib: RemoteLibrary) {
    lib.remotePath == "redistributable_bin/" + lib.subdir + "/" + lib.filename
  }

  function Library(subdir: string, filename: string): (r: RemoteLibrary)
    ensures WellPlaced(r) && r.subdir == subdir && r.filename == filename
  {
    RemoteLibrary("redistributable_bin/" + subdir + "/" + filename, subdir, filename)
  }

  /** `getRuntimeLibraryInfo`: the cases are tried in order: any darwin target, then
      linux_amd64, then any target naming arm64 or aarch64, then windows_amd64. */
  function RuntimeLibraryInfo(target: string): (r: Option<RemoteLibrary>)
    ensures r.Some? ==> WellPlaced(r.value)
    ensures HasPrefix(target, "darwin") ==> r == Some(Library("osx", "libsteam_api.dylib"))
    ensures target == "linux_amd64" ==> r == Some(Library("linux64", "libsteam_api.so"))
    ensures !HasPrefix(target, "darwin") && (Contains(target, "arm64") || Contains(target, "aarch64")) ==>
      r == Some(Library("linuxarm64", "libsteam_api.so"))
    ensures target == "windows_amd64" ==> r == Some(Library("win64", "steam_api64.dll"))
    ensures r.None? <==>
      !HasPrefix(target, "darwin") && target != "linux_amd64" && !Contains(target, "arm64")
      && !Contains(target, "aarch64") && target != "windows_amd64"
  {
    Amd64NamesNoArm("linux_amd64");
    Amd64NamesNoArm("windows_amd64");
    if HasPrefix(target, "darwin") then Some(Library("osx", "libsteam_api.dylib"))
    else if target == "linux_amd64" then Some(Library("linux64", "libsteam_api.so"))
    else if Contains(target, "arm64") || Contains(target, "aarch64") then
      Some(Library("linuxarm64", "libsteam_api.so"))
    else if target == "windows_amd64" then Some(Library("win64", "steam_api64.dll"))
    else None
  }

  /** The two amd64 targets name neither arm64 nor aarch64. */
  lemma Amd64NamesNoArm(t: string)
    requires t == "linux_amd64" || t == "windows_amd64"
    ensures !HasPrefix(t, "darwin")
    ensures !Contains(t, "arm64") && !Contains(t, "aarch64")
  {
    assert t[0] != 'd';
    assert !Contains(t, "arm64") by {
      forall i | 0 <= i <= |t| - 5 ensures !OccursAt(t, "arm64", i) {
        assert t[i..i + 5][0] == t[i];
        assert t[i..i + 5][1] == t[i + 1];
      }
    }
    assert !Contains(t, "aarch64") by {
      forall i | 0 <= i <= |t| - 7 ensures !OccursAt(t, "aarch64", i) {
        assert t[i..i + 7][0] == t[i];
        assert t[i..i + 7][1] == t[i + 1];
      }
    }
  }

  /** The arm64 case is not restricted to linux: a windows arm64 target is given the linux
      arm64 shared library, and it has no link library. */
  lemma WindowsArm64GetsLinuxLibrary()
    ensures RuntimeLibraryInfo("windows_arm64") == Some(Library("linuxarm64", "libsteam_api.so"))
    ensures LinkLibraryInfo("windows_arm64").None?
  {
    assert OccursAt("windows_arm64", "arm64", 8);
    assert !HasPrefix("windows_arm64", "darwin") by {
      assert "windows_arm64"[0] != 'd';
    }
  }

  /** `getLinkLibraryInfo`: only windows_amd64 has a link library. */
  function LinkLibraryInfo(target: string): (r: Option<RemoteLibrary>)
    ensures r.Some? <==> target == "windows_amd64"
    ensures r.Some? ==> WellPlaced(r.value) && HasSuffix(r.value.filename, ".lib")
  {
    if target == "windows_amd64" then
      assert "steam_api64.lib"[11..] == ".lib";
      Some(Library("win64", "steam_api64.lib"))
    else None
  }

  /** The raw-content directory of the pinned SDK commit. */
  const PinnedBase := "https://raw.githubusercontent.com/" + SteamworksRepo + "/" + SteamworksCommit + "/"

  /** The raw-content URL of a file of the pinned SDK commit: the pinned directory, then the
      remote path. */
  function DownloadURL(remotePath: string): (r: string)
    ensures HasPrefix(r, PinnedBase) && r[|PinnedBase|..] == remotePath
    ensures HasSuffix(r, "/" + remotePath)
  {
    assert PinnedBase == "https://raw.githubusercontent.com/" + SteamworksRepo + "/" + SteamworksCommit + "/";
    SuffixOfConcat("https://raw.githubusercontent.com/" + SteamworksRepo + "/" + SteamworksCommit, "/" + remotePath);
    assert (PinnedBase + remotePath)[..|PinnedBase|] == PinnedBase;
    PinnedBase + remotePath
  }

  /** Distinct remote paths are fetched from distinct URLs. */
  lemma DownloadURLInjective(a: string, b: string)
    requires DownloadURL(a) == DownloadURL(b)
    ensures a == b
  {
  }

  /** `LibraryInfo`: the local runtime library and, on Windows, the link library ("" otherwise). */
  datatype LibraryInfo = LibraryInfo(runtimeLib: string, linkLib: string)

  /** The local copy of a library under the Steamworks directory. */
  function LocalPath(steamworksDir: string, lib: RemoteLibrary): string {
    JoinPath(JoinPath(steamworksDir, lib.subdir), lib.filename)
  }

  /** `EnsureLibraries`: an unsupported target is an error; otherwise the runtime library is
      fetched, and for a windows target with a link library that is fetched too. `download` is
      given the URL and the local path and returns the error of fetching, if any. */
  method EnsureLibraries(target: string, steamworksDir: string, download: (string, string) -> Option<string>)
    returns (r: Result<LibraryInfo>)
    ensures RuntimeLibraryInfo(target).None? ==> r == Err("unsupported Steam platform: " + target)
    ensures r.Ok? ==>
      && RuntimeLibraryInfo(target).Some?
      && r.value.runtimeLib == LocalPath(steamworksDir, RuntimeLibraryInfo(target).value)
      && (r.value.linkLib != "" <==> target == "windows_amd64")
      && (target == "windows_amd64" ==> r.value.linkLib == LocalPath(steamworksDir, LinkLibraryInfo(target).value))
    ensures RuntimeLibraryInfo(target).Some? ==>
      var runtime := RuntimeLibraryInfo(target).value;
      var runtimeErr := download(DownloadURL(runtime.remotePath), LocalPath(steamworksDir, runtime));
      && (runtimeErr.Some? ==> r == Err("downloading runtime library: " + runtimeErr.value))
      && (runtimeErr.None? && target != "windows_amd64" ==>
            r == Ok(LibraryInfo(LocalPath(steamworksDir, runtime), "")))
    ensures target == "windows_amd64" ==>
      var runtime := RuntimeLibraryInfo(target).value;
      var link := LinkLibraryInfo(target).value;
      var runtimeErr := download(DownloadURL(runtime.remotePath), LocalPath(steamworksDir, runtime));
      var linkErr := download(DownloadURL(link.remotePath), LocalPath(steamworksDir, link));
      runtimeErr.None? ==>
        && (linkErr.Some? ==> r == Err("downloading link library: " + linkErr.value))
        && (linkErr.None? ==> r == Ok(LibraryInfo(LocalPath(steamworksDir, runtime), LocalPath(steamworksDir, link))))
  {
    var runtimeInfo := RuntimeLibraryInfo(target);
    if runtimeInfo.None? {
      return Err("unsupported Steam platform: " + target);
    }
    var localPath := LocalPath(steamworksDir, runtimeInfo.value);
    var failure := download(DownloadURL(runtimeInfo.value.remotePath), localPath);
    if failure.Some? {
      return Err("downloading runtime library: " + failure.value);
    }
    var info := LibraryInfo(localPath, "");
    if HasPrefix(target, "windows") {
      var linkInfo := LinkLibraryInfo(target);
      if linkInfo.Some? {
        var linkLocal := LocalPath(steamworksDir, linkInfo.value);
        var linkFailure := download(DownloadURL(linkInfo.value.remotePath), linkLocal);
        if linkFailure.Some? {
          return Err("downloading link library: " + linkFailure.value);
        }
        assert |linkLocal| > 0;
        info := info.(linkLib := linkLocal);
      }
    }
    return Ok(info);
  }
}
