/** The clay_glue.c compilation step: which targets the host can build natively, the Odin to
    Zig target table, the recompilation test over modification times, and the compiler and
    argument choice. Stat results, tool lookup and the compiler run are inputs. */
module Clay {
  import opened Wrappers
  import opened Strs

  /** `isTargetCompatible`: the host operating system builds these Odin targets natively. */
  predicate IsTargetCompatible(currentPlatform: string, target: string) {
    match currentPlatform
    case "darwin" => target == "darwin_arm64" || target == "darwin_amd64"
    case "linux" => target == "linux_amd64" || target == "linux_i386"
    case "windows" => target == "windows_amd64" || target == "windows_i386"
    case _ => false
  }

  /** A compatible target is named after its platform, so no target is compatible with two
      platforms. */
  lemma CompatibleNamesPlatform(p: string, q: string, target: string)
    requires IsTargetCompatible(p, target)
    ensures HasPrefix(target, p + "_")
    ensures IsTargetCompatible(q, target) ==> p == q
  {
  }

  /** The target is compatible with one of the three supported platforms. */
  predicate IsKnownTarget(target: string) {
    IsTargetCompatible("darwin", target) || IsTargetCompatible("linux", target)
      || IsTargetCompatible("windows", target)
  }

  /** `mapOdinToZigTarget`: the Zig triple of an Odin target, or "" for an unknown one. */
  function MapOdinToZigTarget(odinTarget: string): (r: string)
    ensures r != "" <==> IsKnownTarget(odinTarget)
  {
    match odinTarget
    case "darwin_arm64" => "aarch64-macos"
    case "darwin_amd64" => "x86_64-macos"
    case "linux_amd64" => "x86_64-linux"
    case "linux_i386" => "i386-linux"
    case "windows_amd64" => "x86_64-windows"
    case "windows_i386" => "i386-windows"
    case _ => ""
  }

  /** Distinct known targets map to distinct Zig triples. */
  lemma ZigTargetInjective(a: string, b: string)
    requires MapOdinToZigTarget(a) != ""
    requires MapOdinToZigTarget(a) == MapOdinToZigTarget(b)
    ensures a == b
  {
  }

  /** The outcome of `os.Stat` on one file: its modification time, or an error, with the error's
      text, that reports the file absent (`Missing`) or not (`StatFailed`). */
  datatype Stat = Found(modTime: int) | Missing(msg: string) | StatFailed(msg: string)

  /** `needsRecompile`: a missing object is rebuilt; otherwise the object is rebuilt when it is
      older than the source or the header. */
  function NeedsRecompile(obj: Stat, src: Stat, hdr: Stat): (r: Result<bool>)
    ensures obj.Missing? ==> r == Ok(true)
    ensures r.Err? <==> obj.StatFailed? || (obj.Found? && (!src.Found? || !hdr.Found?))
    ensures obj.StatFailed? ==> r == Err("stat object file: " + obj.msg)
    ensures obj.Found? && !src.Found? ==> r == Err("stat source file: " + src.msg)
    ensures obj.Found? && src.Found? && !hdr.Found? ==> r == Err("stat header file: " + hdr.msg)
    ensures r == Ok(false) <==>
      obj.Found? && src.Found? && hdr.Found? && src.modTime <= obj.modTime && hdr.modTime <= obj.modTime
  {
    match obj
    case Missing(_) => Ok(true)
    case StatFailed(msg) => Err("stat object file: " + msg)
    case Found(objTime) =>
      match src
      case Missing(msg) => Err("stat source file: " + msg)
      case StatFailed(msg) => Err("stat source file: " + msg)
      case Found(srcTime) =>
        match hdr
        case Missing(msg) => Err("stat header file: " + msg)
        case StatFailed(msg) => Err("stat header file: " + msg)
        case Found(hdrTime) => Ok(objTime < srcTime || objTime < hdrTime)
  }

  /** The messages for a missing compiler. */
  const ZigNotFound := "zig not found (required for cross-compilation). Please install Zig: https://ziglang.org/download/"
  const ClangNotFound := "clang not found. Please install clang compiler"

  /** What `Compile` finds on the machine. */
  datatype Toolchain = Toolchain(
    currentPlatform: string,
    objStat: Stat,
    srcStat: Stat,
    hdrStat: Stat,
    zigPath: Option<string>,
    clangPath: Option<string>,
    run: (string, seq<string>) -> Option<string>)

  /** One compiler run: the program and its arguments. */
  datatype Invocation = Invocation(compiler: string, args: seq<string>)

  function SourcePath(clayDir: string): string { JoinPath(clayDir, "clay_glue.c") }
  function ObjectPath(clayDir: string): string { JoinPath(clayDir, "clay_glue.o") }

  /** Zig is used when cross-compiling and asked for. */
  predicate UsesZig(tools: Toolchain, target: string, useZig: bool) {
    !IsTargetCompatible(tools.currentPlatform, target) && useZig
  }

  /** `Compile`: an up-to-date object is returned without a run. Otherwise zig is used exactly
      when cross-compiling and `useZig` is set, with a `-target` flag exactly when the target
      has a Zig triple; clang gets `-c src -o obj -O2` and nothing else. */
  method Compile(clayDir: string, target: string, useZig: bool, tools: Toolchain)
    returns (r: Result<string>, invocation: Option<Invocation>)
    ensures NeedsRecompile(tools.objStat, tools.srcStat, tools.hdrStat).Err? ==>
      r == Err("checking recompile status: " + NeedsRecompile(tools.objStat, tools.srcStat, tools.hdrStat).msg)
      && invocation == None
    ensures NeedsRecompile(tools.objStat, tools.srcStat, tools.hdrStat) == Ok(false) ==>
      r == Ok(ObjectPath(clayDir)) && invocation == None
    ensures invocation.Some? <==>
      NeedsRecompile(tools.objStat, tools.srcStat, tools.hdrStat) == Ok(true)
      && (if UsesZig(tools, target, useZig) then tools.zigPath.Some? else tools.clangPath.Some?)
    ensures invocation.Some? ==>
      invocation.value.compiler == (if UsesZig(tools, target, useZig) then tools.zigPath.value else tools.clangPath.value)
    ensures invocation.Some? ==>
      ("-target" in invocation.value.args <==> UsesZig(tools, target, useZig) && MapOdinToZigTarget(target) != "")
    ensures invocation.Some? && !UsesZig(tools, target, useZig) ==>
      invocation.value.args == ["-c", SourcePath(clayDir), "-o", ObjectPath(clayDir), "-O2"]
    ensures invocation.Some? && UsesZig(tools, target, useZig) ==>
      invocation.value.args == ["cc", "-c", SourcePath(clayDir), "-o", ObjectPath(clayDir), "-O2"]
        + (if MapOdinToZigTarget(target) != "" then ["-target", MapOdinToZigTarget(target)] else [])
    ensures invocation.Some? ==>
      r == (if tools.run(invocation.value.compiler, invocation.value.args).Some?
            then Err("compiling clay_glue.c: " + tools.run(invocation.value.compiler, invocation.value.args).value)
            else Ok(ObjectPath(clayDir)))
    ensures NeedsRecompile(tools.objStat, tools.srcStat, tools.hdrStat) == Ok(true) && invocation.None? ==> r.Err?
    ensures (NeedsRecompile(tools.objStat, tools.srcStat, tools.hdrStat) == Ok(true)
             && UsesZig(tools, target, useZig) && tools.zigPath.None?) ==> r == Err(ZigNotFound)
    ensures (NeedsRecompile(tools.objStat, tools.srcStat, tools.hdrStat) == Ok(true)
             && !UsesZig(tools, target, useZig) && tools.clangPath.None?) ==> r == Err(ClangNotFound)
  {
    var claySource := SourcePath(clayDir);
    var clayObject := ObjectPath(clayDir);
    var needsRecompile := NeedsRecompile(tools.objStat, tools.srcStat, tools.hdrStat);
    if needsRecompile.Err? {
      return Err("checking recompile status: " + needsRecompile.msg), None;
    }
    if !needsRecompile.value {
      return Ok(clayObject), None;
    }
    var isCrossCompiling := !IsTargetCompatible(tools.currentPlatform, target);
    var compiler: string;
    var args: seq<string>;
    NotTargetFlag(clayDir);
    if isCrossCompiling && useZig {
      if tools.zigPath.None? {
        return Err(ZigNotFound), None;
      }
      compiler := tools.zigPath.value;
      args := ["cc", "-c", claySource, "-o", clayObject, "-O2"];
      var zigTarget := MapOdinToZigTarget(target);
      if zigTarget != "" {
        args := args + ["-target", zigTarget];
        assert args[6] == "-target";
      }
    } else {
      if tools.clangPath.None? {
        return Err(ClangNotFound), None;
      }
      compiler := tools.clangPath.value;
      args := ["-c", claySource, "-o", clayObject, "-O2"];
    }
    invocation := Some(Invocation(compiler, args));
    var failure := tools.run(compiler, args);
    if failure.Some? {
      return Err("compiling clay_glue.c: " + failure.value), invocation;
    }
    return Ok(clayObject), invocation;
  }

  /** Neither argument list names the flag `-target`: the source and object paths are longer. */
  lemma NotTargetFlag(clayDir: string)
    ensures "-target" !in ["-c", SourcePath(clayDir), "-o", ObjectPath(clayDir), "-O2"]
    ensures "-target" !in ["cc", "-c", SourcePath(clayDir), "-o", ObjectPath(clayDir), "-O2"]
  {
    assert |SourcePath(clayDir)| >= 11;
    assert |ObjectPath(clayDir)| >= 11;
  }
}
