/** The host platform as an Odin target, and the name of the built binary. The operating system
    and architecture the Go runtime reports are parameters. */
module Platform {
  import opened Wrappers
  import opened Strs
  import Clay

  /** `DetectCurrent`: darwin, linux and windows give `<os>_<arch>`, where darwin's arch is
      arm64 or amd64 and the others' amd64 or i386; any other system is an error. */
  function DetectCurrent(os: string, arch: string): (r: Result<string>)
    ensures r.Ok? <==> os == "darwin" || os == "linux" || os == "windows"
    ensures r.Err? ==> r.msg == "unsupported platform: " + os + "/" + arch
    ensures r.Ok? ==> HasPrefix(r.value, os + "_")
    ensures r.Ok? ==> (r.value == os + "_amd64" <==> arch == "amd64" || (os == "darwin" && arch != "arm64"))
    ensures r.Ok? && r.value != os + "_amd64" ==> r.value == os + (if os == "darwin" then "_arm64" else "_i386")
  {
    match os
    case "darwin" =>
      assert "darwin_arm64"[8] != "darwin_amd64"[8];
      if arch == "arm64" then Ok("darwin_arm64") else Ok("darwin_amd64")
    case "linux" => if arch == "amd64" then Ok("linux_amd64") else Ok("linux_i386")
    case "windows" => if arch == "amd64" then Ok("windows_amd64") else Ok("windows_i386")
    case _ => Err("unsupported platform: " + os + "/" + arch)
  }

  /** Every detected target is one the host builds natively, so the C glue is never
      cross-compiled for it, and it has a Zig triple. */
  lemma DetectedIsCompatible(os: string, arch: string)
    requires DetectCurrent(os, arch).Ok?
    ensures Clay.IsTargetCompatible(os, DetectCurrent(os, arch).value)
    ensures Clay.MapOdinToZigTarget(DetectCurrent(os, arch).value) != ""
  {
  }

  /** `GetOutputName`: windows targets get the ".exe" extension; others keep the name. */
  function GetOutputName(target: string, binaryName: string): (r: string)
    ensures HasPrefix(target, "windows") ==> HasSuffix(r, ".exe") && TrimSuffix(r, ".exe") == binaryName
    ensures !HasPrefix(target, "windows") ==> r == binaryName
  {
    if HasPrefix(target, "windows") then binaryName + ".exe" else binaryName
  }
}
