/** Locating the project: the walk from the working directory up to the first directory holding
    venture.yaml, and the validation of the parsed configuration. The file system is given as
    which paths exist and each directory's parent; reading and YAML parsing are inputs. */
module Project {
  import opened Wrappers
  import opened Strs

  const ConfigFileName := "venture.yaml"
  const NotFoundPrefix := "venture.yaml not found in any parent directory of "

  /** `Config`. */
  datatype Config = Config(name: string, binaryName: string, steamAppID: string)

  /** `filepath.Dir` on absolute paths: every directory but the root has a strictly shorter
      parent, and the root is its own parent. */
  ghost predicate ShortensToRoot(parent: string -> string) {
    forall d :: parent(d) != d ==> |parent(d)| < |d|
  }

  /** The directories the walk visits from `dir`: `dir`, its parent, and so on up to the first
      directory that is its own parent. */
  function Chain(dir: string, parent: string -> string): (r: seq<string>)
    requires ShortensToRoot(parent)
    ensures r != [] && r[0] == dir
    ensures parent(r[|r| - 1]) == r[|r| - 1]
    ensures forall i :: 0 <= i < |r| - 1 ==> r[i + 1] == parent(r[i]) && r[i] != r[i + 1]
    decreases |dir|
  {
    if parent(dir) == dir then [dir] else [dir] + Chain(parent(dir), parent)
  }

  /** The directory holds venture.yaml. */
  predicate HasConfig(dir: string, present: string -> bool) {
    present(JoinPath(dir, ConfigFileName))
  }

  /** `FindProjectRoot`: the result is the first directory of the chain from `cwd` that holds
      venture.yaml, and the walk fails exactly when none does. */
  method FindProjectRoot(cwd: Result<string>, present: string -> bool, parent: string -> string)
    returns (r: Result<string>)
    requires ShortensToRoot(parent)
    ensures cwd.Err? ==> r == Err("getting current directory: " + cwd.msg)
    ensures cwd.Ok? ==>
      var chain := Chain(cwd.value, parent);
      && (r.Ok? <==> exists i :: 0 <= i < |chain| && HasConfig(chain[i], present))
      && (r.Ok? ==> exists i :: 0 <= i < |chain| && chain[i] == r.value && HasConfig(chain[i], present)
                      && forall j :: 0 <= j < i ==> !HasConfig(chain[j], present))
      && (r.Err? ==> r.msg == NotFoundPrefix + cwd.value)
  {
    if cwd.Err? {
      return Err("getting current directory: " + cwd.msg);
    }
    ghost var chain := Chain(cwd.value, parent);
    var dir := cwd.value;
    ghost var k := 0;
    while true
      invariant 0 <= k < |chain| && chain[k] == dir
      invariant Chain(dir, parent) == chain[k..]
      invariant forall j :: 0 <= j < k ==> !HasConfig(chain[j], present)
      decreases |dir|
    {
      if present(JoinPath(dir, ConfigFileName)) {
        return Ok(dir);
      }
      var up := parent(dir);
      if up == dir {
        assert k == |chain| - 1;
        return Err(NotFoundPrefix + cwd.value);
      }
      dir := up;
      k := k + 1;
    }
  }

  /** `LoadConfig`: a read or parse failure is reported with the file name; a configuration
      without a name, or else without a binary name, is rejected; otherwise it is returned. */
  method LoadConfig(data: Result<string>, parse: string -> Result<Config>) returns (r: Result<Config>)
    ensures data.Err? ==> r == Err("reading " + ConfigFileName + ": " + data.msg)
    ensures data.Ok? && parse(data.value).Err? ==> r == Err("parsing " + ConfigFileName + ": " + parse(data.value).msg)
    ensures r.Ok? <==> data.Ok? && parse(data.value).Ok? && parse(data.value).value.name != ""
                       && parse(data.value).value.binaryName != ""
    ensures r.Ok? ==> r.value == parse(data.value).value
    ensures data.Ok? && parse(data.value).Ok? && parse(data.value).value.name == "" ==>
      r == Err("'name' field is required in " + ConfigFileName)
    ensures (data.Ok? && parse(data.value).Ok? && parse(data.value).value.name != "" &&
             parse(data.value).value.binaryName == "") ==> r == Err("'binary_name' field is required in " + ConfigFileName)
  {
    if data.Err? {
      return Err("reading " + ConfigFileName + ": " + data.msg);
    }
    var config := parse(data.value);
    if config.Err? {
      return Err("parsing " + ConfigFileName + ": " + config.msg);
    }
    if config.value.name == "" {
      return Err("'name' field is required in " + ConfigFileName);
    }
    if config.value.binaryName == "" {
      return Err("'binary_name' field is required in " + ConfigFileName);
    }
    return Ok(config.value);
  }
}
