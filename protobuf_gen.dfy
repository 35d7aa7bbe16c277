/** Protobuf code generation: when the generated Odin code must be regenerated, how the hash
    cache is keyed, which files `Clean` removes, and where `Generate` stops early. Hashing, globbing,
    the file system and the external tools are inputs. */
module Protobuf {
  import opened Wrappers
  import opened Strs

  const HashCacheFile := ".protobuf-hashes.json"

  /** The messages for a missing compiler or plugin. */
  const ProtocNotFound := "protoc not found. Please install Protocol Buffers compiler."
  const PluginNotFound := "protoc-gen-odin not found. Please install the Odin protoc plugin."

  // ---------------------------------------------------------------------------------------
  // filepath.Base

  function StripTrailingSlashes(p: string): (r: string)
    ensures |r| <= |p| && r == p[..|r|]
    ensures r == "" || r[|r| - 1] != '/'
  {
    if p != "" && p[|p| - 1] == '/' then StripTrailingSlashes(p[..|p| - 1]) else p
  }

  /** The text after the last slash. */
  function LastComponent(p: string): (r: string)
    ensures |r| <= |p| && forall i :: 0 <= i < |r| ==> r[i] != '/'
  {
    if p == "" || p[|p| - 1] == '/' then "" else LastComponent(p[..|p| - 1]) + [p[|p| - 1]]
  }

  /** `filepath.Base` on a slash-separated file system: the last element after dropping trailing
      slashes, "." for the empty path and "/" for a path of slashes. */
  function Base(p: string): (r: string)
    ensures r != ""
  {
    if p == "" then "."
    else
      var q := StripTrailingSlashes(p);
      if q == "" then "/" else LastComponent(q)
  }

  predicate NoSlash(s: string) {
    forall i :: 0 <= i < |s| ==> s[i] != '/'
  }

  lemma {:induction false} LastComponentOfJoin(dir: string, name: string)
    requires NoSlash(name)
    ensures LastComponent(dir + "/" + name) == name
    decreases |name|
  {
    var p := dir + "/" + name;
    if name == "" {
      assert p[|p| - 1] == '/';
    } else {
      var front := name[..|name| - 1];
      assert p[..|p| - 1] == dir + "/" + front;
      LastComponentOfJoin(dir, front);
      assert name == front + [name[|name| - 1]];
    }
  }

  /** The key of a file in a directory is its own name whatever the directory, so files of the
      same name in different directories share one key. */
  lemma BaseOfJoin(dir: string, name: string)
    requires name != "" && NoSlash(name)
    ensures Base(dir + "/" + name) == name
  {
    var p := dir + "/" + name;
    assert p[|p| - 1] == name[|name| - 1];
    assert StripTrailingSlashes(p) == p;
    LastComponentOfJoin(dir, name);
  }

  // ---------------------------------------------------------------------------------------
  // sort.Strings

  /** Go's string order: byte-wise lexicographic, which for the characters of valid text is the
      order of their code points. */
  predicate StrLe(a: string, b: string) {
    a == [] || (b != [] && (a[0] < b[0] || (a[0] == b[0] && StrLe(a[1..], b[1..]))))
  }

  lemma {:induction false} StrLeTotal(a: string, b: string)
    ensures StrLe(a, b) || StrLe(b, a)
    decreases |a|
  {
    if a != [] && b != [] && a[0] == b[0] {
      StrLeTotal(a[1..], b[1..]);
    }
  }

  predicate Sorted(s: seq<string>) {
    forall i :: 0 <= i < |s| - 1 ==> StrLe(s[i], s[i + 1])
  }

  function Insert(x: string, s: seq<string>): (r: seq<string>)
    ensures multiset(r) == multiset(s) + multiset{x}
    ensures |r| > 0 && (r[0] == x || (s != [] && r[0] == s[0]))
  {
    if s == [] then [x]
    else if StrLe(x, s[0]) then [x] + s
    else
      assert s == [s[0]] + s[1..];
      [s[0]] + Insert(x, s[1..])
  }

  lemma {:induction false} InsertSorted(x: string, s: seq<string>)
    requires Sorted(s)
    ensures Sorted(Insert(x, s))
    decreases |s|
  {
    if s != [] && !StrLe(x, s[0]) {
      StrLeTotal(x, s[0]);
      SortedTail(s);
      InsertSorted(x, s[1..]);
      var rest := Insert(x, s[1..]);
      assert Insert(x, s) == [s[0]] + rest;
      assert forall i :: 0 < i < |rest| ==> ([s[0]] + rest)[i] == rest[i - 1];
    }
  }

  lemma SortedTail(s: seq<string>)
    requires Sorted(s) && s != []
    ensures Sorted(s[1..])
  {
    forall i | 0 <= i < |s[1..]| - 1
      ensures StrLe(s[1..][i], s[1..][i + 1])
    {
      assert s[1..][i] == s[i + 1] && s[1..][i + 1] == s[i + 2];
    }
  }

  /** `sort.Strings`, as an insertion sort. */
  function Sort(s: seq<string>): (r: seq<string>)
    ensures multiset(r) == multiset(s)
    ensures |r| == |s|
  {
    if s == [] then []
    else
      assert s == [s[0]] + s[1..];
      Insert(s[0], Sort(s[1..]))
  }

  lemma {:induction false} SortSorted(s: seq<string>)
    ensures Sorted(Sort(s))
    decreases |s|
  {
    if s != [] {
      SortSorted(s[1..]);
      InsertSorted(s[0], Sort(s[1..]));
    }
  }

  // ---------------------------------------------------------------------------------------
  // computeProtoHashes

  /** The file's hash, or the error of reading it. */
  type Hasher = string -> Result<string>

  /** The hashes of `files` taken in order and keyed by base name, so a later file overwrites an
      earlier one of the same name; the first unreadable file is the error. */
  function HashesOf(files: seq<string>, hash: Hasher): (r: Result<map<string, string>>)
  {
    if files == [] then Ok(map[])
    else
      var before := HashesOf(files[..|files| - 1], hash);
      var f := files[|files| - 1];
      if before.Err? then before
      else match hash(f)
        case Err(msg) => Err("hashing " + f + ": " + msg)
        case Ok(h) => Ok(before.value[Base(f) := h])
  }

  /** The hashes succeed exactly when every file can be read. */
  lemma {:induction false} HashesOkIff(files: seq<string>, hash: Hasher)
    ensures HashesOf(files, hash).Ok? <==> forall i :: 0 <= i < |files| ==> hash(files[i]).Ok?
    decreases |files|
  {
    if files != [] {
      var front := files[..|files| - 1];
      HashesOkIff(front, hash);
      assert forall i :: 0 <= i < |front| ==> front[i] == files[i];
    }
  }

  /** The keys of the hashes are exactly the base names of the files. */
  lemma HashesKeys(files: seq<string>, hash: Hasher)
    requires HashesOf(files, hash).Ok?
    ensures forall k :: k in HashesOf(files, hash).value <==> exists i :: 0 <= i < |files| && Base(files[i]) == k
  {
    forall k | k in HashesOf(files, hash).value
      ensures exists i :: 0 <= i < |files| && Base(files[i]) == k
    {
      HashesKeyFrom(files, hash, k);
    }
    forall i | 0 <= i < |files|
      ensures Base(files[i]) in HashesOf(files, hash).value
    {
      HashesKeyOf(files, hash, i);
    }
  }

  /** Every key is the base name of some file. */
  lemma {:induction false} HashesKeyFrom(files: seq<string>, hash: Hasher, k: string)
    requires HashesOf(files, hash).Ok? && k in HashesOf(files, hash).value
    ensures exists i :: 0 <= i < |files| && Base(files[i]) == k
    decreases |files|
  {
    var n := |files|;
    var front := files[..n - 1];
    assert HashesOf(files, hash).value == HashesOf(front, hash).value[Base(files[n - 1]) := hash(files[n - 1]).value];
    if k != Base(files[n - 1]) {
      HashesKeyFrom(front, hash, k);
      var i :| 0 <= i < |front| && Base(front[i]) == k;
      assert files[i] == front[i];
    }
  }

  /** Every file's base name is a key. */
  lemma {:induction false} HashesKeyOf(files: seq<string>, hash: Hasher, i: int)
    requires HashesOf(files, hash).Ok? && 0 <= i < |files|
    ensures Base(files[i]) in HashesOf(files, hash).value
    decreases |files|
  {
    var n := |files|;
    var front := files[..n - 1];
    assert HashesOf(files, hash).value == HashesOf(front, hash).value[Base(files[n - 1]) := hash(files[n - 1]).value];
    if i < n - 1 {
      assert files[i] == front[i];
      HashesKeyOf(front, hash, i);
    }
  }

  /** Each key holds the hash of the last file of that base name. */
  lemma {:induction false} HashesLast(files: seq<string>, hash: Hasher, i: int)
    requires HashesOf(files, hash).Ok?
    requires 0 <= i < |files|
    requires forall j :: i < j < |files| ==> Base(files[j]) != Base(files[i])
    ensures Base(files[i]) in HashesOf(files, hash).value && hash(files[i]).Ok?
    ensures HashesOf(files, hash).value[Base(files[i])] == hash(files[i]).value
    decreases |files|
  {
    var front := files[..|files| - 1];
    var f := files[|files| - 1];
    if i < |files| - 1 {
      assert front[i] == files[i];
      assert forall j :: i < j < |front| ==> front[j] == files[j];
      HashesLast(front, hash, i);
    }
  }

  /** `computeProtoHashes`: the files are hashed in sorted order. */
  method ComputeProtoHashes(protoFiles: seq<string>, hash: Hasher) returns (r: Result<map<string, string>>)
    ensures r == HashesOf(Sort(protoFiles), hash)
  {
    var sorted := Sort(protoFiles);
    var hashes: map<string, string> := map[];
    var i := 0;
    while i < |sorted|
      invariant 0 <= i <= |sorted|
      invariant HashesOf(sorted[..i], hash) == Ok(hashes)
    {
      HashesStep(sorted, i, hash);
      var h := hash(sorted[i]);
      if h.Err? {
        HashesErrSticks(sorted, i + 1, hash);
        return Err("hashing " + sorted[i] + ": " + h.msg);
      }
      hashes := hashes[Base(sorted[i]) := h.value];
      i := i + 1;
    }
    assert sorted[..|sorted|] == sorted;
    return Ok(hashes);
  }

  /** One more file: its hash is added under its base name, or its read error ends the map. */
  lemma HashesStep(files: seq<string>, i: nat, hash: Hasher)
    requires i < |files| && HashesOf(files[..i], hash).Ok?
    ensures hash(files[i]).Err? ==>
      HashesOf(files[..i + 1], hash) == Err("hashing " + files[i] + ": " + hash(files[i]).msg)
    ensures hash(files[i]).Ok? ==>
      HashesOf(files[..i + 1], hash) == Ok(HashesOf(files[..i], hash).value[Base(files[i]) := hash(files[i]).value])
  {
    assert files[..i + 1][..i] == files[..i];
    assert files[..i + 1][i] == files[i];
  }

  /** Once a prefix fails, every longer prefix fails with the same error. */
  lemma {:induction false} HashesErrSticks(files: seq<string>, k: nat, hash: Hasher)
    requires k <= |files| && HashesOf(files[..k], hash).Err?
    ensures HashesOf(files, hash) == HashesOf(files[..k], hash)
    decreases |files| - k
  {
    if k < |files| {
      assert files[..k + 1][..k] == files[..k];
      HashesErrSticks(files, k + 1, hash);
    } else {
      assert files[..k] == files;
    }
  }

  // ---------------------------------------------------------------------------------------
  // needsRegeneration

  /** A missing cache entry reads as the empty string. */
  function Lookup(m: map<string, string>, k: string): string {
    if k in m then m[k] else ""
  }

  /** The comparison `needsRegeneration` ends with: the same number of entries, and every current
      hash equal to the cached one. */
  predicate Unchanged(current: map<string, string>, cached: map<string, string>) {
    |current| == |cached| && forall k :: k in current ==> Lookup(cached, k) == current[k]
  }

  /** Since real hashes are never empty, the comparison holds exactly when the maps are equal. */
  lemma UnchangedIsEqual(current: map<string, string>, cached: map<string, string>)
    requires forall k :: k in current ==> current[k] != ""
    ensures Unchanged(current, cached) <==> current == cached
  {
    if Unchanged(current, cached) {
      assert current.Keys <= cached.Keys;
      SubsetSameSize(current.Keys, cached.Keys);
      assert forall k :: k in cached ==> cached[k] == current[k];
    }
  }

  lemma {:induction false} SubsetSameSize<T>(a: set<T>, b: set<T>)
    requires a <= b && |a| == |b|
    ensures a == b
  {
    if a != b {
      var x :| x in b && x !in a;
      assert a <= b - {x};
      SubsetSize(a, b - {x});
    }
  }

  lemma {:induction false} SubsetSize<T>(a: set<T>, b: set<T>)
    requires a <= b
    ensures |a| <= |b|
    decreases |b|
  {
    if a != {} {
      var x :| x in a;
      SubsetSize(a - {x}, b - {x});
    }
  }

  /** The decision `needsRegeneration` reaches: a glob error is reported; no generated files or
      an unreadable cache mean regenerate; otherwise a hashing error is reported, and the code is
      regenerated exactly when the current hashes differ from the cached ones. */
  function Decision(protoFiles: seq<string>, hash: Hasher,
                    generated: Result<seq<string>>, cached: Result<map<string, string>>): Result<bool>
  {
    if generated.Err? then Err("finding generated files: " + generated.msg)
    else if generated.value == [] || cached.Err? then Ok(true)
    else
      var current := HashesOf(Sort(protoFiles), hash);
      if current.Err? then Err("computing hashes: " + current.msg)
      else Ok(!Unchanged(current.value, cached.value))
  }

  /** Once the cache holds the hashes of the current files and generated code exists, the
      decision is that the code is up to date. */
  lemma SavedCacheIsUpToDate(protoFiles: seq<string>, hash: Hasher, generated: seq<string>)
    requires HashesOf(Sort(protoFiles), hash).Ok? && generated != []
    ensures Decision(protoFiles, hash, Ok(generated), Ok(HashesOf(Sort(protoFiles), hash).value)) == Ok(false)
  {
    var current := HashesOf(Sort(protoFiles), hash).value;
    assert forall k :: k in current ==> Lookup(current, k) == current[k];
  }

  /** `needsRegeneration`. `generated` is the glob of generated Odin files and `cached` the hash
      cache as loaded, with any read or parse error. */
  method NeedsRegeneration(protoFiles: seq<string>, hash: Hasher,
                           generated: Result<seq<string>>, cached: Result<map<string, string>>)
    returns (r: Result<bool>)
    ensures r == Decision(protoFiles, hash, generated, cached)
    ensures generated.Err? ==> r == Err("finding generated files: " + generated.msg)
    ensures generated == Ok([]) ==> r == Ok(true)
    ensures generated.Ok? && generated.value != [] && cached.Err? ==> r == Ok(true)
    ensures generated.Ok? && generated.value != [] && cached.Ok? ==>
      var current := HashesOf(Sort(protoFiles), hash);
      && (current.Err? ==> r == Err("computing hashes: " + current.msg))
      && (current.Ok? ==> r == Ok(!Unchanged(current.value, cached.value)))
  {
    if generated.Err? {
      return Err("finding generated files: " + generated.msg);
    }
    if |generated.value| == 0 {
      return Ok(true);
    }
    if cached.Err? {
      return Ok(true);
    }
    var currentHashes := ComputeProtoHashes(protoFiles, hash);
    if currentHashes.Err? {
      return Err("computing hashes: " + currentHashes.msg);
    }
    var current := currentHashes.value;
    if |current| != |cached.value| {
      return Ok(true);
    }
    var remaining := current.Keys;
    while remaining != {}
      invariant remaining <= current.Keys
      invariant forall k :: k in current && k !in remaining ==> Lookup(cached.value, k) == current[k]
      decreases |remaining|
    {
      var file :| file in remaining;
      if Lookup(cached.value, file) != current[file] {
        return Ok(true);
      }
      remaining := remaining - {file};
    }
    return Ok(false);
  }

  // ---------------------------------------------------------------------------------------
  // Clean

  function PbOdinFiles(files: seq<string>): (r: seq<string>)
    ensures forall i :: 0 <= i < |r| ==> HasSuffix(r[i], ".pb.odin")
  {
    if files == [] then []
    else
      var before := PbOdinFiles(files[..|files| - 1]);
      var f := files[|files| - 1];
      if HasSuffix(f, ".pb.odin") then before + [f] else before
  }

  /** The filter keeps exactly the files ending in ".pb.odin". */
  lemma {:induction false} PbOdinFilesMembers(files: seq<string>, f: string)
    ensures f in PbOdinFiles(files) <==> f in files && HasSuffix(f, ".pb.odin")
    decreases |files|
  {
    if files != [] {
      var front := files[..|files| - 1];
      PbOdinFilesMembers(front, f);
      assert files == front + [files[|files| - 1]];
    }
  }

  /** What removing the hash cache gave. */
  datatype CacheRemoval = CacheRemoved | CacheMissing | CacheRemoveFailed(msg: string)

  /** `Clean`: the globbed files ending in ".pb.odin" are removed in order until one fails, then
      the hash cache, whose absence is no error. `remove` gives a file's removal error. */
  method Clean(globbed: Result<seq<string>>, remove: string -> Option<string>, cache: CacheRemoval)
    returns (removed: seq<string>, err: Option<string>)
    ensures globbed.Err? ==> removed == [] && err == Some("finding generated files: " + globbed.msg)
    ensures globbed.Ok? ==>
      var all := PbOdinFiles(globbed.value);
      && removed <= all
      && (removed == all ==> err == (if cache.CacheRemoveFailed? then Some("removing hash cache: " + cache.msg) else None))
      && (removed < all ==>
            remove(all[|removed|]).Some? &&
            err == Some("removing " + all[|removed|] + ": " + remove(all[|removed|]).value))
      && (forall i :: 0 <= i < |removed| ==> remove(removed[i]).None?)
  {
    if globbed.Err? {
      return [], Some("finding generated files: " + globbed.msg);
    }
    var files := globbed.value;
    removed := [];
    var i := 0;
    while i < |files|
      invariant 0 <= i <= |files|
      invariant removed == PbOdinFiles(files[..i])
      invariant forall j :: 0 <= j < |removed| ==> remove(removed[j]).None?
    {
      assert files[..i + 1][..i] == files[..i];
      var file := files[i];
      if HasSuffix(file, ".pb.odin") {
        var e := remove(file);
        if e.Some? {
          PbOdinPrefix(files, i + 1);
          return removed, Some("removing " + file + ": " + e.value);
        }
        removed := removed + [file];
      }
      i := i + 1;
    }
    assert files[..|files|] == files;
    if cache.CacheRemoveFailed? {
      return removed, Some("removing hash cache: " + cache.msg);
    }
    return removed, None;
  }

  /** The filter of a prefix is a prefix of the filter. */
  lemma {:induction false} PbOdinPrefix(files: seq<string>, k: nat)
    requires k <= |files|
    ensures PbOdinFiles(files[..k]) <= PbOdinFiles(files)
    decreases |files| - k
  {
    if k < |files| {
      assert files[..k + 1][..k] == files[..k];
      PbOdinPrefix(files, k + 1);
    } else {
      assert files[..k] == files;
    }
  }

  // ---------------------------------------------------------------------------------------
  // Generate

  /** `checkOdinProtocPlugin`: the plugin is missing only when it neither runs nor is on the
      search path. */
  function PluginCheck(versionRuns: bool, onPath: bool): (r: Option<string>)
    ensures r.None? <==> versionRuns || onPath
  {
    if !versionRuns && !onPath then
      Some(PluginNotFound)
    else None
  }

  /** The protoc runs for the files in order, up to and including the first that fails. */
  function ProtocRuns(files: seq<string>, protoc: string -> Option<string>): (r: seq<string>)
    ensures |r| <= |files| && r == files[..|r|]
    ensures forall i :: 0 <= i < |r| - 1 ==> protoc(r[i]).None?
  {
    if files == [] then []
    else if protoc(files[0]).Some? then [files[0]]
    else [files[0]] + ProtocRuns(files[1..], protoc)
  }

  /** The error of the first protoc run that fails: it names the file's base name and carries
      protoc's output. */
  function ProtocError(files: seq<string>, protoc: string -> Option<string>): (r: Option<string>)
  {
    if files == [] then None
    else if protoc(files[0]).Some? then
      Some("generating code for " + Base(files[0]) + ": " + protoc(files[0]).value)
    else ProtocError(files[1..], protoc)
  }

  /** No error exactly when every run succeeds; an error comes from the last file run. */
  lemma {:induction false} ProtocErrorProperties(files: seq<string>, protoc: string -> Option<string>)
    ensures ProtocError(files, protoc).None? <==> forall i :: 0 <= i < |files| ==> protoc(files[i]).None?
    ensures ProtocError(files, protoc).Some? ==>
      && ProtocRuns(files, protoc) != []
      && var last := ProtocRuns(files, protoc)[|ProtocRuns(files, protoc)| - 1];
      && protoc(last).Some?
      && ProtocError(files, protoc) == Some("generating code for " + Base(last) + ": " + protoc(last).value)
    ensures ProtocError(files, protoc).None? ==> ProtocRuns(files, protoc) == files
    decreases |files|
  {
    if files != [] && protoc(files[0]).None? {
      ProtocErrorProperties(files[1..], protoc);
      assert forall i :: 0 < i < |files| ==> files[1..][i - 1] == files[i];
      assert files == [files[0]] + files[1..];
    }
  }

  /** The runs from file `i` on: file `i`, then the rest unless it fails. */
  lemma ProtocStep(files: seq<string>, i: nat, protoc: string -> Option<string>)
    requires i < |files|
    ensures files[..i + 1] == files[..i] + [files[i]]
    ensures ProtocRuns(files[i..], protoc) ==
      [files[i]] + (if protoc(files[i]).Some? then [] else ProtocRuns(files[i + 1..], protoc))
    ensures ProtocError(files[i..], protoc) ==
      if protoc(files[i]).Some? then Some("generating code for " + Base(files[i]) + ": " + protoc(files[i]).value)
      else ProtocError(files[i + 1..], protoc)
  {
    assert files[i..][0] == files[i] && files[i..][1..] == files[i + 1..];
  }

  /** The protoc loop of `Generate`. */
  method RunProtoc(files: seq<string>, protoc: string -> Option<string>) returns (ran: seq<string>, err: Option<string>)
    ensures ran == ProtocRuns(files, protoc)
    ensures err == ProtocError(files, protoc)
  {
    ran := [];
    var i := 0;
    while i < |files|
      invariant 0 <= i <= |files|
      invariant ran == files[..i]
      invariant ProtocRuns(files, protoc) == ran + ProtocRuns(files[i..], protoc)
      invariant ProtocError(files, protoc) == ProtocError(files[i..], protoc)
    {
      ProtocStep(files, i, protoc);
      ran := ran + [files[i]];
      var output := protoc(files[i]);
      if output.Some? {
        return ran, Some("generating code for " + Base(files[i]) + ": " + output.value);
      }
      i := i + 1;
    }
    assert files[|files|..] == [];
    return ran, None;
  }

  /** The tools and file system as `Generate` finds them. */
  datatype Environment = Environment(
    protoGlob: Result<seq<string>>,
    mkdirError: Option<string>,
    generated: Result<seq<string>>,
    cached: Result<map<string, string>>,
    hash: Hasher,
    protocMissing: bool,
    pluginRuns: bool,
    pluginOnPath: bool,
    protoc: string -> Option<string>)

  /** `Generate`: returns early with no protoc run when the glob fails, there are no proto files,
      the output directory cannot be made, the decision fails or says the code is up to date, or a
      tool is missing; otherwise protoc runs over the files in order and stops at the first
      failure. After every file compiles, `saveHashCache` recomputes the hashes and `saved` is the
      cache it writes (None when hashing fails). Formatting and writing the cache only warn. */
  method Generate(env: Environment) returns (ran: seq<string>, err: Option<string>, saved: Option<map<string, string>>)
    ensures env.protoGlob.Err? ==> ran == [] && saved.None? && err == Some("finding proto files: " + env.protoGlob.msg)
    ensures env.protoGlob == Ok([]) ==> ran == [] && saved.None? && err == None
    ensures env.protoGlob.Ok? && env.protoGlob.value != [] && env.mkdirError.Some? ==>
      ran == [] && saved.None? && err == Some("creating output directory: " + env.mkdirError.value)
    ensures env.protoGlob.Ok? && env.protoGlob.value != [] && env.mkdirError.None? ==>
      var files := env.protoGlob.value;
      var decision := Decision(files, env.hash, env.generated, env.cached);
      var plugin := PluginCheck(env.pluginRuns, env.pluginOnPath);
      && (decision.Err? ==> ran == [] && saved.None? && err == Some("checking timestamps: " + decision.msg))
      && (decision == Ok(false) ==> ran == [] && saved.None? && err == None)
      && (decision == Ok(true) && env.protocMissing ==> ran == [] && saved.None? && err == Some(ProtocNotFound))
      && (decision == Ok(true) && !env.protocMissing && plugin.Some? ==> ran == [] && saved.None? && err == plugin)
      && (decision == Ok(true) && !env.protocMissing && plugin.None? ==>
            && ran == ProtocRuns(files, env.protoc)
            && err == ProtocError(files, env.protoc)
            && var hashes := HashesOf(Sort(files), env.hash);
            saved == if err.None? && hashes.Ok? then Some(hashes.value) else None)
    ensures ran != [] ==>
      && env.protoGlob.Ok? && env.mkdirError.None? && !env.protocMissing
      && PluginCheck(env.pluginRuns, env.pluginOnPath).None?
      && ran == ProtocRuns(env.protoGlob.value, env.protoc)
  {
    saved := None;
    if env.protoGlob.Err? {
      return [], Some("finding proto files: " + env.protoGlob.msg), None;
    }
    var protoFiles := env.protoGlob.value;
    if |protoFiles| == 0 {
      return [], None, None;
    }
    if env.mkdirError.Some? {
      return [], Some("creating output directory: " + env.mkdirError.value), None;
    }
    var needsRegeneration := NeedsRegeneration(protoFiles, env.hash, env.generated, env.cached);
    if needsRegeneration.Err? {
      return [], Some("checking timestamps: " + needsRegeneration.msg), None;
    }
    if !needsRegeneration.value {
      return [], None, None;
    }
    if env.protocMissing {
      return [], Some(ProtocNotFound), None;
    }
    var plugin := PluginCheck(env.pluginRuns, env.pluginOnPath);
    if plugin.Some? {
      return [], plugin, None;
    }
    ran, err := RunProtoc(protoFiles, env.protoc);
    if err.None? {
      var hashes := ComputeProtoHashes(protoFiles, env.hash);
      if hashes.Ok? {
        saved := Some(hashes.value);
      }
    }
  }
}
