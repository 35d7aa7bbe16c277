/** The `odin build` invocation: its argument list and the space-joined form printed before the
    run. Running the compiler is an input. */
module Odin {
  import opened Wrappers
  import opened Strs

  /** `CompileConfig`. */
  datatype CompileConfig = CompileConfig(
    srcDir: string,
    outputPath: string,
    target: string,
    platform: string,
    debug: bool,
    release: bool,
    collectionPath: string)

  /** `Compile`: five fixed arguments, then "-debug" in debug mode, else "-o:speed" in release
      mode, else nothing. A failing run reports the compiler's output. */
  method Compile(config: CompileConfig, runOdin: seq<string> -> Option<string>)
    returns (args: seq<string>, err: Option<string>)
    ensures |args| == (if config.debug || config.release then 6 else 5)
    ensures args[..5] == ["build", config.srcDir, "-out:" + config.outputPath,
                          "-target:" + config.target, "-collection:platform=" + config.collectionPath]
    ensures config.debug ==> args[5] == "-debug"
    ensures !config.debug && config.release ==> args[5] == "-o:speed"
    ensures err.Some? <==> runOdin(args).Some?
    ensures err.Some? ==> err.value == "odin compilation failed: " + runOdin(args).value
  {
    args := [
      "build",
      config.srcDir,
      "-out:" + config.outputPath,
      "-target:" + config.target,
      "-collection:platform=" + config.collectionPath
    ];
    if config.debug {
      args := args + ["-debug"];
    } else if config.release {
      args := args + ["-o:speed"];
    }
    var display := JoinArgs(args);
    var failure := runOdin(args);
    if failure.Some? {
      return args, Some("odin compilation failed: " + failure.value);
    }
    return args, None;
  }

  /** The arguments separated by single spaces. */
  function Join(args: seq<string>): string {
    if args == [] then ""
    else if |args| == 1 then args[0]
    else Join(args[..|args| - 1]) + " " + args[|args| - 1]
  }

  /** `joinArgs`. */
  method JoinArgs(args: seq<string>) returns (result: string)
    ensures result == Join(args)
  {
    result := "";
    for i := 0 to |args|
      invariant result == Join(args[..i])
    {
      assert args[..i + 1][..i] == args[..i];
      if i > 0 {
        result := result + " ";
      }
      result := result + args[i];
    }
    assert args[..|args|] == args;
  }

  /** The summed lengths of the arguments. */
  function TotalLength(args: seq<string>): nat {
    if args == [] then 0 else TotalLength(args[..|args| - 1]) + |args[|args| - 1]|
  }

  /** One space between each pair of arguments and none around them. */
  lemma {:induction false} JoinLength(args: seq<string>)
    requires args != []
    ensures |Join(args)| == TotalLength(args) + |args| - 1
    decreases |args|
  {
    if |args| > 1 {
      JoinLength(args[..|args| - 1]);
    } else {
      assert args[..0] == [];
    }
  }

  /** The joined string starts with the first argument and ends with the last. */
  lemma {:induction false} JoinEnds(args: seq<string>)
    requires args != []
    ensures HasPrefix(Join(args), args[0])
    ensures HasSuffix(Join(args), args[|args| - 1])
    decreases |args|
  {
    if |args| > 1 {
      var front := args[..|args| - 1];
      JoinEnds(front);
      assert front[0] == args[0];
      assert Join(args) == Join(front) + (" " + args[|args| - 1]);
      SuffixOfConcat(Join(front) + " ", args[|args| - 1]);
      assert Join(args)[..|args[0]|] == Join(front)[..|args[0]|];
    }
  }

  /** Joining splits at every argument boundary: the parts before and after are joined by one
      space. */
  lemma {:induction false} JoinSplit(args: seq<string>, k: int)
    requires 0 < k < |args|
    ensures Join(args) == Join(args[..k]) + " " + Join(args[k..])
    decreases |args|
  {
    var n := |args|;
    var front := args[..n - 1];
    if k == n - 1 {
      assert args[k..] == [args[n - 1]];
      assert args[..k] == front;
    } else {
      JoinSplit(front, k);
      assert front[..k] == args[..k];
      var back := args[k..];
      assert back[..|back| - 1] == front[k..];
      assert back[|back| - 1] == args[n - 1];
    }
  }
}
