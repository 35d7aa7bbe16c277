/** The import linter: which lines of an Odin source file import a library forbidden for console
    portability, the messages it records for them, and the verdict over the source and vendor
    directories. */
module Linter {
  import opened Wrappers
  import opened Strs

  /** The forbidden libraries and the alternative each message suggests. */
  const ForbiddenImports: map<string, string> := map[
    "core:thread" := "SDL_CreateThread / SDL_Thread",
    "core:sync" := "SDL_CreateMutex / SDL_CreateSemaphore",
    "core:net" := "SDL_Net",
    "core:time" := "SDL_GetTicks / SDL_GetPerformanceCounter"]

  const IgnoreMarker := "// @lint-ignore"

  // ---------------------------------------------------------------------------------------
  // The import pattern `^\s*import\s+(\w+\s+)?"([^"]+)"`

  /** The character classes of the pattern: `\s`, `\w` and `[^"]` of Go's regular expressions. */
  datatype CharClass = Space | Word | NotQuote

  predicate In(c: char, cls: CharClass) {
    match cls
    case Space => c == ' ' || c == '\t' || c == '\n' || c == '\U{C}' || c == '\r'
    case Word => ('a' <= c <= 'z') || ('A' <= c <= 'Z') || ('0' <= c <= '9') || c == '_'
    case NotQuote => c != '"'
  }

  predicate AllIn(s: string, from: int, to: int, cls: CharClass)
    requires 0 <= from <= to <= |s|
  {
    forall t :: from <= t < to ==> In(s[t], cls)
  }

  /** The end of the run of `cls` characters starting at i. */
  function Skip(s: string, i: nat, cls: CharClass): (j: nat)
    requires i <= |s|
    ensures i <= j <= |s|
    decreases |s| - i
  {
    if i < |s| && In(s[i], cls) then Skip(s, i + 1, cls) else i
  }

  /** The run is the longest one: every character in it is of the class and the one after it,
      if any, is not. */
  lemma {:induction false} SkipLongest(s: string, i: nat, cls: CharClass)
    requires i <= |s|
    ensures AllIn(s, i, Skip(s, i, cls), cls)
    ensures Skip(s, i, cls) < |s| ==> !In(s[Skip(s, i, cls)], cls)
    decreases |s| - i
  {
    if i < |s| && In(s[i], cls) {
      SkipLongest(s, i + 1, cls);
    }
  }

  /** The path the pattern captures in `line`, or None when the line does not match. */
  function ImportPath(line: string): Option<string> {
    var i0 := Skip(line, 0, Space);
    if !KeywordAt(line, i0) then None else PathAfterKeyword(line, i0 + 6)
  }

  /** The keyword "import" starts at i. */
  predicate KeywordAt(line: string, i: int)
    requires 0 <= i
  {
    && i + 6 <= |line|
    && line[i] == 'i' && line[i + 1] == 'm' && line[i + 2] == 'p'
    && line[i + 3] == 'o' && line[i + 4] == 'r' && line[i + 5] == 't'
  }

  /** The rest of the match after the keyword, which ends at a: at least one space, then the
      quoted path with its optional alias. */
  function PathAfterKeyword(line: string, a: nat): Option<string>
    requires a <= |line|
  {
    var s := Skip(line, a, Space);
    if s == a || s == |line| then None
    else
      var j := QuoteStart(line, s);
      if j < 0 then None else QuotedPath(line, j)
  }

  /** The non-empty quoted path whose opening quote is at j. */
  function QuotedPath(line: string, j: nat): Option<string>
    requires j < |line|
  {
    var q := Skip(line, j + 1, NotQuote);
    if q == j + 1 || q == |line| then None else Some(line[j + 1..q])
  }

  /** The opening quote after the keyword's spaces at s, past an optional alias and its spaces;
      -1 when there is none. */
  function QuoteStart(line: string, s: nat): (j: int)
    requires s < |line|
    ensures j >= 0 ==> s <= j < |line| && line[j] == '"'
  {
    if line[s] == '"' then s
    else
      var k := Skip(line, s, Word);
      if k == s then -1
      else
        var m := Skip(line, k, Space);
        if m == k || m == |line| || line[m] != '"' then -1 else m
  }

  /** `line` is spaces, the keyword, spaces, an optional alias followed by spaces, and a quoted
      path, at the offsets given: the pattern written out. The path runs from j + 1 to q. */
  ghost predicate PatternAt(line: string, i0: int, s: int, k: int, j: int, q: int) {
    KeywordPrefixAt(line, i0, s) && AliasAt(line, s, k, j) && QuotedAt(line, j, q)
  }

  /** Spaces up to i0, the keyword, and at least one space up to s. */
  ghost predicate KeywordPrefixAt(line: string, i0: int, s: int) {
    && 0 <= i0 && i0 + 6 < s <= |line|
    && AllIn(line, 0, i0, Space) && KeywordAt(line, i0) && AllIn(line, i0 + 6, s, Space)
  }

  /** From s, either the opening quote at once (s == k == j), or an alias up to k and at least
      one space up to the opening quote at j. */
  ghost predicate AliasAt(line: string, s: int, k: int, j: int) {
    && 0 <= s <= k <= j < |line|
    && (s == k ==> k == j)
    && (s < k ==> k < j && AllIn(line, s, k, Word) && AllIn(line, k, j, Space))
    && line[j] == '"'
  }

  /** A non-empty path without quotes between the quotes at j and q. */
  ghost predicate QuotedAt(line: string, j: int, q: int) {
    && 0 <= j && j + 1 < q < |line|
    && line[j] == '"' && AllIn(line, j + 1, q, NotQuote) && line[q] == '"'
  }

  /** The matcher captures p exactly when the line has the pattern's shape with p as its path. */
  lemma ImportPathIsPattern(line: string, p: string)
    ensures ImportPath(line) == Some(p) <==>
      exists i0, s, k, j, q :: PatternAt(line, i0, s, k, j, q) && p == line[j + 1..q]
  {
    if ImportPath(line) == Some(p) {
      var i0, s, k, j, q := MatchOffsets(line);
    }
    if exists i0, s, k, j, q :: PatternAt(line, i0, s, k, j, q) && p == line[j + 1..q] {
      var i0, s, k, j, q :| PatternAt(line, i0, s, k, j, q) && p == line[j + 1..q];
      PatternDetermined(line, i0, s, k, j, q);
    }
  }

  /** The offsets at which a matched line has the pattern's shape. */
  lemma MatchOffsets(line: string) returns (i0: int, s: int, k: int, j: int, q: int)
    requires ImportPath(line).Some?
    ensures PatternAt(line, i0, s, k, j, q) && ImportPath(line).value == line[j + 1..q]
  {
    i0 := Skip(line, 0, Space);
    s := Skip(line, i0 + 6, Space);
    j := QuoteStart(line, s);
    q := Skip(line, j + 1, NotQuote);
    assert KeywordAt(line, i0) && ImportPath(line) == PathAfterKeyword(line, i0 + 6);
    assert j >= 0 && PathAfterKeyword(line, i0 + 6) == QuotedPath(line, j);
    SkipLongest(line, 0, Space);
    SkipLongest(line, i0 + 6, Space);
    k := AliasOffsets(line, s);
    QuotedOffsets(line, j);
  }

  /** Where QuoteStart finds the quote, the alias, if any, ends at k. */
  lemma AliasOffsets(line: string, s: nat) returns (k: int)
    requires s < |line| && QuoteStart(line, s) >= 0
    ensures AliasAt(line, s, k, QuoteStart(line, s))
  {
    if line[s] == '"' {
      k := s;
    } else {
      k := Skip(line, s, Word);
      SkipLongest(line, s, Word);
      SkipLongest(line, k, Space);
    }
  }

  /** A captured quoted path runs to the next quote. */
  lemma QuotedOffsets(line: string, j: nat)
    requires j < |line| && line[j] == '"' && QuotedPath(line, j).Some?
    ensures QuotedAt(line, j, Skip(line, j + 1, NotQuote))
    ensures QuotedPath(line, j).value == line[j + 1..Skip(line, j + 1, NotQuote)]
  {
    SkipLongest(line, j + 1, NotQuote);
  }

  /** A line with the pattern's shape is matched, capturing its path. */
  lemma PatternDetermined(line: string, i0: int, s: int, k: int, j: int, q: int)
    requires PatternAt(line, i0, s, k, j, q)
    ensures ImportPath(line) == Some(line[j + 1..q])
  {
    assert line[i0] == 'i';
    SkipLongest(line, 0, Space);
    assert Skip(line, 0, Space) == i0;
    assert In(line[s], Word) || line[s] == '"';
    SkipLongest(line, i0 + 6, Space);
    assert Skip(line, i0 + 6, Space) == s;
    AliasDetermined(line, s, k, j);
    QuotedDetermined(line, j, q);
    assert PathAfterKeyword(line, i0 + 6) == QuotedPath(line, j);
  }

  /** QuoteStart finds the quote that ends an alias and its spaces. */
  lemma AliasDetermined(line: string, s: int, k: int, j: int)
    requires AliasAt(line, s, k, j)
    ensures QuoteStart(line, s) == j
  {
    if s < k {
      assert In(line[s], Word);
      assert In(line[k], Space);
      SkipLongest(line, s, Word);
      assert Skip(line, s, Word) == k;
      SkipLongest(line, k, Space);
      assert Skip(line, k, Space) == j;
    }
  }

  /** The path between two quotes is captured. */
  lemma QuotedDetermined(line: string, j: int, q: int)
    requires QuotedAt(line, j, q)
    ensures QuotedPath(line, j) == Some(line[j + 1..q])
  {
    SkipLongest(line, j + 1, NotQuote);
    assert Skip(line, j + 1, NotQuote) == q;
  }

  /** A captured path is non-empty and holds no quote; a line starting with a comment never
      matches. */
  lemma ImportPathShape(line: string)
    ensures ImportPath(line).Some? ==>
      var p := ImportPath(line).value;
      p != "" && forall t :: 0 <= t < |p| ==> p[t] != '"'
    ensures HasPrefix(line, "//") ==> ImportPath(line).None?
  {
    if ImportPath(line).Some? {
      var i0 := Skip(line, 0, Space);
      var j := QuoteStart(line, Skip(line, i0 + 6, Space));
      SkipLongest(line, j + 1, NotQuote);
    }
    if HasPrefix(line, "//") {
      assert line[0] == '/';
      assert Skip(line, 0, Space) == 0;
    }
  }

  // ---------------------------------------------------------------------------------------
  // checkFileImports

  /** One recorded message: the file, the 1-based line number, the library and its alternative. */
  datatype LintError = LintError(path: string, lineNum: nat, imported: string, alternative: string)

  /** A line that imports a forbidden library without the ignore marker. */
  predicate Violation(line: string) {
    && ImportPath(line).Some?
    && ImportPath(line).value in ForbiddenImports
    && !Contains(line, IgnoreMarker)
  }

  /** The message for line number `lineNum`, when that line is a violation. */
  function LineError(path: string, lineNum: nat, line: string): (r: Option<LintError>)
    ensures r.Some? <==> Violation(line)
    ensures r.Some? ==>
      && r.value.path == path && r.value.lineNum == lineNum
      && r.value.imported == ImportPath(line).value
      && r.value.alternative == ForbiddenImports[r.value.imported]
  {
    if Violation(line) then
      var lib := ImportPath(line).value;
      Some(LintError(path, lineNum, lib, ForbiddenImports[lib]))
    else None
  }

  /** A per-line classifier: the message, if any, for a line of a file given its number. */
  type Classifier = (string, nat, string) -> Option<LintError>

  /** Every message of the classifier carries the number of the line it is for. */
  ghost predicate Numbered(f: Classifier) {
    forall path, n, line :: f(path, n, line).Some? ==> f(path, n, line).value.lineNum == n
  }

  lemma LineErrorNumbered()
    ensures Numbered(LineError)
  {
    forall path, n, line | LineError(path, n, line).Some?
      ensures LineError(path, n, line).value.lineNum == n
    {
    }
  }

  /** The messages of the lines of a file under `f`, in strictly increasing line order. */
  function Collect(path: string, lines: seq<string>, f: Classifier): (r: seq<LintError>)
    requires Numbered(f)
    ensures |r| <= |lines|
    ensures forall i :: 0 <= i < |r| ==> 1 <= r[i].lineNum <= |lines|
    ensures forall i, i' :: 0 <= i < i' < |r| ==> r[i].lineNum < r[i'].lineNum
  {
    if |lines| == 0 then []
    else
      var before := Collect(path, lines[..|lines| - 1], f);
      match f(path, |lines|, lines[|lines| - 1])
      case Some(e) => before + [e]
      case None => before
  }

  /** The message at position i is the message of the line its number names. */
  lemma {:induction false} CollectSound(path: string, lines: seq<string>, f: Classifier, i: int)
    requires Numbered(f) && 0 <= i < |Collect(path, lines, f)|
    ensures f(path, Collect(path, lines, f)[i].lineNum, lines[Collect(path, lines, f)[i].lineNum - 1])
      == Some(Collect(path, lines, f)[i])
    decreases |lines|
  {
    var front := lines[..|lines| - 1];
    var before := Collect(path, front, f);
    var r := Collect(path, lines, f);
    if i < |before| {
      assert r[i] == before[i];
      CollectSound(path, front, f, i);
      assert lines[before[i].lineNum - 1] == front[before[i].lineNum - 1];
    }
  }

  /** Every line the classifier gives a message has that message in the result. */
  lemma {:induction false} CollectComplete(path: string, lines: seq<string>, f: Classifier, n: int)
    requires Numbered(f) && 0 <= n < |lines| && f(path, n + 1, lines[n]).Some?
    ensures exists i :: 0 <= i < |Collect(path, lines, f)| && Collect(path, lines, f)[i] == f(path, n + 1, lines[n]).value
    decreases |lines|
  {
    var r := Collect(path, lines, f);
    if n == |lines| - 1 {
      assert r[|r| - 1] == f(path, n + 1, lines[n]).value;
    } else {
      var front := lines[..|lines| - 1];
      assert front[n] == lines[n];
      CollectComplete(path, front, f, n);
      var before := Collect(path, front, f);
      var i :| 0 <= i < |before| && before[i] == f(path, n + 1, lines[n]).value;
      assert r[i] == before[i];
    }
  }

  /** The messages for the lines of a file, in strictly increasing line order. */
  function FileErrors(path: string, lines: seq<string>): (r: seq<LintError>)
    ensures |r| <= |lines|
    ensures forall i :: 0 <= i < |r| ==> 1 <= r[i].lineNum <= |lines|
    ensures forall i, i' :: 0 <= i < i' < |r| ==> r[i].lineNum < r[i'].lineNum
  {
    LineErrorNumbered();
    Collect(path, lines, LineError)
  }

  /** Every message is the message of the line its number names: the line is a violation and the
      message carries its library and the library's alternative. */
  lemma FileErrorsSound(path: string, lines: seq<string>)
    ensures forall i :: 0 <= i < |FileErrors(path, lines)| ==>
      LineError(path, FileErrors(path, lines)[i].lineNum, lines[FileErrors(path, lines)[i].lineNum - 1])
        == Some(FileErrors(path, lines)[i])
  {
    LineErrorNumbered();
    forall i | 0 <= i < |FileErrors(path, lines)|
      ensures LineError(path, FileErrors(path, lines)[i].lineNum, lines[FileErrors(path, lines)[i].lineNum - 1])
        == Some(FileErrors(path, lines)[i])
    {
      CollectSound(path, lines, LineError, i);
    }
  }

  /** Every violating line has its message, numbered with the line. */
  lemma FileErrorsComplete(path: string, lines: seq<string>, n: int)
    requires 0 <= n < |lines| && Violation(lines[n])
    ensures exists i :: 0 <= i < |FileErrors(path, lines)| && FileErrors(path, lines)[i] == LineError(path, n + 1, lines[n]).value
  {
    LineErrorNumbered();
    CollectComplete(path, lines, LineError, n);
    var i :| 0 <= i < |Collect(path, lines, LineError)|
      && Collect(path, lines, LineError)[i] == LineError(path, n + 1, lines[n]).value;
    assert FileErrors(path, lines)[i] == LineError(path, n + 1, lines[n]).value;
  }

  /** `checkFileImports` over the lines the scanner delivers, or the error of opening or
      scanning the file. */
  method CheckFileImports(path: string, contents: Result<seq<string>>) returns (r: Result<seq<LintError>>)
    ensures contents.Err? ==> r == Err(contents.msg)
    ensures contents.Ok? ==> r == Ok(FileErrors(path, contents.value))
  {
    if contents.Err? {
      return Err(contents.msg);
    }
    var lines := contents.value;
    var errors: seq<LintError> := [];
    var lineNum := 0;
    while lineNum < |lines|
      invariant 0 <= lineNum <= |lines|
      invariant errors == FileErrors(path, lines[..lineNum])
    {
      assert lines[..lineNum + 1][..lineNum] == lines[..lineNum];
      var line := lines[lineNum];
      lineNum := lineNum + 1;
      var matches := ImportPath(line);
      if matches.Some? {
        var importedLib := matches.value;
        if importedLib in ForbiddenImports {
          if Contains(line, IgnoreMarker) {
            continue;
          }
          errors := errors + [LintError(path, lineNum, importedLib, ForbiddenImports[importedLib])];
        }
      }
    }
    assert lines[..|lines|] == lines;
    return Ok(errors);
  }

  // ---------------------------------------------------------------------------------------
  // Lint

  /** One entry of a directory walk, with what reading it as lines would give. */
  datatype FileEntry = FileEntry(path: string, isDir: bool, contents: Result<seq<string>>)

  /** A walked directory: its entries in walk order and the error, if any, that ended the walk
      after them. */
  datatype DirWalk = DirWalk(dir: string, entries: seq<FileEntry>, walkError: Option<string>)

  predicate IsOdinFile(e: FileEntry) {
    !e.isDir && HasSuffix(e.path, ".odin")
  }

  /** The violations of the Odin files among `entries`, or the first file that could not be
      checked. */
  function EntriesViolations(entries: seq<FileEntry>): Result<nat> {
    if |entries| == 0 then Ok(0)
    else
      var e := entries[0];
      var rest := EntriesViolations(entries[1..]);
      if !IsOdinFile(e) then rest
      else if e.contents.Err? then Err("checking file " + e.path + ": " + e.contents.msg)
      else if rest.Err? then rest
      else Ok(|FileErrors(e.path, e.contents.value)| + rest.value)
  }

  function DirViolations(w: DirWalk): Result<nat> {
    var r := EntriesViolations(w.entries);
    if r.Err? then Err("walking directory " + w.dir + ": " + r.msg)
    else if w.walkError.Some? then Err("walking directory " + w.dir + ": " + w.walkError.value)
    else r
  }

  datatype LintOutcome = Passed | Found(count: nat) | WalkFailed(msg: string)

  /** What `Lint` reports for the source and vendor directories. */
  function LintOf(src: DirWalk, vendor: DirWalk): (r: LintOutcome)
    ensures r == Passed <==>
      DirViolations(src) == Ok(0) && DirViolations(vendor) == Ok(0)
    ensures r.Found? ==>
      DirViolations(src).Ok? && DirViolations(vendor).Ok? &&
      r.count == DirViolations(src).value + DirViolations(vendor).value > 0
  {
    var a := DirViolations(src);
    if a.Err? then WalkFailed(a.msg)
    else
      var b := DirViolations(vendor);
      if b.Err? then WalkFailed(b.msg)
      else if a.value + b.value > 0 then Found(a.value + b.value)
      else Passed
  }

  /** The walk of one directory, accumulating violations file by file. */
  method ScanDir(w: DirWalk) returns (r: Result<nat>)
    ensures r == DirViolations(w)
  {
    var count := 0;
    var i := 0;
    while i < |w.entries|
      invariant 0 <= i <= |w.entries|
      invariant EntriesViolations(w.entries) ==
        (var rest := EntriesViolations(w.entries[i..]); if rest.Err? then rest else Ok(count + rest.value))
    {
      var e := w.entries[i];
      assert w.entries[i..][0] == e && w.entries[i..][1..] == w.entries[i + 1..];
      if !e.isDir && HasSuffix(e.path, ".odin") {
        var fileErrors := CheckFileImports(e.path, e.contents);
        if fileErrors.Err? {
          return Err("walking directory " + w.dir + ": " + "checking file " + e.path + ": " + fileErrors.msg);
        }
        count := count + |fileErrors.value|;
      }
      i := i + 1;
    }
    assert w.entries[|w.entries|..] == [];
    if w.walkError.Some? {
      return Err("walking directory " + w.dir + ": " + w.walkError.value);
    }
    return Ok(count);
  }

  /** `Lint`: the first directory that fails ends it; otherwise it fails exactly when the two
      directories hold a violation between them. */
  method Lint(src: DirWalk, vendor: DirWalk) returns (r: LintOutcome)
    ensures r == LintOf(src, vendor)
  {
    var violationCount := 0;
    var a := ScanDir(src);
    if a.Err? {
      return WalkFailed(a.msg);
    }
    violationCount := violationCount + a.value;
    var b := ScanDir(vendor);
    if b.Err? {
      return WalkFailed(b.msg);
    }
    violationCount := violationCount + b.value;
    if violationCount > 0 {
      return Found(violationCount);
    }
    return Passed;
  }
}
