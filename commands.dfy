/** ppcgrader's command table and the helpers its test commands share:
    expanding test globs, reading a test's time limit, the "no tests" exit
    message, the compiler check of test-uninit and the test collection of the
    memcheck family. The file system is an oracle: `pathExists` answers
    os.path.exists and `matches` answers glob.glob (in any order). */
module Commands {
  import opened Strs

  // ---------------------------------------------------------------------------
  // The command table
  // ---------------------------------------------------------------------------

  datatype Flavor = Cpu | Gpu | Any

  /** The command classes of ppcgrader. */
  datatype Command =
    | Assembly | Compile | CompileDebug | CompileDemo | RunDemo
    | TestAsan | TestUninit | TestPlain | Benchmark | BenchmarkCache
    | TestMemcheck | TestRacecheck | TestInitcheck | TestSynccheck

  /** The `name` attribute of each class. */
  function Name(c: Command): string
  {
    match c
    case Assembly => "assembly"
    case Compile => "compile"
    case CompileDebug => "compile-debug"
    case CompileDemo => "compile-demo"
    case RunDemo => "demo"
    case TestAsan => "test-asan"
    case TestUninit => "test-uninit"
    case TestPlain => "test-plain"
    case Benchmark => "benchmark-all"
    case BenchmarkCache => "benchmark-cache"
    case TestMemcheck => "test-memcheck-memcheck"
    case TestRacecheck => "test-memcheck-racecheck"
    case TestInitcheck => "test-memcheck-initcheck"
    case TestSynccheck => "test-memcheck-synccheck"
  }

  /** The `flavor` attribute: Command's default ANY, overridden by the memcheck
      base class and by test-uninit. */
  function FlavorOf(c: Command): Flavor
  {
    match c
    case TestMemcheck | TestRacecheck | TestInitcheck | TestSynccheck => Gpu
    case TestUninit => Cpu
    case _ => Any
  }

  /** The `allow_remote` attribute: Command's default True, overridden by the
      demo base class that compile-demo and demo derive from. */
  function AllowRemote(c: Command): bool
  {
    match c
    case CompileDemo | RunDemo => false
    case _ => true
  }

  /** The COMMANDS list, in order. */
  const COMMANDS: seq<Command> := [
    Assembly, Compile, CompileDebug, CompileDemo, RunDemo,
    TestAsan, TestUninit, TestPlain, Benchmark, BenchmarkCache,
    TestMemcheck, TestRacecheck, TestInitcheck, TestSynccheck
  ]

  /** The memcheck family is GPU-only, test-uninit is CPU-only, everything else
      runs anywhere, and only the two demo commands refuse to run remotely. */
  lemma GpuCommands(c: Command)
    ensures FlavorOf(c) == Gpu <==> StartsWith(Name(c), "test-memcheck-")
  {
    if c == BenchmarkCache {
      assert Name(c)[0] != 't';
    }
  }

  lemma CpuCommands(c: Command)
    ensures FlavorOf(c) == Cpu <==> Name(c) == "test-uninit"
  {
  }

  lemma LocalCommands(c: Command)
    ensures !AllowRemote(c) <==> Name(c) == "compile-demo" || Name(c) == "demo"
  {
  }

  // ---------------------------------------------------------------------------
  // expand_glob
  // ---------------------------------------------------------------------------

  /** What one pattern contributes: itself when it names an existing path,
      otherwise its glob matches in sorted order. */
  function PatternHits(pattern: string, pathExists: string -> bool, matches: string -> seq<string>): seq<string>
  {
    if pathExists(pattern) then [pattern] else SortStrings(matches(pattern))
  }

  /** The tests a list of patterns expands to, pattern by pattern. */
  function Expansion(patterns: seq<string>, pathExists: string -> bool, matches: string -> seq<string>): seq<string>
    decreases |patterns|
  {
    if patterns == [] then []
    else Expansion(patterns[..|patterns| - 1], pathExists, matches) + PatternHits(patterns[|patterns| - 1], pathExists, matches)
  }

  /** expand_glob: the given patterns, or the defaults when none are given. */
  method ExpandGlob(globs: seq<string>, default: seq<string>, pathExists: string -> bool, matches: string -> seq<string>)
    returns (tests: seq<string>)
    ensures globs != [] ==> tests == Expansion(globs, pathExists, matches)
    ensures globs == [] ==> tests == Expansion(default, pathExists, matches)
  {
    var patterns := if globs == [] then default else globs;
    tests := [];
    var i := 0;
    while i < |patterns|
      invariant 0 <= i <= |patterns|
      invariant tests == Expansion(patterns[..i], pathExists, matches)
    {
      ExpansionPrefixStep(patterns, i, pathExists, matches);
      var pattern := patterns[i];
      if pathExists(pattern) {
        tests := tests + [pattern];
      } else {
        tests := tests + SortStrings(matches(pattern));
      }
      i := i + 1;
    }
    assert patterns[..i] == patterns;
  }

  lemma ExpansionPrefixStep(patterns: seq<string>, i: nat, pathExists: string -> bool, matches: string -> seq<string>)
    requires i < |patterns|
    ensures Expansion(patterns[..i + 1], pathExists, matches) == Expansion(patterns[..i], pathExists, matches) + PatternHits(patterns[i], pathExists, matches)
  {
    assert patterns[..i + 1][..i] == patterns[..i];
  }

  lemma ExpansionSnoc(patterns: seq<string>, x: string, pathExists: string -> bool, matches: string -> seq<string>)
    ensures Expansion(patterns + [x], pathExists, matches) == Expansion(patterns, pathExists, matches) + PatternHits(x, pathExists, matches)
  {
    assert (patterns + [x])[..|patterns|] == patterns;
  }

  /** The output follows the pattern order: expanding two lists one after the
      other is expanding their concatenation. */
  lemma {:induction false} ExpansionAppend(a: seq<string>, b: seq<string>, pathExists: string -> bool, matches: string -> seq<string>)
    ensures Expansion(a + b, pathExists, matches) == Expansion(a, pathExists, matches) + Expansion(b, pathExists, matches)
    decreases |b|
  {
    if b == [] {
      assert a + b == a;
    } else {
      var b', x := b[..|b| - 1], b[|b| - 1];
      assert b == b' + [x];
      ExpansionAppend(a, b', pathExists, matches);
      AppendStep(a, b', x, pathExists, matches);
    }
  }

  lemma SnocAssociates<T>(a: seq<T>, b: seq<T>, x: T)
    ensures a + (b + [x]) == (a + b) + [x]
  {
  }

  lemma AppendStep(a: seq<string>, b: seq<string>, x: string, pathExists: string -> bool, matches: string -> seq<string>)
    requires Expansion(a + b, pathExists, matches) == Expansion(a, pathExists, matches) + Expansion(b, pathExists, matches)
    ensures Expansion(a + (b + [x]), pathExists, matches) == Expansion(a, pathExists, matches) + Expansion(b + [x], pathExists, matches)
  {
    SnocAssociates(a, b, x);
    ExpansionSnoc(a + b, x, pathExists, matches);
    ExpansionSnoc(b, x, pathExists, matches);
  }

  /** `t` is what pattern `p` contributes: `p` itself when it is a path,
      otherwise one of its glob matches. */
  predicate Hit(p: string, t: string, pathExists: string -> bool, matches: string -> seq<string>)
  {
    if pathExists(p) then t == p else t in matches(p)
  }

  lemma PatternHitsMembers(p: string, t: string, pathExists: string -> bool, matches: string -> seq<string>)
    ensures t in PatternHits(p, pathExists, matches) <==> Hit(p, t, pathExists, matches)
  {
    if !pathExists(p) {
      var sorted := SortStrings(matches(p));
      assert t in sorted <==> t in multiset(sorted);
      assert t in matches(p) <==> t in multiset(matches(p));
    }
  }

  /** Every test a pattern contributes is in the expansion ... */
  lemma {:induction false} ExpansionHas(patterns: seq<string>, p: string, t: string, pathExists: string -> bool, matches: string -> seq<string>)
    requires p in patterns && Hit(p, t, pathExists, matches)
    ensures t in Expansion(patterns, pathExists, matches)
    decreases |patterns|
  {
    var init, last := patterns[..|patterns| - 1], patterns[|patterns| - 1];
    assert patterns == init + [last];
    if p == last {
      PatternHitsMembers(last, t, pathExists, matches);
    } else {
      ExpansionHas(init, p, t, pathExists, matches);
    }
  }

  /** ... and every test in the expansion comes from some pattern. */
  lemma {:induction false} ExpansionSource(patterns: seq<string>, t: string, pathExists: string -> bool, matches: string -> seq<string>)
    returns (p: string)
    requires t in Expansion(patterns, pathExists, matches)
    ensures p in patterns && Hit(p, t, pathExists, matches)
    decreases |patterns|
  {
    assert patterns != [];
    var n := |patterns|;
    var init, last := patterns[..n - 1], patterns[n - 1];
    InExpansionStep(patterns, t, pathExists, matches);
    if t in PatternHits(last, pathExists, matches) {
      PatternHitsMembers(last, t, pathExists, matches);
      p := last;
    } else {
      p := ExpansionSource(init, t, pathExists, matches);
      InPrefix(patterns, n - 1, p);
    }
  }

  /** A test of a non-empty expansion comes from the last pattern or from the others. */
  lemma InExpansionStep(patterns: seq<string>, t: string, pathExists: string -> bool, matches: string -> seq<string>)
    requires patterns != [] && t in Expansion(patterns, pathExists, matches)
    ensures t in Expansion(patterns[..|patterns| - 1], pathExists, matches) || t in PatternHits(patterns[|patterns| - 1], pathExists, matches)
  {
  }

  lemma InPrefix<T>(s: seq<T>, k: nat, x: T)
    requires k <= |s| && x in s[..k]
    ensures x in s
  {
    var j :| 0 <= j < k && s[..k][j] == x;
    assert s[j] == x;
  }

  // ---------------------------------------------------------------------------
  // parse_timeout
  // ---------------------------------------------------------------------------

  /** The time limit of a test: none, an explicit number of seconds, the text
      after "timeout " on the test file's first line (which float() converts),
      or the IndexError a first line of just "timeout" raises. */
  datatype Timeout = NoLimit | Seconds(value: real) | FromFile(text: string) | IndexError

  /** parse_timeout, given the first line of the test file as readline()
      returns it. `timeout` is None or a float, truthy when non-zero. */
  function ParseTimeout(firstLine: string, timeout: Option<real>, noTimeout: bool): (r: Timeout)
    ensures noTimeout ==> r == NoLimit
    ensures !noTimeout && timeout.Some? && timeout.value != 0.0 ==> r == Seconds(timeout.value)
    ensures r.FromFile? || r.IndexError? <==>
      !noTimeout && (timeout == None || timeout == Some(0.0)) && Split(firstLine, ' ')[0] == "timeout"
    ensures r.FromFile? ==> |Split(firstLine, ' ')| >= 2 && r.text == Split(firstLine, ' ')[1]
    ensures r.IndexError? ==> |Split(firstLine, ' ')| < 2
    ensures !noTimeout && (timeout == None || timeout == Some(0.0)) && Split(firstLine, ' ')[0] != "timeout" ==> r == NoLimit
  {
    if noTimeout then NoLimit
    else if timeout.Some? && timeout.value != 0.0 then Seconds(timeout.value)
    else
      var words := Split(firstLine, ' ');
      if words[0] == "timeout" then
        if |words| >= 2 then FromFile(words[1]) else IndexError
      else NoLimit
  }

  /** A test file that starts with the line "timeout X" gets X as its limit
      (with the line break float() ignores) unless the command line decides. */
  lemma TimeoutLine(x: string, timeout: Option<real>)
    requires ' ' !in x && '\n' !in x
    ensures ParseTimeout("timeout " + x + "\n", timeout, false) ==
      if timeout.Some? && timeout.value != 0.0 then Seconds(timeout.value) else FromFile(x + "\n")
  {
    var pieces := ["timeout", x + "\n"];
    assert forall i :: 0 <= i < |pieces| ==> ' ' !in pieces[i];
    SplitJoin(pieces, ' ');
    assert Join(pieces, [' ']) == "timeout " + x + "\n";
  }

  // ---------------------------------------------------------------------------
  // no_tests_error
  // ---------------------------------------------------------------------------

  function Quote(tests: seq<string>): (r: seq<string>)
    ensures |r| == |tests|
    ensures forall i :: 0 <= i < |r| ==> r[i] == "\"" + tests[i] + "\""
  {
    if tests == [] then [] else ["\"" + tests[0] + "\""] + Quote(tests[1..])
  }

  /** The folder list of the message: the only folder, or "a, b or c". */
  function DirNames(dirs: seq<string>): string
    requires |dirs| > 0
  {
    if |dirs| == 1 then dirs[0] else Join(dirs[..|dirs| - 1], ", ") + " or " + dirs[|dirs| - 1]
  }

  const UNMATCHED_HEAD: string := "The specified tests "
  const UNMATCHED_TAIL: string := " don't match any files. Please give a path to test file or a glob expanding to tests"
  const DEFAULT_HEAD: string := "Couldn't find default tests. Have you accidentally deleted "
  const ITS_TAIL: string := " folder, or its contents?"
  const THEIR_TAIL: string := " folder, or their contents?"

  /** The text no_tests_error exits with. The source asserts that it is given
      folders when it is given no tests. */
  function NoTestsError(origTests: seq<string>, dirs: seq<string>): string
    requires origTests != [] || |dirs| > 0
  {
    if origTests != [] then
      UNMATCHED_HEAD + Join(Quote(origTests), ", ") + UNMATCHED_TAIL
    else
      DEFAULT_HEAD + DirNames(dirs) + (if |dirs| == 1 then ITS_TAIL else THEIR_TAIL)
  }

  /** The message about tests given on the command line quotes every one of them. */
  lemma NoTestsErrorQuotes(origTests: seq<string>, dirs: seq<string>, i: nat) returns (k: int)
    requires i < |origTests|
    ensures OccursAt("\"" + origTests[i] + "\"", NoTestsError(origTests, dirs), k)
    ensures StartsWith(NoTestsError(origTests, dirs), UNMATCHED_HEAD)
  {
    var q := Quote(origTests);
    var k' := JoinHasPiece(q, ", ", i);
    OccursWithin(q[i], Join(q, ", "), k', UNMATCHED_HEAD, UNMATCHED_TAIL);
    k := |UNMATCHED_HEAD| + k';
  }

  lemma TailOf(x: string, tail: string)
    ensures |tail| <= |x + tail| && (x + tail)[|x + tail| - |tail|..] == tail
  {
  }

  /** The closing words of the message about the default tests: "its" for one
      folder, "their" for several. */
  lemma NoTestsErrorTail(dirs: seq<string>)
    requires |dirs| > 0
    ensures var msg := NoTestsError([], dirs);
      var tail := if |dirs| == 1 then ITS_TAIL else THEIR_TAIL;
      |tail| <= |msg| && msg[|msg| - |tail|..] == tail
  {
    var head := DEFAULT_HEAD + DirNames(dirs);
    var tail := if |dirs| == 1 then ITS_TAIL else THEIR_TAIL;
    assert NoTestsError([], dirs) == head + tail;
    TailOf(head, tail);
  }

  /** The message about the default tests names every folder. */
  lemma NoTestsErrorDirs(dirs: seq<string>, i: nat) returns (k: int)
    requires i < |dirs|
    ensures OccursAt(dirs[i], NoTestsError([], dirs), k)
  {
    var tail := if |dirs| == 1 then ITS_TAIL else THEIR_TAIL;
    assert NoTestsError([], dirs) == DEFAULT_HEAD + DirNames(dirs) + tail;
    var k' := DirNamesHas(dirs, i);
    OccursWithin(dirs[i], DirNames(dirs), k', DEFAULT_HEAD, tail);
    k := |DEFAULT_HEAD| + k';
  }

  lemma DirNamesHas(dirs: seq<string>, i: nat) returns (k: int)
    requires i < |dirs|
    ensures OccursAt(dirs[i], DirNames(dirs), k)
  {
    if |dirs| == 1 {
      k := 0;
      assert DirNames(dirs)[0..|dirs[0]|] == dirs[0];
    } else {
      var init, last := dirs[..|dirs| - 1], dirs[|dirs| - 1];
      var left := Join(init, ", ") + " or ";
      assert DirNames(dirs) == left + last;
      if i == |dirs| - 1 {
        k := |left|;
        OccursAtEnd(last, left);
      } else {
        k := JoinHasPiece(init, ", ", i);
        OccursInPrefix(init[i], Join(init, ", "), k, " or ");
        OccursInPrefix(init[i], left, k, last);
      }
    }
  }

  lemma OccursAtEnd(t: string, m: string)
    ensures OccursAt(t, m + t, |m|)
  {
    assert (m + t)[|m|..|m| + |t|] == t;
  }

  lemma OccursInPrefix(t: string, m: string, k: int, r: string)
    requires OccursAt(t, m, k)
    ensures OccursAt(t, m + r, k)
  {
    assert (m + r)[k..k + |t|] == m[k..k + |t|];
  }

  // ---------------------------------------------------------------------------
  // Test collection
  // ---------------------------------------------------------------------------

  /** The tests to run, or the message the process exits with. */
  datatype Collected = Tests(tests: seq<string>) | Exit(message: string)

  const TEST_DEFAULTS: seq<string> := ["tests/*", "benchmarks/*"]
  const TEST_DIRS: seq<string> := ["tests", "benchmarks"]
  const SMALL_DEFAULTS: seq<string> := ["tests/*"]
  const SMALL_DIRS: seq<string> := ["tests"]
  const MEMCHECK_DEFAULTS: seq<string> := ["tests/*memcheck*"]
  const MEDIUM_DEFAULTS: seq<string> := ["tests/*medium*"]

  /** The patterns expand_glob uses. */
  function Patterns(globs: seq<string>, default: seq<string>): seq<string>
  {
    if globs == [] then default else globs
  }

  /** collect_tests of the test commands (`defaults` and `dirs` are
      TEST_DEFAULTS/TEST_DIRS, or SMALL_DEFAULTS/SMALL_DIRS for test-asan):
      the expansion, or an exit when it is empty. */
  method CollectTests(userTests: seq<string>, defaults: seq<string>, dirs: seq<string>,
                      pathExists: string -> bool, matches: string -> seq<string>) returns (r: Collected)
    requires |dirs| > 0
    ensures var found := Expansion(Patterns(userTests, defaults), pathExists, matches);
      r == if found != [] then Tests(found) else Exit(NoTestsError(userTests, dirs))
  {
    var tests := ExpandGlob(userTests, defaults, pathExists, matches);
    if tests == [] {
      return Exit(NoTestsError(userTests, dirs));
    }
    return Tests(tests);
  }

  /** collect_tests of the memcheck family: the memcheck tests, falling back
      to the medium tests only when there are none. */
  method CollectMemcheckTests(userTests: seq<string>, pathExists: string -> bool, matches: string -> seq<string>)
    returns (r: Collected)
    ensures var first := Expansion(Patterns(userTests, MEMCHECK_DEFAULTS), pathExists, matches);
      var second := Expansion(Patterns(userTests, MEDIUM_DEFAULTS), pathExists, matches);
      r == if first != [] then Tests(first)
           else if second != [] then Tests(second)
           else Exit(NoTestsError(userTests, SMALL_DIRS))
  {
    var tests := ExpandGlob(userTests, MEMCHECK_DEFAULTS, pathExists, matches);
    if tests == [] {
      tests := ExpandGlob(userTests, MEDIUM_DEFAULTS, pathExists, matches);
    }
    if tests == [] {
      return Exit(NoTestsError(userTests, SMALL_DIRS));
    }
    return Tests(tests);
  }

  /** With tests given on the command line the fallback repeats the same
      expansion, so the memcheck collection then agrees with every other. */
  lemma MemcheckUserTests(userTests: seq<string>, pathExists: string -> bool, matches: string -> seq<string>)
    requires userTests != []
    ensures Expansion(Patterns(userTests, MEMCHECK_DEFAULTS), pathExists, matches) ==
            Expansion(Patterns(userTests, MEDIUM_DEFAULTS), pathExists, matches) ==
            Expansion(Patterns(userTests, SMALL_DEFAULTS), pathExists, matches)
  {
  }

  // ---------------------------------------------------------------------------
  // test-uninit compiler checks
  // ---------------------------------------------------------------------------

  /** A compiler with its major version. */
  datatype Compiler = Gcc(major: int) | Clang(major: int) | Nvcc(major: int)

  /** _gcc_check: None unless the compiler is a GCC. */
  function GccCheck(c: Option<Compiler>): (r: Option<bool>)
    ensures r.Some? <==> c.Some? && c.value.Gcc?
    ensures r == Some(true) <==> c.Some? && c.value.Gcc? && c.value.major >= 12
  {
    match c
    case Some(Gcc(major)) => Some(major >= 12)
    case _ => None
  }

  /** _clang_check: None unless the compiler is a Clang. */
  function ClangCheck(c: Option<Compiler>): (r: Option<bool>)
    ensures r.Some? <==> c.Some? && c.value.Clang?
    ensures r == Some(true) <==> c.Some? && c.value.Clang? && c.value.major >= 8
  {
    match c
    case Some(Clang(major)) => Some(major >= 8)
    case _ => None
  }

  /** The compilers that support -ftrivial-auto-var-init=pattern. */
  predicate SupportsPatternInit(c: Compiler)
  {
    (c.Gcc? && c.major >= 12) || (c.Clang? && c.major >= 8)
  }

  /** What a compiler search ends in: a compiler, or none, or the exit of
      sys.exit with its message. */
  datatype Search = Chosen(compiler: Option<Compiler>) | NoCompiler(message: string)

  const NO_COMPILER := "I'm sorry, I could not find a suitable compiler."

  /** Command._find_compiler: the given compiler, else the one the
      configuration finds (`configured`); with neither, the exit. */
  function FindCompiler(given: Option<Compiler>, configured: Option<Compiler>): (r: Search)
    ensures r.NoCompiler? <==> given == None && configured == None
    ensures r.NoCompiler? ==> r.message == NO_COMPILER
    ensures r.Chosen? ==> r.compiler.Some? && (given.Some? ==> r.compiler == given) && (given == None ==> r.compiler == configured)
  {
    var compiler := if given == None then configured else given;
    if compiler == None then NoCompiler(NO_COMPILER) else Chosen(compiler)
  }

  /** _find_compiler of test-uninit. It first runs the base search with no
      compiler given, which exits when the configuration finds none, whatever
      compiler was given. Then it keeps the given compiler if it passes either
      check; with none given, the GCC found if it passes, else the Clang found
      if it passes; otherwise none. */
  function FindUninitCompiler(given: Option<Compiler>, configured: Option<Compiler>,
                              foundGcc: Option<Compiler>, foundClang: Option<Compiler>): (r: Search)
    ensures r.NoCompiler? <==> configured == None
    ensures r.NoCompiler? ==> r.message == NO_COMPILER
    ensures r.Chosen? && given.Some? ==> (r.compiler.Some? <==> SupportsPatternInit(given.value)) && (r.compiler.Some? ==> r.compiler == given)
    ensures r.Chosen? && r.compiler.Some? ==> SupportsPatternInit(r.compiler.value)
    ensures configured.Some? && given == None && foundGcc.Some? && foundGcc.value.Gcc? && foundGcc.value.major >= 12 ==> r == Chosen(foundGcc)
    ensures configured.Some? && given == None && GccCheck(foundGcc) != Some(true) ==>
      r == Chosen(if ClangCheck(foundClang) == Some(true) then foundClang else None)
  {
    match FindCompiler(None, configured)
    case NoCompiler(message) => NoCompiler(message)
    case Chosen(_) =>
      Chosen(
        if given == None then
          if GccCheck(foundGcc) == Some(true) then foundGcc
          else if ClangCheck(foundClang) == Some(true) then foundClang
          else None
        else if GccCheck(given) == Some(true) then given
        else if ClangCheck(given) == Some(true) then given
        else None)
  }
}
