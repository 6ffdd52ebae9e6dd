/** The command-line layer of ppcgrader: macro names that stand for several
    commands, resolving a command name against the command table, and the
    `--flag` / `--no-flag` action it registers for boolean options. */
module Args {
  import opened Strs
  import opened Commands

  // ---------------------------------------------------------------------------
  // Command macros
  // ---------------------------------------------------------------------------

  /** The commands a name stands for: the test and benchmark macros, the
      memcheck macro on GPU exercises, and otherwise the name itself. */
  function MacroExpansion(command: string, gpu: bool): (r: seq<string>)
  {
    if command == "test" then
      if gpu then ["test-asan", "test-memcheck-memcheck", "test-memcheck-initcheck", "test-memcheck-synccheck", "test-plain"]
      else ["test-asan", "test-uninit", "test-plain"]
    else if command == "benchmark" then ["benchmark-all"]
    else if command == "test-memcheck" && gpu then ["test-memcheck-memcheck", "test-memcheck-initcheck", "test-memcheck-synccheck"]
    else [command]
  }

  /** expand_macro: builds the macro dictionary list by list, then looks the
      name up in it. */
  method ExpandMacro(command: string, gpu: bool) returns (expanded: seq<string>)
    ensures expanded == MacroExpansion(command, gpu)
  {
    var macros: map<string, seq<string>> := map["test" := [], "benchmark" := []];
    macros := macros["test" := macros["test"] + ["test-asan"]];
    if !gpu {
      macros := macros["test" := macros["test"] + ["test-uninit"]];
    }
    macros := macros["benchmark" := macros["benchmark"] + ["benchmark-all"]];
    if gpu {
      macros := macros["test" := macros["test"] + ["test-memcheck-memcheck", "test-memcheck-initcheck", "test-memcheck-synccheck"]];
      macros := macros["test-memcheck" := ["test-memcheck-memcheck", "test-memcheck-initcheck", "test-memcheck-synccheck"]];
    }
    macros := macros["test" := macros["test"] + ["test-plain"]];
    expanded := if command in macros then macros[command] else [command];
  }

  /** A macro never expands to nothing, and a name that is not a macro stands
      for itself; "test-memcheck" is a macro only on GPU exercises. */
  lemma ExpansionShape(command: string, gpu: bool)
    ensures |MacroExpansion(command, gpu)| >= 1
    ensures command != "test" && command != "benchmark" && command != "test-memcheck" ==> MacroExpansion(command, gpu) == [command]
    ensures command == "test-memcheck" && !gpu ==> MacroExpansion(command, gpu) == [command]
    ensures "test-memcheck-racecheck" !in MacroExpansion(command, gpu) || command == "test-memcheck-racecheck"
  {
  }

  // ---------------------------------------------------------------------------
  // command_from_name
  // ---------------------------------------------------------------------------

  /** A dictionary comprehension {c.name: c for c in commands if keep(c)};
      a later entry would overwrite an earlier one with the same name. */
  function Table(commands: seq<Command>, keep: Command -> bool): map<string, Command>
    decreases |commands|
  {
    if commands == [] then map[]
    else
      var c := commands[|commands| - 1];
      var rest := Table(commands[..|commands| - 1], keep);
      if keep(c) then rest[Name(c) := c] else rest
  }

  lemma {:induction false} TableEntries(commands: seq<Command>, keep: Command -> bool, name: string)
    ensures name in Table(commands, keep) <==> exists c :: c in commands && keep(c) && Name(c) == name
    ensures name in Table(commands, keep) ==>
      var c := Table(commands, keep)[name]; c in commands && keep(c) && Name(c) == name
    decreases |commands|
  {
    if commands != [] {
      var init, last := commands[..|commands| - 1], commands[|commands| - 1];
      TableEntries(init, keep, name);
      assert commands == init + [last];
      assert forall c :: c in commands <==> c in init || c == last;
    }
  }

  /** The commands available: every non-GPU command, plus the GPU ones on GPU
      exercises. */
  function Available(gpu: bool): map<string, Command>
  {
    var commands := Table(COMMANDS, c => FlavorOf(c) != Gpu);
    if gpu then commands + Table(COMMANDS, c => FlavorOf(c) == Gpu) else commands
  }

  /** A resolved command, or the ArgumentError raised for an unknown name. */
  datatype Resolved = Found(command: Command) | ArgumentError(message: string)

  /** command_from_name: GPU-flavoured commands resolve only on GPU exercises. */
  function CommandFromName(command: string, gpu: bool): (r: Resolved)
    ensures r.Found? <==> exists c :: c in COMMANDS && Name(c) == command && (gpu || FlavorOf(c) != Gpu)
    ensures r.Found? ==> r.command in COMMANDS && Name(r.command) == command && (gpu || FlavorOf(r.command) != Gpu)
    ensures r.ArgumentError? ==> r.message == "Unknown command " + command
  {
    TableEntries(COMMANDS, c => FlavorOf(c) != Gpu, command);
    TableEntries(COMMANDS, c => FlavorOf(c) == Gpu, command);
    var commands := Available(gpu);
    if command !in commands then ArgumentError("Unknown command " + command)
    else Found(commands[command])
  }

  /** The command classes a macro stands for. */
  function MacroCommands(command: string, gpu: bool): seq<Command>
  {
    if command == "test" then
      if gpu then [TestAsan, TestMemcheck, TestInitcheck, TestSynccheck, TestPlain]
      else [TestAsan, TestUninit, TestPlain]
    else if command == "benchmark" then [Benchmark]
    else [TestMemcheck, TestInitcheck, TestSynccheck]
  }

  lemma MacroNames(command: string, gpu: bool)
    requires command == "test" || command == "benchmark" || (command == "test-memcheck" && gpu)
    ensures |MacroCommands(command, gpu)| == |MacroExpansion(command, gpu)|
    ensures forall i :: 0 <= i < |MacroExpansion(command, gpu)| ==> Name(MacroCommands(command, gpu)[i]) == MacroExpansion(command, gpu)[i]
  {
  }

  /** Every command a macro stands for resolves, on the kind of exercise the
      macro was expanded for. */
  lemma MacrosResolve(command: string, gpu: bool, i: nat)
    requires command == "test" || command == "benchmark" || (command == "test-memcheck" && gpu)
    requires i < |MacroExpansion(command, gpu)|
    ensures CommandFromName(MacroExpansion(command, gpu)[i], gpu).Found?
  {
    MacroNames(command, gpu);
    var c := MacroCommands(command, gpu)[i];
    assert c in COMMANDS && (gpu || FlavorOf(c) != Gpu);
  }

  // ---------------------------------------------------------------------------
  // BooleanOptionalAction
  // ---------------------------------------------------------------------------

  /** The negative twin of a long option: "--x" becomes "--no-x". */
  function Negation(option: string): (r: string)
    requires StartsWith(option, "--")
    ensures StartsWith(r, "--no-")
  {
    "--no-" + option[2..]
  }

  /** What one option registers: itself, followed by its twin when it is long. */
  function Twin(option: string): seq<string>
  {
    if StartsWith(option, "--") then [option, Negation(option)] else [option]
  }

  /** The option strings the action registers for `options`. */
  function Twinned(options: seq<string>): seq<string>
    decreases |options|
  {
    if options == [] then []
    else Twinned(options[..|options| - 1]) + Twin(options[|options| - 1])
  }

  /** The loop of BooleanOptionalAction.__init__. */
  method TwinOptions(options: seq<string>) returns (registered: seq<string>)
    ensures registered == Twinned(options)
  {
    registered := [];
    var i := 0;
    while i < |options|
      invariant 0 <= i <= |options|
      invariant registered == Twinned(options[..i])
    {
      var option := options[i];
      registered := registered + [option];
      if StartsWith(option, "--") {
        option := "--no-" + option[2..];
        registered := registered + [option];
      }
      assert options[..i + 1][..i] == options[..i];
      i := i + 1;
    }
    assert options[..i] == options;
  }

  lemma TwinnedSnoc(options: seq<string>, x: string)
    ensures Twinned(options + [x]) == Twinned(options) + Twin(x)
  {
    assert (options + [x])[..|options|] == options;
  }

  lemma {:induction false} TwinnedAppend(a: seq<string>, b: seq<string>)
    ensures Twinned(a + b) == Twinned(a) + Twinned(b)
    decreases |b|
  {
    if b == [] {
      assert a + b == a;
    } else {
      var b', x := b[..|b| - 1], b[|b| - 1];
      assert b == b' + [x];
      TwinnedAppend(a, b');
      TwinnedAppendStep(a, b', x);
    }
  }

  lemma TwinnedAppendStep(a: seq<string>, b: seq<string>, x: string)
    requires Twinned(a + b) == Twinned(a) + Twinned(b)
    ensures Twinned(a + (b + [x])) == Twinned(a) + Twinned(b + [x])
  {
    SnocAssociates(a, b, x);
    TwinnedSnoc(a + b, x);
    TwinnedSnoc(b, x);
  }

  /** Where option i lands among the registered strings. */
  function Slot(options: seq<string>, i: nat): nat
    requires i <= |options|
  {
    |Twinned(options[..i])|
  }

  /** The registered strings keep the options in their order, each long option
      immediately followed by its "--no-" twin. */
  lemma TwinnedLayout(options: seq<string>, i: nat)
    requires i < |options|
    ensures Slot(options, i) < Slot(options, i + 1) <= |Twinned(options)|
    ensures Twinned(options)[Slot(options, i)] == options[i]
    ensures StartsWith(options[i], "--") ==>
      Slot(options, i + 1) == Slot(options, i) + 2 && Twinned(options)[Slot(options, i) + 1] == Negation(options[i])
    ensures !StartsWith(options[i], "--") ==> Slot(options, i + 1) == Slot(options, i) + 1
  {
    var before, after := options[..i], options[i + 1..];
    assert options == (before + [options[i]]) + after;
    assert options[..i + 1] == before + [options[i]];
    TwinnedAppend(before + [options[i]], after);
    TwinnedSnoc(before, options[i]);
  }

  /** The help text: " (default: X)" is appended only when both the help and
      the default are given. The defaults of this action are booleans, which
      Python formats as True and False. */
  function HelpText(help: Option<string>, default: Option<bool>): (r: Option<string>)
    ensures r.Some? <==> help.Some?
    ensures help.Some? && default.Some? ==>
      StartsWith(r.value, help.value) && |r.value| > |help.value|
    ensures !(help.Some? && default.Some?) ==> r == help
  {
    if help.Some? && default.Some? then
      Some(help.value + " (default: " + (if default.value then "True" else "False") + ")")
    else help
  }

  /** The value an option string stores: False exactly for the "--no-" forms. */
  function Setting(option: string): bool
  {
    !StartsWith(option, "--no-")
  }

  /** A long option that is not itself a negation turns its flag on, and its
      twin turns it off. */
  lemma TwinPolarity(option: string)
    requires StartsWith(option, "--") && !StartsWith(option, "--no-")
    ensures Setting(option) && !Setting(Negation(option))
  {
  }

  /** The attributes argparse sets on its namespace. */
  class Namespace {
    var values: map<string, bool>

    constructor ()
      ensures values == map[]
    {
      values := map[];
    }
  }

  class BooleanOptionalAction {
    const optionStrings: seq<string>
    const dest: string
    const default: Option<bool>
    const help: Option<string>

    constructor (options: seq<string>, dest: string, default: Option<bool>, help: Option<string>)
      ensures optionStrings == Twinned(options)
      ensures this.dest == dest && this.default == default
      ensures this.help == HelpText(help, default)
    {
      var registered := TwinOptions(options);
      optionStrings := registered;
      this.dest := dest;
      this.default := default;
      this.help := HelpText(help, default);
    }

    /** __call__: a registered option string stores its setting under `dest`;
        anything else leaves the namespace as it was. */
    method Invoke(namespace: Namespace, optionString: Option<string>)
      modifies namespace
      ensures optionString.Some? && optionString.value in optionStrings ==>
        namespace.values == old(namespace.values)[dest := Setting(optionString.value)]
      ensures !(optionString.Some? && optionString.value in optionStrings) ==>
        namespace.values == old(namespace.values)
    {
      if optionString.Some? && optionString.value in optionStrings {
        namespace.values := namespace.values[dest := !StartsWith(optionString.value, "--no-")];
      }
    }
  }
}
