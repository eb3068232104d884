/** The engine's command line (main.cpp): `--help`/`-h` and `--version`/`-v`
    print and exit at once, `--debug` turns on debug logging,
    `--resources <path>` chooses the resources directory, anything else is
    an error.  `argv[0]` is the program name and is not an option. */
module CommandLine {

  /** Where argument parsing leaves `main`. */
  datatype Outcome =
    | Start(resourcesPath: string, debug: bool)   // go on to start the engine
    | ShowUsage                                   // usage printed, exit 0
    | ShowVersion                                 // version printed, exit 0
    | UnknownOption(arg: string)                  // error and usage printed, exit 1

  const DefaultResourcesPath: string := "resources/"

  /** The process exit status of an outcome that ends `main`; none while the
      engine is still to start. */
  function ExitCode(o: Outcome): (code: int)
    requires !o.Start?
    ensures code == 0 <==> (o.ShowUsage? || o.ShowVersion?)
    ensures code == 0 || code == 1
  {
    if o.UnknownOption? then 1 else 0
  }

  predicate IsHelp(arg: string) { arg == "--help" || arg == "-h" }
  predicate IsVersion(arg: string) { arg == "--version" || arg == "-v" }

  /** A directory name given with `--resources`, with `/` appended when it is
      missing (main.cpp:69-71); the empty string stays empty. */
  function WithSeparator(p: string): (r: string)
    ensures r == "" <==> p == ""
    ensures r != "" ==> r[|r| - 1] == '/'
    ensures p != "" && p[|p| - 1] == '/' ==> r == p
    ensures p != "" && p[|p| - 1] != '/' ==> r == p + "/"
  {
    if p != "" && p[|p| - 1] != '/' then p + "/" else p
  }

  /** The outcome of the loop of main.cpp:52-78 started at index `i` with the
      values `path` and `debug` gathered so far. */
  function ParseFrom(argv: seq<string>, i: nat, path: string, debug: bool): (r: Outcome)
    ensures r.UnknownOption? ==> exists j :: i <= j < |argv| && argv[j] == r.arg
    ensures r.UnknownOption? ==> !IsHelp(r.arg) && !IsVersion(r.arg) && r.arg != "--debug"
    ensures r.ShowUsage? ==> exists j :: i <= j < |argv| && IsHelp(argv[j])
    ensures r.ShowVersion? ==> exists j :: i <= j < |argv| && IsVersion(argv[j])
    ensures r.Start? && (forall j :: i <= j < |argv| ==> argv[j] != "--resources") ==> r.resourcesPath == path
    decreases |argv| - i
  {
    if i >= |argv| then Start(path, debug)
    else if IsHelp(argv[i]) then ShowUsage
    else if IsVersion(argv[i]) then ShowVersion
    else if argv[i] == "--debug" then ParseFrom(argv, i + 1, path, true)
    else if argv[i] == "--resources" && i + 1 < |argv| then
      ParseFrom(argv, i + 2, WithSeparator(argv[i + 1]), debug)
    else UnknownOption(argv[i])
  }

  /** The outcome of `main`'s argument parsing for `argv`: the program name
      `argv[0]` is never taken for an option, and without `--resources` the
      engine starts on the default directory. */
  function Parse(argv: seq<string>): (r: Outcome)
    ensures r.UnknownOption? ==> exists j :: 1 <= j < |argv| && argv[j] == r.arg
    ensures r.ShowUsage? ==> exists j :: 1 <= j < |argv| && IsHelp(argv[j])
    ensures r.ShowVersion? ==> exists j :: 1 <= j < |argv| && IsVersion(argv[j])
    ensures r.Start? && (forall j :: 1 <= j < |argv| ==> argv[j] != "--resources") ==>
      r.resourcesPath == DefaultResourcesPath
  {
    ParseFrom(argv, 1, DefaultResourcesPath, false)
  }

  /** The parsing loop of `main` (main.cpp:47-78). */
  method ParseArguments(argv: seq<string>) returns (o: Outcome)
    ensures o == Parse(argv)
  {
    var resourcesPath := DefaultResourcesPath;
    var debugMode := false;
    var i := 1;
    while i < |argv|
      invariant 1 <= i
      invariant ParseFrom(argv, i, resourcesPath, debugMode) == Parse(argv)
      decreases |argv| - i
    {
      var arg := argv[i];
      if IsHelp(arg) {
        return ShowUsage;
      } else if IsVersion(arg) {
        return ShowVersion;
      } else if arg == "--debug" {
        debugMode := true;
      } else if arg == "--resources" && i + 1 < |argv| {
        i := i + 1;
        resourcesPath := argv[i];
        if resourcesPath != "" && resourcesPath[|resourcesPath| - 1] != '/' {
          resourcesPath := resourcesPath + "/";
        }
      } else {
        return UnknownOption(arg);
      }
      i := i + 1;
    }
    o := Start(resourcesPath, debugMode);
  }

  /** A chosen resources path is empty or ends in `/`. */
  lemma {:induction false} StartPathEndsInSeparator(argv: seq<string>, i: nat, path: string, debug: bool)
    requires path == "" || path[|path| - 1] == '/'
    ensures var o := ParseFrom(argv, i, path, debug);
      o.Start? ==> o.resourcesPath == "" || o.resourcesPath[|o.resourcesPath| - 1] == '/'
    decreases |argv| - i
  {
    if i < |argv| && !IsHelp(argv[i]) && !IsVersion(argv[i]) {
      if argv[i] == "--debug" {
        StartPathEndsInSeparator(argv, i + 1, path, true);
      } else if argv[i] == "--resources" && i + 1 < |argv| {
        StartPathEndsInSeparator(argv, i + 2, WithSeparator(argv[i + 1]), debug);
      }
    }
  }

  /** From the command line as a whole: the engine starts with a path that is
      empty or ends in `/`. */
  lemma ParsedPathEndsInSeparator(argv: seq<string>)
    ensures Parse(argv).Start? ==>
      Parse(argv).resourcesPath == "" || Parse(argv).resourcesPath[|Parse(argv).resourcesPath| - 1] == '/'
  {
    StartPathEndsInSeparator(argv, 1, DefaultResourcesPath, false);
  }

  /** Once parsing has stopped at `--help` or `--version`, whatever follows on
      the command line makes no difference. */
  lemma {:induction false} EarlyExitIgnoresRest(argv: seq<string>, rest: seq<string>, i: nat,
                                                path: string, debug: bool)
    requires ParseFrom(argv, i, path, debug).ShowUsage? || ParseFrom(argv, i, path, debug).ShowVersion?
    ensures ParseFrom(argv + rest, i, path, debug) == ParseFrom(argv, i, path, debug)
    decreases |argv| - i
  {
    var all := argv + rest;
    assert i < |argv|;
    assert all[i] == argv[i];
    if argv[i] == "--debug" {
      EarlyExitIgnoresRest(argv, rest, i + 1, path, true);
    } else if argv[i] == "--resources" && i + 1 < |argv| {
      assert all[i + 1] == argv[i + 1];
      EarlyExitIgnoresRest(argv, rest, i + 2, WithSeparator(argv[i + 1]), debug);
    }
  }

  /** `--debug` is only ever on when `--debug` was on the command line. */
  lemma {:induction false} DebugNeedsFlag(argv: seq<string>, i: nat, path: string, debug: bool)
    requires !debug
    requires forall j :: i <= j < |argv| ==> argv[j] != "--debug"
    ensures var o := ParseFrom(argv, i, path, debug); o.Start? ==> !o.debug
    decreases |argv| - i
  {
    if i < |argv| && !IsHelp(argv[i]) && !IsVersion(argv[i]) {
      if argv[i] == "--resources" && i + 1 < |argv| {
        DebugNeedsFlag(argv, i + 2, WithSeparator(argv[i + 1]), debug);
      }
    }
  }

  /** With no options the engine starts with the defaults. */
  lemma NoOptions(program: string)
    ensures Parse([program]) == Start("resources/", false)
  {
  }

  /** Parsing a command line that continues past a fully parsed prefix `a`
      carries on from the end of `a` with the path and debug flag gathered
      over `a`. */
  lemma {:induction false} ParseSplits(a: seq<string>, b: seq<string>, i: nat, path: string, debug: bool)
    requires i <= |a|
    requires ParseFrom(a, i, path, debug).Start?
    ensures var o := ParseFrom(a, i, path, debug);
      ParseFrom(a + b, i, path, debug) == ParseFrom(a + b, |a|, o.resourcesPath, o.debug)
    decreases |a| - i
  {
    if i < |a| {
      var all := a + b;
      assert all[i] == a[i];
      if a[i] == "--debug" {
        ParseSplits(a, b, i + 1, path, true);
      } else {
        assert a[i] == "--resources" && i + 1 < |a|;
        assert all[i + 1] == a[i + 1];
        ParseSplits(a, b, i + 2, WithSeparator(a[i + 1]), debug);
      }
    }
  }

  /** Once the debug flag is on it stays on: whenever the engine starts after
      a `--debug`, it starts in debug mode. */
  lemma {:induction false} DebugStaysOn(argv: seq<string>, i: nat, path: string)
    ensures var o := ParseFrom(argv, i, path, true); o.Start? ==> o.debug
    decreases |argv| - i
  {
    if i < |argv| && !IsHelp(argv[i]) && !IsVersion(argv[i]) {
      if argv[i] == "--debug" {
        DebugStaysOn(argv, i + 1, path);
      } else if argv[i] == "--resources" && i + 1 < |argv| {
        DebugStaysOn(argv, i + 2, WithSeparator(argv[i + 1]));
      }
    }
  }

  /** A `--debug` that the parser reaches, after any fully parsed prefix `a`,
      turns debug mode on for the engine whatever follows. */
  lemma DebugFlagTurnsOn(a: seq<string>, b: seq<string>)
    requires |a| >= 1 && Parse(a).Start?
    ensures Parse(a + ["--debug"] + b).Start? ==> Parse(a + ["--debug"] + b).debug
  {
    var all := a + (["--debug"] + b);
    assert a + ["--debug"] + b == all;
    ParseSplits(a, ["--debug"] + b, 1, DefaultResourcesPath, false);
    assert all[|a|] == "--debug";
    DebugStaysOn(all, |a| + 1, Parse(a).resourcesPath);
  }

  /** A `--resources` with nothing after it is an unknown option: after any
      fully parsed prefix, a trailing `--resources` makes `main` exit with
      status 1. */
  lemma TrailingResourcesIsUnknown(a: seq<string>)
    requires |a| >= 1 && Parse(a).Start?
    ensures Parse(a + ["--resources"]) == UnknownOption("--resources")
    ensures ExitCode(Parse(a + ["--resources"])) == 1
  {
    ParseSplits(a, ["--resources"], 1, DefaultResourcesPath, false);
    var all := a + ["--resources"];
    assert all[|a|] == "--resources" && |a| + 1 == |all|;
  }

  /** A `--resources <path>` replaces whatever path was chosen before it:
      the outcome from that point on does not depend on the earlier path. */
  lemma ResourcesOverrides(argv: seq<string>, i: nat, path1: string, path2: string, debug: bool)
    requires i + 1 < |argv| && argv[i] == "--resources"
    ensures ParseFrom(argv, i, path1, debug) == ParseFrom(argv, i, path2, debug)
    ensures ParseFrom(argv, i, path1, debug) == ParseFrom(argv, i + 2, WithSeparator(argv[i + 1]), debug)
  {
  }

  /** A later `--resources` wins: after any fully parsed prefix `a`, the
      command line `a ++ ["--resources", p] ++ b` parses as `b` does with the
      path `p` (slash added) and the debug flag gathered over `a`, so the
      paths given in `a` no longer matter. */
  lemma LaterResourcesWins(a: seq<string>, p: string, b: seq<string>)
    requires |a| >= 1 && Parse(a).Start?
    ensures var all := a + ["--resources", p] + b;
      Parse(all) == ParseFrom(all, |a| + 2, WithSeparator(p), Parse(a).debug)
  {
    var rest := ["--resources", p] + b;
    var all := a + rest;
    assert a + ["--resources", p] + b == all;
    var o := ParseFrom(a, 1, DefaultResourcesPath, false);
    ParseSplits(a, rest, 1, DefaultResourcesPath, false);
    ResourcesAfter(a, rest, o.resourcesPath, o.debug);
  }

  /** The `--resources` at the head of `rest` decides the path once the
      parser reaches the end of `a`. */
  lemma ResourcesAfter(a: seq<string>, rest: seq<string>, path: string, debug: bool)
    requires |rest| >= 2 && rest[0] == "--resources"
    ensures ParseFrom(a + rest, |a|, path, debug) == ParseFrom(a + rest, |a| + 2, WithSeparator(rest[1]), debug)
  {
    var all := a + rest;
    assert all[|a|] == rest[0] && all[|a| + 1] == rest[1];
  }

  /** For instance, `prog --resources a --debug --resources b` starts the
      engine in debug mode with `b/`. */
  lemma LaterResourcesExample(program: string)
    ensures Parse([program, "--resources", "a", "--debug", "--resources", "b"]) == Start("b/", true)
  {
    var argv := [program, "--resources", "a", "--debug", "--resources", "b"];
    assert WithSeparator("b") == "b/" && WithSeparator("a") == "a/";
    assert ParseFrom(argv, 4, "a/", true) == Start("b/", true);
    assert ParseFrom(argv, 3, "a/", false) == ParseFrom(argv, 4, "a/", true);
    assert ParseFrom(argv, 1, "resources/", false) == ParseFrom(argv, 3, "a/", false);
  }
}
