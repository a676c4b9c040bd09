/**
 Argument normalisation of the lint wrapper: parse a command line, then rebuild it with the defaults the user left
 out. Normalising a normalised command line changes nothing, and exactly when that can fail.
 */
module WrapperArgs {
  import opened Prelude

  const SEPARATOR := "--"

  // Classifying arguments.

  datatype LintKind =
    | ManifestFlag | ManifestAssigned
    | PackageFlag | PackageAssigned
    | Fix | Workspace | NoDeps
    | LibraryFlag | LibraryAssigned
    | Other

  /** The `elif` chain on an argument that is no flag's value. */
  function KindOf(arg: string): LintKind {
    if arg == "--manifest-path" then ManifestFlag
    else if StartsWith(arg, "--manifest-path=") then ManifestAssigned
    else if arg == "-p" || arg == "--package" then PackageFlag
    else if StartsWith(arg, "--package=") then PackageAssigned
    else if arg == "--fix" then Fix
    else if arg == "--workspace" then Workspace
    else if arg == "--no-deps" then NoDeps
    else if arg == "--lib" || arg == "--lib-path" then LibraryFlag
    else if StartsWith(arg, "--lib=") || StartsWith(arg, "--lib-path=") then LibraryAssigned
    else Other
  }

  predicate IsTargetSelection(arg: string) {
    || arg == "--all-targets" || arg == "--lib" || arg == "--bins" || arg == "--tests" || arg == "--examples"
    || arg == "--benches" || arg == "--doc"
    || arg == "--bin" || arg == "--test" || arg == "--example" || arg == "--bench"
    || StartsWith(arg, "--bin=") || StartsWith(arg, "--test=")
    || StartsWith(arg, "--example=") || StartsWith(arg, "--bench=")
  }

  datatype Flag = ManifestPath | PackageSelection | NoDependencies | LibrarySelection | FixRequested

  /** The flags found so far, and the flag the next argument is the value of. */
  datatype LintScan = LintScan(flags: set<Flag>, pending: Option<Flag>)

  const START := LintScan({}, None)

  /** The flag an argument sets at once. */
  function SetsFlag(kind: LintKind): set<Flag> {
    match kind
    case ManifestAssigned => {ManifestPath}
    case PackageAssigned => {PackageSelection}
    case Fix => {FixRequested}
    case Workspace => {PackageSelection}
    case NoDeps => {NoDependencies}
    case LibraryAssigned => {LibrarySelection}
    case _ => {}
  }

  /** The flag an argument sets once its value has been seen. */
  function Awaits(kind: LintKind): Option<Flag> {
    match kind
    case ManifestFlag => Some(ManifestPath)
    case PackageFlag => Some(PackageSelection)
    case LibraryFlag => Some(LibrarySelection)
    case _ => None
  }

  function ScanLint(s: LintScan, arg: string): LintScan {
    if s.pending.Some? then LintScan(s.flags + {s.pending.value}, None)
    else LintScan(s.flags + SetsFlag(KindOf(arg)), Awaits(KindOf(arg)))
  }

  function ScanLintAll(s: LintScan, args: seq<string>): LintScan
    decreases args
  {
    if args == [] then s else ScanLintAll(ScanLint(s, args[0]), args[1..])
  }

  // Parsing.

  datatype ParsedArgs = ParsedArgs(lintArgs: seq<string>, cargoArgs: seq<string>, flags: set<Flag>,
          cargoTargetSelection: bool)

  /** The user's side before the first separator, and the side after it. */
  function LintSide(argv: seq<string>): seq<string> {
    if argv == [] || argv[0] == SEPARATOR then [] else [argv[0]] + LintSide(argv[1..])
  }

  function CargoSide(argv: seq<string>): seq<string> {
    if argv == [] then [] else if argv[0] == SEPARATOR then argv[1..] else CargoSide(argv[1..])
  }

  predicate SelectsTarget(cargoArgs: seq<string>) {
    exists i :: 0 <= i < |cargoArgs| && IsTargetSelection(cargoArgs[i])
  }

  /** What parsing means: the two sides, the flags of the lint side, the target selection of the cargo side. */
  function Parsed(argv: seq<string>): ParsedArgs {
    ParsedArgs(LintSide(argv), CargoSide(argv), ScanLintAll(START, LintSide(argv)).flags,
               SelectsTarget(CargoSide(argv)))
  }

  lemma {:induction false} ScanLintSnoc(s: LintScan, args: seq<string>, arg: string)
    ensures ScanLintAll(s, args + [arg]) == ScanLint(ScanLintAll(s, args), arg)
    decreases args
  {
    if args == [] {
      assert [arg][1..] == [] && args + [arg] == [arg];
    } else {
      assert (args + [arg])[1..] == args[1..] + [arg];
      ScanLintSnoc(ScanLint(s, args[0]), args[1..], arg);
    }
  }

  /** After `i` arguments, with or without the separator among them, these are the two sides so far. */
  ghost predicate SidesSoFar(argv: seq<string>, i: nat, lint: seq<string>, cargo: seq<string>, afterSeparator: bool) {
    && i <= |argv|
    && if afterSeparator then LintSide(argv) == lint && CargoSide(argv) == cargo + argv[i..]
       else cargo == [] && LintSide(argv) == lint + LintSide(argv[i..]) && CargoSide(argv) == CargoSide(argv[i..])
  }

  lemma SidesOfOneMore(arg: string, rest: seq<string>)
    ensures LintSide([arg] + rest) == if arg == SEPARATOR then [] else [arg] + LintSide(rest)
    ensures CargoSide([arg] + rest) == if arg == SEPARATOR then rest else CargoSide(rest)
  {
    assert ([arg] + rest)[1..] == rest;
  }

  lemma SidesStep(argv: seq<string>, i: nat, lint: seq<string>, cargo: seq<string>, afterSeparator: bool)
    requires SidesSoFar(argv, i, lint, cargo, afterSeparator) && i < |argv|
    ensures afterSeparator ==> SidesSoFar(argv, i + 1, lint, cargo + [argv[i]], true)
    ensures !afterSeparator && argv[i] == SEPARATOR ==> SidesSoFar(argv, i + 1, lint, cargo, true)
    ensures !afterSeparator && argv[i] != SEPARATOR ==> SidesSoFar(argv, i + 1, lint + [argv[i]], cargo, false)
  {
    var arg, rest := argv[i], argv[i + 1..];
    assert argv[i..] == [arg] + rest;
    if afterSeparator {
      assert cargo + ([arg] + rest) == cargo + [arg] + rest;
    } else {
      SidesOfOneMore(arg, rest);
      if arg == SEPARATOR {
        assert [] + rest == rest && lint + [] == lint;
      } else {
        assert lint + ([arg] + LintSide(rest)) == lint + [arg] + LintSide(rest);
      }
    }
  }

  lemma SidesDone(argv: seq<string>, lint: seq<string>, cargo: seq<string>, afterSeparator: bool)
    requires SidesSoFar(argv, |argv|, lint, cargo, afterSeparator)
    ensures LintSide(argv) == lint && CargoSide(argv) == cargo
  {
    assert argv[|argv|..] == [] && lint + [] == lint && cargo + [] == cargo;
  }

  lemma SelectsTargetSnoc(cargoArgs: seq<string>, arg: string)
    ensures SelectsTarget(cargoArgs + [arg]) <==> SelectsTarget(cargoArgs) || IsTargetSelection(arg)
  {
    var longer := cargoArgs + [arg];
    assert longer[|cargoArgs|] == arg && forall i | 0 <= i < |cargoArgs| :: longer[i] == cargoArgs[i];
  }

  /** `parse_wrapper_args`: one pass that appends to the two sides and sets flags. */
  method ParseWrapperArgs(argv: seq<string>) returns (parsed: ParsedArgs)
    ensures parsed == Parsed(argv)
  {
    var lintArgs, cargoArgs: seq<string> := [], [];
    var scan, target, afterSeparator := START, false, false;
    assert argv[0..] == argv && [] + LintSide(argv) == LintSide(argv);
    for i := 0 to |argv|
      invariant scan == ScanLintAll(START, lintArgs)
      invariant target == SelectsTarget(cargoArgs)
      invariant SidesSoFar(argv, i, lintArgs, cargoArgs, afterSeparator)
    {
      var arg := argv[i];
      SidesStep(argv, i, lintArgs, cargoArgs, afterSeparator);
      if afterSeparator {
        SelectsTargetSnoc(cargoArgs, arg);
        cargoArgs := cargoArgs + [arg];
        if IsTargetSelection(arg) {
          target := true;
        }
        continue;
      }
      if arg == SEPARATOR {
        afterSeparator := true;
        continue;
      }
      ScanLintSnoc(START, lintArgs, arg);
      lintArgs := lintArgs + [arg];
      scan := ScanLint(scan, arg);
    }
    SidesDone(argv, lintArgs, cargoArgs, afterSeparator);
    parsed := ParsedArgs(lintArgs, cargoArgs, scan.flags, target);
  }

  // What the flags mean.

  /** The argument is the value of the one before it. */
  predicate IsValue(args: seq<string>, i: nat)
    requires i < |args|
  {
    && i > 0 && !IsValue(args, i - 1)
    && args[i - 1] in {"--manifest-path", "-p", "--package", "--lib", "--lib-path"}
  }

  /** The argument, not being a value, sets the flag, given whether a value follows it. */
  predicate Names(flag: Flag, arg: string, valued: bool) {
    match flag
    case ManifestPath => (arg == "--manifest-path" && valued) || StartsWith(arg, "--manifest-path=")
    case PackageSelection =>
      (arg in {"-p", "--package"} && valued) || StartsWith(arg, "--package=") || arg == "--workspace"
    case NoDependencies => arg == "--no-deps"
    case LibrarySelection =>
      (arg in {"--lib", "--lib-path"} && valued) || StartsWith(arg, "--lib=") || StartsWith(arg, "--lib-path=")
    case FixRequested => arg == "--fix"
  }

  ghost predicate SetAt(args: seq<string>, i: nat, flag: Flag) {
    i < |args| && !IsValue(args, i) && Names(flag, args[i], i + 1 < |args|)
  }

  /** Some argument, which is no other flag's value, names the flag. */
  ghost predicate SetSomewhere(args: seq<string>, flag: Flag) {
    exists i: nat :: SetAt(args, i, flag)
  }

  /** What the scan knows after some arguments: the flags set, and the one whose value comes next. */
  ghost predicate Scanned(args: seq<string>, s: LintScan) {
    && (forall flag :: flag in s.flags <==> SetSomewhere(args, flag))
    && s.pending == if ValueNext(args) then Awaits(KindOf(args[|args| - 1])) else None
  }

  predicate ValueNext(args: seq<string>) {
    && args != [] && !IsValue(args, |args| - 1)
    && args[|args| - 1] in {"--manifest-path", "-p", "--package", "--lib", "--lib-path"}
  }

  lemma {:induction false} ValuesKept(args: seq<string>, arg: string, i: nat)
    requires i < |args|
    ensures IsValue(args + [arg], i) == IsValue(args, i)
  {
    if i > 0 { ValuesKept(args, arg, i - 1); }
  }

  lemma PrefixAt(s: string, prefix: string, i: nat)
    requires i < |prefix|
    ensures StartsWith(s, prefix) ==> |s| >= |prefix| && s[i] == prefix[i]
  {
  }

  /** The third letter tells the flags apart, but for `-p` and the two spellings of the library flag. */
  lemma KindIs(arg: string)
    ensures Awaits(KindOf(arg)).Some? <==> arg in {"--manifest-path", "-p", "--package", "--lib", "--lib-path"}
    ensures forall flag :: flag in SetsFlag(KindOf(arg)) <==> Names(flag, arg, false)
    ensures forall flag :: Names(flag, arg, true) <==> Names(flag, arg, false) || Awaits(KindOf(arg)) == Some(flag)
    ensures Awaits(KindOf(arg)).Some? ==> SetsFlag(KindOf(arg)) == {}
  {
    PrefixAt(arg, "--manifest-path=", 2);
    PrefixAt(arg, "--package=", 2);
    PrefixAt(arg, "--lib=", 2);
    PrefixAt(arg, "--lib=", 5);
    PrefixAt(arg, "--lib-path=", 2);
    assert "--manifest-path="[2] == "--manifest-path"[2] == 'm';
    assert "--package="[2] == "--package"[2] == 'p';
    assert "--lib="[2] == "--lib-path="[2] == "--lib"[2] == "--lib-path"[2] == 'l';
    assert "--lib="[5] == '=' && "--lib-path"[5] == '-';
    assert "--fix"[2] == 'f' && "--workspace"[2] == 'w' && "--no-deps"[2] == 'n';
  }

  /** What was set stays set, and the last argument is set now when its value has come. */
  lemma SetAtMore(args: seq<string>, arg: string, i: nat, flag: Flag)
    ensures SetAt(args + [arg], i, flag) <==>
      || SetAt(args, i, flag)
      || (i == |args| && !ValueNext(args) && Names(flag, arg, false))
      || (i + 1 == |args| && ValueNext(args) && Names(flag, args[i], true))
  {
    var longer := args + [arg];
    if i < |args| {
      ValuesKept(args, arg, i);
      KindIs(args[i]);
    } else if i == |args| {
      if args != [] { ValuesKept(args, arg, |args| - 1); }
    }
  }

  lemma ScannedMore(args: seq<string>, arg: string, s: LintScan)
    requires Scanned(args, s)
    ensures Scanned(args + [arg], ScanLint(s, arg))
  {
    var longer, t := args + [arg], ScanLint(s, arg);
    KindIs(arg);
    if args != [] {
      ValuesKept(args, arg, |args| - 1);
      KindIs(args[|args| - 1]);
    }
    forall flag
      ensures flag in t.flags <==> SetSomewhere(longer, flag)
    {
      FlagMore(args, arg, s, flag);
    }
  }

  lemma FlagMore(args: seq<string>, arg: string, s: LintScan, flag: Flag)
    requires Scanned(args, s)
    ensures flag in ScanLint(s, arg).flags <==> SetSomewhere(args + [arg], flag)
  {
    KindIs(arg);
    if args != [] { KindIs(args[|args| - 1]); }
    if i: nat :| SetAt(args + [arg], i, flag) { SetAtMore(args, arg, i, flag); }
    if i: nat :| SetAt(args, i, flag) { SetAtMore(args, arg, i, flag); }
    SetAtMore(args, arg, |args|, flag);
    if args != [] { SetAtMore(args, arg, |args| - 1, flag); }
  }

  lemma {:induction false} ScannedAll(args: seq<string>)
    ensures Scanned(args, ScanLintAll(START, args))
    decreases |args|
  {
    if args == [] {
    } else {
      var init, last := args[..|args| - 1], args[|args| - 1];
      assert args == init + [last];
      ScannedAll(init);
      ScanLintSnoc(START, init, last);
      ScannedMore(init, last, ScanLintAll(START, init));
    }
  }

  /** A flag is set exactly when some argument before the separator, which is no other flag's value, names it. */
  lemma FlagSetIff(argv: seq<string>, flag: Flag)
    ensures flag in Parsed(argv).flags <==> SetSomewhere(LintSide(argv), flag)
  {
    ScannedAll(LintSide(argv));
  }

  predicate IsOption(arg: string, option: string) {
    arg == option || StartsWith(arg, option + "=")
  }

  ghost predicate Selects(arg: string) {
    || arg in {"--all-targets", "--lib", "--bins", "--tests", "--examples", "--benches", "--doc"}
    || exists option :: option in {"--bin", "--test", "--example", "--bench"} && IsOption(arg, option)
  }

  lemma SelectsIff(arg: string)
    ensures IsTargetSelection(arg) <==> Selects(arg)
  {
    assert "--bin" + "=" == "--bin=" && "--test" + "=" == "--test=" && "--example" + "=" == "--example="
        && "--bench" + "=" == "--bench=";
    assert IsOption(arg, "--bin") || IsOption(arg, "--test") || IsOption(arg, "--example") || IsOption(arg, "--bench")
      <==> exists option :: option in {"--bin", "--test", "--example", "--bench"} && IsOption(arg, option);
  }

  /** The cargo side selects a target exactly when one of its arguments does. */
  lemma TargetSelectedIff(argv: seq<string>)
    ensures Parsed(argv).cargoTargetSelection <==> exists arg :: arg in CargoSide(argv) && Selects(arg)
  {
    forall arg {
      SelectsIff(arg);
    }
  }

  // Building.

  function DefaultLintArgs(flags: set<Flag>, manifestPath: string): seq<string> {
    (if ManifestPath in flags then [] else ["--manifest-path", manifestPath])
    + (if PackageSelection in flags || ManifestPath in flags then [] else ["--workspace"])
    + (if NoDependencies in flags then [] else ["--no-deps"])
  }

  function DefaultCargoArgs(parsed: ParsedArgs): seq<string> {
    if FixRequested in parsed.flags || parsed.cargoTargetSelection then [] else ["--all-targets"]
  }

  function Final(parsed: ParsedArgs, manifestPath: string): seq<string> {
    var cargoArgs := parsed.cargoArgs + DefaultCargoArgs(parsed);
    DefaultLintArgs(parsed.flags, manifestPath) + parsed.lintArgs
    + (if cargoArgs == [] then [] else [SEPARATOR] + cargoArgs)
  }

  /** `build_final_args`. */
  method BuildFinalArgs(parsed: ParsedArgs, manifestPath: string) returns (finalArgs: seq<string>)
    ensures finalArgs == Final(parsed, manifestPath)
  {
    finalArgs := [];
    var cargoArgs := parsed.cargoArgs;
    if ManifestPath !in parsed.flags {
      finalArgs := finalArgs + ["--manifest-path", manifestPath];
    }
    if PackageSelection !in parsed.flags && ManifestPath !in parsed.flags {
      finalArgs := finalArgs + ["--workspace"];
    }
    if NoDependencies !in parsed.flags {
      finalArgs := finalArgs + ["--no-deps"];
    }
    assert finalArgs == DefaultLintArgs(parsed.flags, manifestPath);
    if FixRequested !in parsed.flags && !parsed.cargoTargetSelection {
      cargoArgs := cargoArgs + ["--all-targets"];
    }
    finalArgs := finalArgs + parsed.lintArgs;
    if cargoArgs != [] {
      finalArgs := finalArgs + [SEPARATOR] + cargoArgs;
    }
  }

  function Normalized(argv: seq<string>, manifestPath: string): seq<string> {
    Final(Parsed(argv), manifestPath)
  }

  /** The whole normaliser, as the wrapper scripts chain it. */
  method Normalize(argv: seq<string>, manifestPath: string) returns (r: seq<string>)
    ensures r == Normalized(argv, manifestPath)
    ensures manifestPath != SEPARATOR ==> Normalized(r, manifestPath) == r
  {
    var parsed := ParseWrapperArgs(argv);
    r := BuildFinalArgs(parsed, manifestPath);
    NormalizedFixedIff(argv, manifestPath);
  }

  // Facts about sides and flags.

  predicate NoSeparator(args: seq<string>) {
    forall i | 0 <= i < |args| :: args[i] != SEPARATOR
  }

  lemma {:induction false} LintSideNoSeparator(argv: seq<string>)
    ensures NoSeparator(LintSide(argv))
  {
    if argv == [] {
    } else {
      LintSideNoSeparator(argv[1..]);
    }
  }

  lemma {:induction false} SidesOf(lint: seq<string>, rest: seq<string>)
    requires NoSeparator(lint)
    ensures LintSide(lint + rest) == lint + LintSide(rest) && CargoSide(lint + rest) == CargoSide(rest)
  {
    if lint == [] {
      assert lint + rest == rest;
    } else {
      assert (lint + rest)[1..] == lint[1..] + rest;
      SidesOf(lint[1..], rest);
      assert lint == [lint[0]] + lint[1..];
    }
  }

  /** Flags already set stay set and influence nothing else of the scan. */
  lemma {:induction false} ScanLintUnion(s: LintScan, more: set<Flag>, args: seq<string>)
    ensures ScanLintAll(LintScan(s.flags + more, s.pending), args) ==
      LintScan(ScanLintAll(s, args).flags + more, ScanLintAll(s, args).pending)
    decreases args
  {
    if args == [] {
    } else {
      var t := ScanLint(s, args[0]);
      assert ScanLint(LintScan(s.flags + more, s.pending), args[0]) == LintScan(t.flags + more, t.pending);
      ScanLintUnion(t, more, args[1..]);
    }
  }

  lemma {:induction false} ScanLintConcat(s: LintScan, a: seq<string>, b: seq<string>)
    ensures ScanLintAll(s, a + b) == ScanLintAll(ScanLintAll(s, a), b)
    decreases a
  {
    if a == [] {
      assert a + b == b;
    } else {
      assert (a + b)[1..] == a[1..] + b;
      ScanLintConcat(ScanLint(s, a[0]), a[1..], b);
    }
  }

  lemma ScanOne(s: LintScan, arg: string)
    ensures ScanLintAll(s, [arg]) == ScanLint(s, arg)
  {
    assert [arg][1..] == [];
  }

  /** The flags the defaults stand for. */
  function DefaultFlags(flags: set<Flag>): set<Flag> {
    (if ManifestPath in flags then {} else {ManifestPath})
    + (if PackageSelection in flags || ManifestPath in flags then {} else {PackageSelection})
    + (if NoDependencies in flags then {} else {NoDependencies})
  }

  /** The defaults put in front of the user's arguments are read back as the flags they stand for. */
  lemma DefaultsReadBack(flags: set<Flag>, manifestPath: string)
    ensures ScanLintAll(START, DefaultLintArgs(flags, manifestPath)) == LintScan(DefaultFlags(flags), None)
  {
    var a := if ManifestPath in flags then [] else ["--manifest-path", manifestPath];
    var b := if PackageSelection in flags || ManifestPath in flags then [] else ["--workspace"];
    var c := if NoDependencies in flags then [] else ["--no-deps"];
    var s1 := LintScan(if ManifestPath in flags then {} else {ManifestPath}, None);
    assert ScanLintAll(START, a) == s1 by {
      if ManifestPath !in flags {
        assert a == ["--manifest-path"] + [manifestPath];
        ScanLintConcat(START, ["--manifest-path"], [manifestPath]);
        ScanOne(START, "--manifest-path");
        ScanOne(ScanLint(START, "--manifest-path"), manifestPath);
      }
    }
    ScanLintConcat(START, a, b);
    ScanOne(s1, "--workspace");
    WorkspaceKind();
    var s2 := ScanLintAll(s1, b);
    ScanLintConcat(START, a + b, c);
    ScanOne(s2, "--no-deps");
    NoDepsKind();
  }

  lemma WorkspaceKind()
    ensures KindOf("--workspace") == Workspace
  {
    assert "--workspace"[2] == 'w';
    NotPrefixed("--workspace", "--manifest-path=", 2);
    NotPrefixed("--workspace", "--package=", 2);
  }

  lemma NoDepsKind()
    ensures KindOf("--no-deps") == NoDeps
  {
    NotPrefixed("--no-deps", "--manifest-path=", 2);
    NotPrefixed("--no-deps", "--package=", 2);
  }

  lemma NotPrefixed(s: string, prefix: string, i: nat)
    requires i < |s| && i < |prefix| && s[i] != prefix[i]
    ensures !StartsWith(s, prefix) && s != prefix
  {
  }

  /** What the sides and flags of a normalised command line are, when the manifest path is no separator. */
  lemma NormalizedSides(argv: seq<string>, manifestPath: string)
    requires manifestPath != SEPARATOR || ManifestPath in Parsed(argv).flags
    ensures var once := Parsed(argv);
      var twice := Parsed(Normalized(argv, manifestPath));
      && twice.lintArgs == DefaultLintArgs(once.flags, manifestPath) + once.lintArgs
      && twice.cargoArgs == once.cargoArgs + DefaultCargoArgs(once)
      && twice.flags == once.flags + DefaultFlags(once.flags)
      && twice.cargoTargetSelection == (once.cargoTargetSelection || FixRequested !in once.flags)
  {
    var once := Parsed(argv);
    var defaults := DefaultLintArgs(once.flags, manifestPath);
    var cargo := once.cargoArgs + DefaultCargoArgs(once);
    var lint := defaults + once.lintArgs;
    var tail := if cargo == [] then [] else [SEPARATOR] + cargo;
    LintSideNoSeparator(argv);
    assert NoSeparator(lint);
    SidesOf(lint, tail);
    if cargo != [] { assert tail[0] == SEPARATOR && tail[1..] == cargo; }
    assert lint + [] == lint;
    DefaultsReadBack(once.flags, manifestPath);
    ScanLintConcat(START, defaults, once.lintArgs);
    ScanLintUnion(START, DefaultFlags(once.flags), once.lintArgs);
    assert {} + DefaultFlags(once.flags) == DefaultFlags(once.flags);
    if FixRequested !in once.flags && !once.cargoTargetSelection {
      SelectsTargetSnoc(once.cargoArgs, "--all-targets");
    } else {
      assert cargo == once.cargoArgs;
    }
  }

  /** The user's arguments stay on their side of the separator, in order; only defaults are added around them. */
  lemma NormalizedKeepsUserArgs(argv: seq<string>, manifestPath: string)
    requires manifestPath != SEPARATOR || ManifestPath in Parsed(argv).flags
    ensures exists added :: LintSide(Normalized(argv, manifestPath)) == added + LintSide(argv)
    ensures CargoSide(argv) <= CargoSide(Normalized(argv, manifestPath))
  {
    NormalizedSides(argv, manifestPath);
  }

  /** A separator as the manifest path is read as one, and the next pass makes the command line longer. */
  lemma SeparatorPathGrows(argv: seq<string>)
    requires ManifestPath !in Parsed(argv).flags
    ensures |Normalized(Normalized(argv, SEPARATOR), SEPARATOR)| > |Normalized(argv, SEPARATOR)|
  {
    var first := Normalized(argv, SEPARATOR);
    assert first[0] == "--manifest-path" && first[1] == SEPARATOR;
    var lint, rest := ["--manifest-path"], first[1..];
    assert first == lint + rest;
    SidesOf(lint, rest);
    assert rest[0] == SEPARATOR;
    var twice := Parsed(first);
    assert twice.lintArgs == lint && twice.cargoArgs == rest[1..];
    ScanOne(START, "--manifest-path");
    assert twice.flags == START.flags;
    assert |DefaultLintArgs(twice.flags, SEPARATOR)| == 4;
  }

  /** With no defaults left to add, a command line that is already built is built again. */
  lemma NothingToAdd(once: ParsedArgs, twice: ParsedArgs, manifestPath: string)
    requires twice.lintArgs == DefaultLintArgs(once.flags, manifestPath) + once.lintArgs
    requires twice.cargoArgs == once.cargoArgs + DefaultCargoArgs(once)
    requires DefaultLintArgs(twice.flags, manifestPath) == [] && DefaultCargoArgs(twice) == []
    ensures Final(twice, manifestPath) == Final(once, manifestPath)
  {
    assert twice.cargoArgs + [] == twice.cargoArgs;
    assert [] + twice.lintArgs == twice.lintArgs;
  }

  /**
   The fixed point: normalising twice is normalising once, for every command line and manifest path, if and only if
   the manifest path is not the separator itself or the user gave a manifest path, so that it is not used.
   */
  lemma NormalizedFixedIff(argv: seq<string>, manifestPath: string)
    ensures Normalized(Normalized(argv, manifestPath), manifestPath) == Normalized(argv, manifestPath) <==>
      manifestPath != "--" || ManifestPath in Parsed(argv).flags
  {
    if manifestPath != SEPARATOR || ManifestPath in Parsed(argv).flags {
      NormalizedSides(argv, manifestPath);
      NothingToAdd(Parsed(argv), Parsed(Normalized(argv, manifestPath)), manifestPath);
    } else {
      SeparatorPathGrows(argv);
    }
  }
}
