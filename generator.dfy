/**
 * The Roslyn toolchain's Generator (src/BenchmarkDotNet.Toolchains.Roslyn/Generator.cs):
 * it locates the artifacts directory of a benchmark, removes the artifacts of
 * a previous run, computes the assemblies the harness is compiled against and
 * writes the `csc` build script.
 *
 * Everything the generator asks of the .NET host (the operating system, the
 * assembly loader, path and string helpers) arrives through an Environment.
 */
module RoslynGenerator {
  import opened Wrappers
  import opened Text
  import opened Enumerable
  import opened Files

  type AssemblyName = string

  /** A loaded assembly: its identity, its location on disk, and the names of the assemblies it references directly. */
  datatype Assembly = Assembly(name: AssemblyName, location: Path, referencedAssemblies: seq<AssemblyName>)

  /** The value the job's Platform characteristic resolves to; its representation is not part of this model. */
  type Platform

  /** A benchmark as the generator uses it: the assembly declaring its target type and the job's resolved platform. */
  datatype Benchmark = Benchmark(targetAssembly: Assembly, platform: Platform)

  /** The artifact locations of one generation cycle (their derivation is done elsewhere). */
  datatype ArtifactsPaths = ArtifactsPaths(
    buildArtifactsDirectoryPath: Path,
    programCodePath: Path,
    appConfigPath: Path,
    buildScriptFilePath: Path,
    executablePath: Path)

  /** The host calls the generator makes, taken as given. */
  datatype Environment = Environment(
    isWindows: bool,                              // ServicesProvider.RuntimeInformation.IsWindows
    load: AssemblyName -> Option<Assembly>,       // Assembly.Load; None when it throws
    runtimeAssembly: Assembly,                    // typeof(Benchmark).Assembly, BenchmarkDotNet.Runtime
    toolchainAssembly: Assembly,                  // typeof(RoslynToolchain).Assembly, BenchmarkDotNet.Toolchains.Roslyn
    toConfig: Platform -> string,                 // Platform.ToConfig()
    escape: string -> string,                     // StringAndTextExtensions.Escape
    getFileName: Path -> string,                  // Path.GetFileName
    getDirectoryName: Path -> Path)               // Path.GetDirectoryName

  /** Assembly.Load failed for the named direct reference. */
  datatype ReferenceError = ReferenceError(name: AssemblyName)

  /** File.Delete still failed on this path when the retry budget ran out. */
  datatype CleanupError = CleanupError(path: Path)

  // ---------------------------------------------------------------------------
  // Artifacts directory

  /** The directory holding the assembly that declares the benchmark's target type. */
  function GetBuildArtifactsDirectoryPath(env: Environment, benchmark: Benchmark, programName: string): Path
  {
    env.getDirectoryName(benchmark.targetAssembly.location)
  }

  /** The artifacts directory depends on the target assembly's location alone, never on the program name. */
  lemma ArtifactsDirectoryOfLocation(env: Environment, b1: Benchmark, b2: Benchmark, name1: string, name2: string)
    requires b1.targetAssembly.location == b2.targetAssembly.location
    ensures GetBuildArtifactsDirectoryPath(env, b1, name1) == env.getDirectoryName(b1.targetAssembly.location)
    ensures GetBuildArtifactsDirectoryPath(env, b1, name1) == GetBuildArtifactsDirectoryPath(env, b2, name2)
  {
  }

  // ---------------------------------------------------------------------------
  // Reference set

  /** `names.Select(Assembly.Load)` enumerated in order: the first name that fails to load aborts it. */
  function LoadAll(load: AssemblyName -> Option<Assembly>, names: seq<AssemblyName>): (r: Result<seq<Assembly>, ReferenceError>)
    ensures r.Success? <==> forall k :: 0 <= k < |names| ==> load(names[k]).Some?
    ensures r.Success? ==> |r.value| == |names|
    ensures r.Success? ==> forall k :: 0 <= k < |names| ==> load(names[k]) == Some(r.value[k])
    ensures r.Failure? ==>
      exists i :: 0 <= i < |names| && r.error == ReferenceError(names[i]) && load(names[i]).None?
        && forall k :: 0 <= k < i ==> load(names[k]).Some?
    decreases |names|
  {
    if names == [] then Success([])
    else match load(names[0])
      case None => Failure(ReferenceError(names[0]))
      case Some(a) =>
        match LoadAll(load, names[1..])
        case Failure(e) => Failure(e)
        case Success(rest) => Success([a] + rest)
  }

  /** The three assemblies appended to every reference set, in the order the generator appends them. */
  function FixedAssemblies(env: Environment, benchmark: Benchmark): seq<Assembly> {
    [benchmark.targetAssembly, env.runtimeAssembly, env.toolchainAssembly]
  }

  /**
   * GetAllReferences: the direct references of the target assembly, loaded,
   * then the target assembly, BenchmarkDotNet.Runtime and the Roslyn
   * toolchain, with duplicates removed.
   */
  function GetAllReferences(env: Environment, benchmark: Benchmark): (r: Result<seq<Assembly>, ReferenceError>)
    ensures r.Success? <==>
      forall k :: 0 <= k < |benchmark.targetAssembly.referencedAssemblies| ==>
        env.load(benchmark.targetAssembly.referencedAssemblies[k]).Some?
    ensures r.Failure? ==>
      r.error.name in benchmark.targetAssembly.referencedAssemblies && env.load(r.error.name).None?
    ensures r.Success? ==> NoDuplicates(r.value)
    ensures r.Success? ==>
      benchmark.targetAssembly in r.value && env.runtimeAssembly in r.value && env.toolchainAssembly in r.value
    ensures r.Success? ==>
      forall k :: 0 <= k < |benchmark.targetAssembly.referencedAssemblies| ==>
        env.load(benchmark.targetAssembly.referencedAssemblies[k]).value in r.value
    ensures r.Success? ==>
      forall a :: a in r.value ==>
        a in FixedAssemblies(env, benchmark)
        || exists n :: n in benchmark.targetAssembly.referencedAssemblies && env.load(n) == Some(a)
  {
    match LoadAll(env.load, benchmark.targetAssembly.referencedAssemblies)
    case Failure(e) => Failure(e)
    case Success(loaded) =>
      var all := loaded + FixedAssemblies(env, benchmark);
      assert forall k :: 0 <= k < |loaded| ==> all[k] == loaded[k];
      assert all[|loaded|] == benchmark.targetAssembly;
      assert all[|loaded| + 1] == env.runtimeAssembly;
      assert all[|loaded| + 2] == env.toolchainAssembly;
      Success(Distinct(all))
  }

  /**
   * The reference set is not a transitive closure: an assembly that is not
   * one of the three fixed ones and that no direct reference loads as is
   * absent, however it is reachable through the references of references.
   */
  lemma OnlyDirectReferences(env: Environment, benchmark: Benchmark, a: Assembly)
    requires GetAllReferences(env, benchmark).Success?
    requires a !in FixedAssemblies(env, benchmark)
    requires forall n :: n in benchmark.targetAssembly.referencedAssemblies ==> env.load(n) != Some(a)
    ensures a !in GetAllReferences(env, benchmark).value
  {
  }

  /**
   * Order of the reference set: the loaded direct references come first, in
   * reference order with repeats dropped; each fixed assembly follows unless
   * it was already present.
   */
  lemma ReferencesOrder(env: Environment, benchmark: Benchmark)
    requires GetAllReferences(env, benchmark).Success?
    ensures
      var loaded := LoadAll(env.load, benchmark.targetAssembly.referencedAssemblies).value;
      var target, runtime, toolchain := benchmark.targetAssembly, env.runtimeAssembly, env.toolchainAssembly;
      GetAllReferences(env, benchmark).value ==
        Distinct(loaded)
        + (if target in loaded then [] else [target])
        + (if runtime in loaded + [target] then [] else [runtime])
        + (if toolchain in loaded + [target, runtime] then [] else [toolchain])
  {
    var loaded := LoadAll(env.load, benchmark.targetAssembly.referencedAssemblies).value;
    DistinctAppendThree(loaded, benchmark.targetAssembly, env.runtimeAssembly, env.toolchainAssembly);
  }

  // ---------------------------------------------------------------------------
  // Build script

  /** `references.Select(assembly => Escape(assembly.Location))` */
  function EscapedLocations(env: Environment, references: seq<Assembly>): seq<string> {
    seq(|references|, k requires 0 <= k < |references| => env.escape(references[k].location))
  }

  /** The `csc` invocation, token by token, in the order the generator adds them. */
  function CompilerTokens(env: Environment, platform: Platform, paths: ArtifactsPaths, references: seq<Assembly>): seq<string> {
    [ "csc", "/noconfig", "/target:exe", "/optimize", "/unsafe",
      "/platform:" + env.toConfig(platform),
      "/appconfig:" + env.escape(paths.appConfigPath),
      "/reference:" + Join(",", EscapedLocations(env, references)),
      env.getFileName(paths.programCodePath) ]
  }

  /** Off Windows the compiler runs under mono. */
  function ScriptTokens(env: Environment, platform: Platform, paths: ArtifactsPaths, references: seq<Assembly>): (r: seq<string>)
    ensures |r| == |CompilerTokens(env, platform, paths, references)| + (if env.isWindows then 0 else 1)
    ensures r[|r| - 9..] == CompilerTokens(env, platform, paths, references)
    ensures !env.isWindows ==> r[0] == "mono"
  {
    (if env.isWindows then [] else ["mono"]) + CompilerTokens(env, platform, paths, references)
  }

  /** The shebang line a bash script needs off Windows; nothing on Windows. */
  function ScriptPrefix(isWindows: bool): (r: string)
    ensures r == "" <==> isWindows
  {
    if isWindows then "" else "#!/bin/bash\n"
  }

  /** The whole content of the build script: a function of the platform, the paths and the references alone. */
  function BuildScript(env: Environment, platform: Platform, paths: ArtifactsPaths, references: seq<Assembly>): string {
    ScriptPrefix(env.isWindows) + Join(" ", ScriptTokens(env, platform, paths, references))
  }

  /** The compiler command line: the tokens separated by single spaces. */
  lemma CompilerCommandText(env: Environment, platform: Platform, paths: ArtifactsPaths, references: seq<Assembly>)
    ensures Join(" ", CompilerTokens(env, platform, paths, references)) ==
      "csc" + " " + "/noconfig" + " " + "/target:exe" + " " + "/optimize" + " " + "/unsafe"
      + " " + ("/platform:" + env.toConfig(platform))
      + " " + ("/appconfig:" + env.escape(paths.appConfigPath))
      + " " + ("/reference:" + Join(",", EscapedLocations(env, references)))
      + " " + env.getFileName(paths.programCodePath)
  {
    var t0, t1, t2, t3, t4 := "csc", "/noconfig", "/target:exe", "/optimize", "/unsafe";
    var t5 := "/platform:" + env.toConfig(platform);
    var t6 := "/appconfig:" + env.escape(paths.appConfigPath);
    var t7 := "/reference:" + Join(",", EscapedLocations(env, references));
    var t8 := env.getFileName(paths.programCodePath);
    assert CompilerTokens(env, platform, paths, references) == [t0, t1, t2, t3, t4, t5, t6, t7, t8];
    JoinNine(t0, t1, t2, t3, t4, t5, t6, t7, t8);
  }

  /** On Windows the script is the compiler command alone; elsewhere a bash shebang line and `mono` come first. */
  lemma BuildScriptByPlatform(env: Environment, platform: Platform, paths: ArtifactsPaths, references: seq<Assembly>)
    ensures env.isWindows ==>
      BuildScript(env, platform, paths, references) == Join(" ", CompilerTokens(env, platform, paths, references))
    ensures !env.isWindows ==>
      BuildScript(env, platform, paths, references)
      == "#!/bin/bash\n" + "mono" + " " + Join(" ", CompilerTokens(env, platform, paths, references))
  {
    var tokens := CompilerTokens(env, platform, paths, references);
    if env.isWindows {
      assert [] + tokens == tokens;
    } else {
      JoinCons(" ", "mono", tokens);
    }
  }

  /** No token of the script contains a space when the host-supplied parts do not. */
  lemma ScriptTokensWithoutSpaces(env: Environment, platform: Platform, paths: ArtifactsPaths, references: seq<Assembly>)
    requires ' ' !in env.toConfig(platform)
    requires ' ' !in env.escape(paths.appConfigPath)
    requires forall a :: a in references ==> ' ' !in env.escape(a.location)
    requires ' ' !in env.getFileName(paths.programCodePath)
    ensures forall k :: 0 <= k < |ScriptTokens(env, platform, paths, references)| ==>
      ' ' !in ScriptTokens(env, platform, paths, references)[k]
  {
    var locations := EscapedLocations(env, references);
    forall k | 0 <= k < |locations| ensures ' ' !in locations[k] {
      assert references[k] in references;
    }
    NotInJoin(",", locations, ' ');
  }

  /**
   * A reader that splits the script's command line at spaces gets back
   * exactly the tokens the generator added, in order, provided the
   * host-supplied parts contain no space.
   */
  lemma ScriptTokensRecovered(env: Environment, platform: Platform, paths: ArtifactsPaths, references: seq<Assembly>)
    requires ' ' !in env.toConfig(platform)
    requires ' ' !in env.escape(paths.appConfigPath)
    requires forall a :: a in references ==> ' ' !in env.escape(a.location)
    requires ' ' !in env.getFileName(paths.programCodePath)
    ensures var script := BuildScript(env, platform, paths, references);
      var prefix := ScriptPrefix(env.isWindows);
      prefix <= script && Split(script[|prefix|..], ' ') == ScriptTokens(env, platform, paths, references)
  {
    var tokens := ScriptTokens(env, platform, paths, references);
    var script := BuildScript(env, platform, paths, references);
    var prefix := ScriptPrefix(env.isWindows);
    assert script[|prefix|..] == Join(" ", tokens);
    ScriptTokensWithoutSpaces(env, platform, paths, references);
    SplitJoin(tokens, ' ');
  }

  /** The reference token lists the escaped locations of the reference set, comma-separated and in order. */
  lemma ReferenceTokenRecovered(env: Environment, platform: Platform, paths: ArtifactsPaths, references: seq<Assembly>)
    requires references != []
    requires forall a :: a in references ==> ',' !in env.escape(a.location)
    ensures var token := CompilerTokens(env, platform, paths, references)[7];
      "/reference:" <= token && Split(token[|"/reference:"|..], ',') == EscapedLocations(env, references)
  {
    var locations := EscapedLocations(env, references);
    forall k | 0 <= k < |locations| ensures ',' !in locations[k] {
      assert references[k] in references;
    }
    SplitJoin(locations, ',');
  }

  /**
   * GenerateBuildScript: builds the token list by successive additions and
   * overwrites the build script file with the prefix and the space-joined
   * tokens. When loading a direct reference fails, the failure propagates
   * before anything is written.
   */
  method GenerateBuildScript(fs: FileSystem, env: Environment, benchmark: Benchmark, paths: ArtifactsPaths)
    returns (r: Outcome<ReferenceError>)
    modifies fs
    ensures GetAllReferences(env, benchmark).Failure? ==>
      r == Fail(GetAllReferences(env, benchmark).error) && fs.State() == old(fs.State())
    ensures GetAllReferences(env, benchmark).Success? ==>
      r == Pass
      && fs.State() == old(fs.State()).(files := old(fs.files)[paths.buildScriptFilePath :=
           BuildScript(env, benchmark.platform, paths, GetAllReferences(env, benchmark).value)])
  {
    var prefix := if env.isWindows then "" else "#!/bin/bash\n";
    var list: seq<string> := [];
    if !env.isWindows {
      list := list + ["mono"];
    }
    ghost var mono := list;
    list := list + ["csc"];
    list := list + ["/noconfig"];
    list := list + ["/target:exe"];
    list := list + ["/optimize"];
    list := list + ["/unsafe"];
    list := list + ["/platform:" + env.toConfig(benchmark.platform)];
    list := list + ["/appconfig:" + env.escape(paths.appConfigPath)];
    ghost var options := list;
    assert options == mono + ["csc", "/noconfig", "/target:exe", "/optimize", "/unsafe",
      "/platform:" + env.toConfig(benchmark.platform), "/appconfig:" + env.escape(paths.appConfigPath)];
    var all := GetAllReferences(env, benchmark);
    if all.Failure? {
      return Fail(all.error);
    }
    var references := EscapedLocations(env, all.value);
    list := list + ["/reference:" + Join(",", references)];
    list := list + [env.getFileName(paths.programCodePath)];
    ghost var tokens := CompilerTokens(env, benchmark.platform, paths, all.value);
    assert options == mono + tokens[..7];
    assert list == mono + tokens;
    assert mono == if env.isWindows then [] else ["mono"];
    fs.WriteAllText(paths.buildScriptFilePath, prefix + Join(" ", list));
    return Pass;
  }

  /**
   * Generating twice with the same inputs ends in the same state as
   * generating once: the second call rewrites identical content.
   */
  method GenerateBuildScriptTwice(fs: FileSystem, env: Environment, benchmark: Benchmark, paths: ArtifactsPaths)
    returns (first: Outcome<ReferenceError>, second: Outcome<ReferenceError>)
    modifies fs
    ensures first == second
    ensures GetAllReferences(env, benchmark).Failure? ==> fs.State() == old(fs.State())
    ensures GetAllReferences(env, benchmark).Success? ==>
      fs.State() == old(fs.State()).(files := old(fs.files)[paths.buildScriptFilePath :=
        BuildScript(env, benchmark.platform, paths, GetAllReferences(env, benchmark).value)])
  {
    first := GenerateBuildScript(fs, env, benchmark, paths);
    second := GenerateBuildScript(fs, env, benchmark, paths);
  }

  // ---------------------------------------------------------------------------
  // Cleanup

  /** The catch filter `attempt++ < 5` lets five failed deletes be retried. */
  const MaxRetries: nat := 5

  /** How many coming File.Delete calls fail before the first that succeeds. */
  function FirstDeleted(outcomes: seq<DeleteOutcome>): (i: nat)
    ensures i <= |outcomes|
    ensures OutcomeAt(outcomes, i) == Deleted
    ensures forall k :: 0 <= k < i ==> outcomes[k] == Locked
    decreases |outcomes|
  {
    if outcomes == [] || outcomes[0] == Deleted then 0 else 1 + FirstDeleted(outcomes[1..])
  }

  /** `n` failed attempts of a retry loop on `path`, each a delete followed by a sleep. */
  function Cycles(path: Path, n: nat): seq<Call> {
    if n == 0 then [] else Cycles(path, n - 1) + [DeleteCall(path), SleepCall]
  }

  /** The calls of a retry loop that made `attempts` deletes: the failed ones with their sleeps, then the last delete. */
  function Tries(path: Path, attempts: nat): seq<Call> {
    if attempts == 0 then [] else Cycles(path, attempts - 1) + [DeleteCall(path)]
  }

  /** The failed attempts alternate delete and sleep, starting with a delete. */
  lemma {:induction false} CyclesAt(path: Path, n: nat)
    ensures |Cycles(path, n)| == 2 * n
    ensures forall k :: 0 <= k < 2 * n ==>
      Cycles(path, n)[k] == if k % 2 == 0 then DeleteCall(path) else SleepCall
  {
    if n > 0 {
      CyclesAt(path, n - 1);
    }
  }

  /**
   * A retry loop that made `attempts` deletes slept once between each two
   * deletes, and neither before the first nor after the last.
   */
  lemma TriesAlternate(path: Path, attempts: nat)
    ensures var r := Tries(path, attempts);
      && |r| == (if attempts == 0 then 0 else 2 * attempts - 1)
      && (attempts > 0 ==> r[0] == DeleteCall(path) && r[|r| - 1] == DeleteCall(path))
      && (forall k :: 0 <= k < |r| ==> r[k] == if k % 2 == 0 then DeleteCall(path) else SleepCall)
  {
    if attempts > 0 {
      CyclesAt(path, attempts - 1);
    }
  }

  /** A delete that fails and the sleep after it close one more cycle. */
  lemma CyclesSnoc(log: seq<Call>, path: Path, n: nat)
    ensures log + Cycles(path, n) + [DeleteCall(path)] == log + Tries(path, n + 1)
    ensures log + Tries(path, n + 1) + [SleepCall] == log + Cycles(path, n + 1)
  {
    assert Cycles(path, n) + [DeleteCall(path)] + [SleepCall] == Cycles(path, n) + [DeleteCall(path), SleepCall];
  }

  /** A delete that succeeds no later than the first scripted success is that success. */
  lemma FirstDeletedAt(outcomes: seq<DeleteOutcome>, n: nat)
    requires n <= FirstDeleted(outcomes) && OutcomeAt(outcomes, n) == Deleted
    ensures n == FirstDeleted(outcomes)
  {
  }

  /** DeleteIfExistsRun when the `n`th attempt is the first to succeed. */
  lemma DeleteRunDeleted(d: Disk, path: Path, n: nat)
    requires path in d.files && n == FirstDeleted(d.outcomes) && n <= MaxRetries
    ensures DeleteIfExistsRun(d, path) ==
      DeleteRun(Disk(d.files - {path}, Drop(d.outcomes, n + 1), d.log + Tries(path, n + 1)),
                n + 1, Pass)
  {
  }

  /** DeleteIfExistsRun when every attempt fails. */
  lemma DeleteRunLocked(d: Disk, path: Path)
    requires path in d.files && MaxRetries < FirstDeleted(d.outcomes)
    ensures DeleteIfExistsRun(d, path) ==
      DeleteRun(Disk(d.files, Drop(d.outcomes, MaxRetries + 1), d.log + Tries(path, MaxRetries + 1)),
                MaxRetries + 1, Fail(CleanupError(path)))
  {
  }

  /** What one DeleteIfExists call did: the new disk, how many deletes it tried, and how it ended. */
  datatype DeleteRun = DeleteRun(disk: Disk, attempts: nat, result: Outcome<CleanupError>)

  /** The effect of DeleteIfExists(path) on a disk. */
  function DeleteIfExistsRun(d: Disk, path: Path): (r: DeleteRun)
    ensures path !in d.files ==> r == DeleteRun(d, 0, Pass)
    ensures path in d.files ==> 1 <= r.attempts <= MaxRetries + 1
    ensures r.disk.log == d.log + Tries(path, r.attempts)
    ensures r.disk.outcomes == Drop(d.outcomes, r.attempts)
    ensures forall k :: 0 <= k < r.attempts - 1 ==> OutcomeAt(d.outcomes, k) == Locked
    ensures r.result.Pass? ==> r.disk.files == d.files - {path}
    ensures r.result.Pass? && r.attempts > 0 ==> OutcomeAt(d.outcomes, r.attempts - 1) == Deleted
    ensures r.result.Fail? <==> path in d.files && forall k :: 0 <= k <= MaxRetries ==> OutcomeAt(d.outcomes, k) == Locked
    ensures r.result.Fail? ==>
      r.attempts == MaxRetries + 1 && r.result.error == CleanupError(path) && r.disk.files == d.files
  {
    if path !in d.files then DeleteRun(d, 0, Pass)
    else
      var failures := FirstDeleted(d.outcomes);
      var deleted := failures <= MaxRetries;
      var attempts := if deleted then failures + 1 else MaxRetries + 1;
      DeleteRun(
        Disk(if deleted then d.files - {path} else d.files,
             Drop(d.outcomes, attempts),
             d.log + Tries(path, attempts)),
        attempts,
        if deleted then Pass else Fail(CleanupError(path)))
  }

  /** A file that can be deleted after `n` <= 5 failed attempts is deleted, after `n` sleeps, one after each failure. */
  lemma DeleteSucceedsAfterFailures(d: Disk, path: Path, n: nat)
    requires path in d.files && n <= MaxRetries
    requires forall k :: 0 <= k < n ==> OutcomeAt(d.outcomes, k) == Locked
    requires OutcomeAt(d.outcomes, n) == Deleted
    ensures var r := DeleteIfExistsRun(d, path);
      r.result == Pass && r.attempts == n + 1 && r.disk.log == d.log + Tries(path, n + 1) && path !in r.disk.files
  {
  }

  /** A file that stays held fails the cleanup after six attempts with a sleep between each two, no more. */
  lemma DeleteFailsWhenAlwaysLocked(d: Disk, path: Path)
    requires path in d.files
    requires forall k :: 0 <= k <= MaxRetries ==> OutcomeAt(d.outcomes, k) == Locked
    ensures var r := DeleteIfExistsRun(d, path);
      && r.result == Fail(CleanupError(path))
      && r.attempts == 6
      && r.disk.log == d.log + [DeleteCall(path), SleepCall, DeleteCall(path), SleepCall, DeleteCall(path), SleepCall,
                                DeleteCall(path), SleepCall, DeleteCall(path), SleepCall, DeleteCall(path)]
      && r.disk.files == d.files
  {
    var del, sleep := DeleteCall(path), SleepCall;
    assert Cycles(path, 1) == [] + [del, sleep];
    assert Cycles(path, 2) == [del, sleep] + [del, sleep];
    assert Cycles(path, 3) == [del, sleep, del, sleep] + [del, sleep];
    assert Cycles(path, 4) == [del, sleep, del, sleep, del, sleep] + [del, sleep];
    assert Cycles(path, 5) == [del, sleep, del, sleep, del, sleep, del, sleep] + [del, sleep];
    assert Tries(path, 6) == [del, sleep, del, sleep, del, sleep, del, sleep, del, sleep] + [del];
  }

  /**
   * DelteIfExists: nothing happens unless the file exists; otherwise File.Delete
   * is retried, one sleep after each failure, until it succeeds or the sixth
   * attempt fails, whose failure propagates.
   */
  method DeleteIfExists(fs: FileSystem, filePath: Path) returns (r: Outcome<CleanupError>)
    modifies fs
    ensures fs.State() == DeleteIfExistsRun(old(fs.State()), filePath).disk
    ensures r == DeleteIfExistsRun(old(fs.State()), filePath).result
  {
    var present := fs.Exists(filePath);
    if !present {
      return Pass;
    }
    ghost var start := fs.State();
    var attempt := 0;
    while true
      invariant 0 <= attempt <= MaxRetries
      invariant attempt <= FirstDeleted(start.outcomes)
      invariant fs.files == start.files
      invariant fs.outcomes == Drop(start.outcomes, attempt)
      invariant fs.log == start.log + Cycles(filePath, attempt)
      decreases MaxRetries - attempt
    {
      DropStep(start.outcomes, attempt);
      CyclesSnoc(start.log, filePath, attempt);
      var deleted := fs.Delete(filePath);
      assert fs.outcomes == Drop(start.outcomes, attempt + 1);
      assert fs.log == start.log + Tries(filePath, attempt + 1);
      if deleted {
        FirstDeletedAt(start.outcomes, attempt);
        DeleteRunDeleted(start, filePath, attempt);
        return Pass;
      }
      var retry := attempt < MaxRetries;
      attempt := attempt + 1;
      if !retry {
        DeleteRunLocked(start, filePath);
        return Fail(CleanupError(filePath));
      }
      fs.Sleep();
    }
  }

  /** The artifacts Cleanup deletes, in the order it deletes them. */
  function ArtifactFiles(paths: ArtifactsPaths): seq<Path> {
    [paths.programCodePath, paths.appConfigPath, paths.buildScriptFilePath, paths.executablePath]
  }

  /** What deleting a list of paths one after another did; `attempts` has one entry per path reached. */
  datatype CleanupRun = CleanupRun(disk: Disk, attempts: seq<nat>, result: Outcome<CleanupError>)

  /** DeleteIfExists on each path in turn; a failure propagates and the remaining paths are not reached. */
  function CleanupPaths(d: Disk, ps: seq<Path>): (r: CleanupRun)
    decreases |ps|
  {
    if ps == [] then CleanupRun(d, [], Pass)
    else
      var first := DeleteIfExistsRun(d, ps[0]);
      if first.result.Fail? then CleanupRun(first.disk, [first.attempts], first.result)
      else
        var rest := CleanupPaths(first.disk, ps[1..]);
        CleanupRun(rest.disk, [first.attempts] + rest.attempts, rest.result)
  }

  /** One step of CleanupPaths: the first path, then the rest unless the first failed. */
  lemma CleanupPathsCons(d: Disk, ps: seq<Path>)
    requires ps != []
    ensures var first := DeleteIfExistsRun(d, ps[0]);
      && (first.result.Fail? ==>
            CleanupPaths(d, ps).disk == first.disk && CleanupPaths(d, ps).result == first.result)
      && (first.result.Pass? ==>
            CleanupPaths(d, ps).disk == CleanupPaths(first.disk, ps[1..]).disk
            && CleanupPaths(d, ps).result == CleanupPaths(first.disk, ps[1..]).result)
  {
  }

  /** The calls of a sequence of retry loops: `counts[i]` deletes of `ps[i]`, loop after loop. */
  function Runs(ps: seq<Path>, counts: seq<nat>): seq<Call>
    requires |ps| == |counts|
    decreases |ps|
  {
    if ps == [] then [] else Tries(ps[0], counts[0]) + Runs(ps[1..], counts[1..])
  }

  /** The runs of a list reached up to its `|more| + 1`th path: the first path's run, then the others'. */
  lemma RunsCons(ps: seq<Path>, first: nat, more: seq<nat>)
    requires |more| < |ps|
    ensures Runs(ps[..|more| + 1], [first] + more) == Tries(ps[0], first) + Runs(ps[1..][..|more|], more)
  {
    var reached, counts := ps[..|more| + 1], [first] + more;
    assert Runs(reached, counts) == Tries(reached[0], counts[0]) + Runs(reached[1..], counts[1..]);
    assert reached[0] == ps[0] && reached[1..] == ps[1..][..|more|];
    assert counts[0] == first && counts[1..] == more;
  }

  /**
   * Cleanup reaches the paths from the front of the list: all of them on
   * success; on failure the failing path is the last one reached, and the
   * error names it.
   */
  lemma {:induction false} CleanupPathsReached(d: Disk, ps: seq<Path>)
    ensures var r := CleanupPaths(d, ps);
      && |r.attempts| <= |ps|
      && (r.result.Pass? ==> |r.attempts| == |ps|)
      && (r.result.Fail? ==> |r.attempts| >= 1 && r.result.error == CleanupError(ps[|r.attempts| - 1]))
    decreases |ps|
  {
    if ps != [] {
      var first := DeleteIfExistsRun(d, ps[0]);
      if first.result.Fail? {
        assert CleanupPaths(d, ps) == CleanupRun(first.disk, [first.attempts], first.result);
      } else {
        var rest := CleanupPaths(first.disk, ps[1..]);
        assert CleanupPaths(d, ps) == CleanupRun(rest.disk, [first.attempts] + rest.attempts, rest.result);
        CleanupPathsReached(first.disk, ps[1..]);
      }
    }
  }

  /** The log after the first path's run and the runs of the rest. */
  lemma LogAfterRest(log: seq<Call>, ps: seq<Path>, first: nat, more: seq<nat>)
    requires |more| < |ps|
    ensures log + Tries(ps[0], first) + Runs(ps[1..][..|more|], more) == log + Runs(ps[..|more| + 1], [first] + more)
  {
    RunsCons(ps, first, more);
  }

  /**
   * The paths reached are attempted in list order, each in one uninterrupted
   * run of calls, and nothing else is called.
   */
  lemma {:induction false} CleanupPathsInOrder(d: Disk, ps: seq<Path>)
    ensures var r := CleanupPaths(d, ps);
      && |r.attempts| <= |ps|
      && r.disk.log == d.log + Runs(ps[..|r.attempts|], r.attempts)
    decreases |ps|
  {
    if ps != [] {
      var first := DeleteIfExistsRun(d, ps[0]);
      if first.result.Fail? {
        assert CleanupPaths(d, ps) == CleanupRun(first.disk, [first.attempts], first.result);
        assert ps[..1] == [ps[0]];
        assert Runs([ps[0]], [first.attempts]) == Tries(ps[0], first.attempts) + [];
      } else {
        var rest := CleanupPaths(first.disk, ps[1..]);
        assert CleanupPaths(d, ps) == CleanupRun(rest.disk, [first.attempts] + rest.attempts, rest.result);
        CleanupPathsInOrder(first.disk, ps[1..]);
        LogAfterRest(d.log, ps, first.attempts, rest.attempts);
      }
    }
  }


  /** After a successful cleanup none of the paths exists and every other file is untouched. */
  lemma {:induction false} CleanupPathsRemoves(d: Disk, ps: seq<Path>)
    requires CleanupPaths(d, ps).result.Pass?
    ensures CleanupPaths(d, ps).disk.files == d.files - (set p | p in ps)
    decreases |ps|
  {
    if ps == [] {
      assert d.files - (set p | p in ps) == d.files;
    } else {
      var first := DeleteIfExistsRun(d, ps[0]);
      CleanupPathsRemoves(first.disk, ps[1..]);
      assert (set p | p in ps) == {ps[0]} + (set p | p in ps[1..]);
      assert d.files - {ps[0]} - (set p | p in ps[1..]) == d.files - (set p | p in ps);
    }
  }

  /**
   * After a failed cleanup exactly the paths before the failing one are
   * gone, and the failing path still exists.
   */
  lemma {:induction false} CleanupPathsStops(d: Disk, ps: seq<Path>)
    requires CleanupPaths(d, ps).result.Fail?
    ensures var r := CleanupPaths(d, ps);
      && 1 <= |r.attempts| <= |ps|
      && r.result.error.path in r.disk.files
      && var before := ps[..|r.attempts| - 1];
         r.disk.files == d.files - (set p | p in before)
    decreases |ps|
  {
    var first := DeleteIfExistsRun(d, ps[0]);
    if first.result.Fail? {
      assert d.files - (set p | p in ps[..0]) == d.files;
    } else {
      var rest := CleanupPaths(first.disk, ps[1..]);
      CleanupPathsStops(first.disk, ps[1..]);
      var n := |rest.attempts|;
      var before, later := ps[..n], ps[1..][..n - 1];
      assert before[0] == ps[0] && before[1..] == later;
      assert (set p | p in before) == {ps[0]} + (set p | p in later);
      assert d.files - {ps[0]} - (set p | p in later) == d.files - (set p | p in before);
    }
  }

  /** Cleanup of paths none of which exists does nothing at all: no delete, no sleep. */
  lemma {:induction false} CleanupOfAbsentPaths(d: Disk, ps: seq<Path>)
    requires forall p :: p in ps ==> p !in d.files
    ensures CleanupPaths(d, ps) == CleanupRun(d, seq(|ps|, _ => 0), Pass)
    decreases |ps|
  {
    if ps != [] {
      CleanupOfAbsentPaths(d, ps[1..]);
      assert [0] + seq(|ps| - 1, _ => 0) == seq(|ps|, _ => 0);
    }
  }

  /** Cleanup is idempotent: once it has succeeded, running it again changes nothing. */
  lemma CleanupIdempotent(d: Disk, ps: seq<Path>)
    requires CleanupPaths(d, ps).result.Pass?
    ensures var once := CleanupPaths(d, ps).disk;
      CleanupPaths(once, ps) == CleanupRun(once, seq(|ps|, _ => 0), Pass)
  {
    CleanupPathsRemoves(d, ps);
    CleanupOfAbsentPaths(CleanupPaths(d, ps).disk, ps);
  }

  /**
   * Cleanup: deletes the program source, the app config, the build script
   * and the executable, in that order; a deletion that fails for good stops
   * it, and the later artifacts are left alone.
   */
  method Cleanup(fs: FileSystem, paths: ArtifactsPaths) returns (r: Outcome<CleanupError>)
    modifies fs
    ensures fs.State() == CleanupPaths(old(fs.State()), ArtifactFiles(paths)).disk
    ensures r == CleanupPaths(old(fs.State()), ArtifactFiles(paths)).result
  {
    ghost var ps := ArtifactFiles(paths);
    ghost var d := fs.State();
    CleanupPathsCons(d, ps);
    r := DeleteIfExists(fs, paths.programCodePath);
    if r.Fail? {
      return;
    }
    d, ps := fs.State(), ps[1..];
    CleanupPathsCons(d, ps);
    r := DeleteIfExists(fs, paths.appConfigPath);
    if r.Fail? {
      return;
    }
    d, ps := fs.State(), ps[1..];
    CleanupPathsCons(d, ps);
    r := DeleteIfExists(fs, paths.buildScriptFilePath);
    if r.Fail? {
      return;
    }
    d, ps := fs.State(), ps[1..];
    CleanupPathsCons(d, ps);
    r := DeleteIfExists(fs, paths.executablePath);
    assert ps[1..] == [];
  }
}
