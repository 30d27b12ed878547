# BenchmarkDotNet Roslyn toolchain generator — Dafny model

This project models `Generator` of the Roslyn toolchain
(`src/BenchmarkDotNet.Toolchains.Roslyn/Generator.cs`). The generator prepares
the artifacts from which a standalone benchmark harness is built:

- the **artifacts directory**: the directory of the assembly that declares the benchmark's target type;
- the **reference set**: the direct references of that assembly, loaded, followed by the target assembly,
  BenchmarkDotNet.Runtime and the Roslyn toolchain assembly, with duplicates removed;
- the **build script**: one `csc` command line (run under `mono` behind a bash shebang off Windows),
  which overwrites the build script file;
- **cleanup**: deletion of the program source, app config, build script and executable of a previous run,
  each retried while a just-exited benchmark process still holds the file.

Files and modules:

- `generator.dfy`, module `RoslynGenerator`: the generator itself. Pure parts are functions with lemmas.
  The parts the source writes step by step are methods over a `FileSystem` object:
  - `GenerateBuildScript` fills its token list by successive additions, then writes the file;
  - `DeleteIfExists` is the counter-driven retry loop;
  - `Cleanup` makes the four deletions in order.
  Each method is proved against a specification function: `BuildScript`, `DeleteIfExistsRun` and `CleanupPaths`.
- `files.dfy`, module `Files`: the host's `File.Exists`, `File.Delete`, `File.WriteAllText` and
  `Thread.Sleep` as methods of a `FileSystem` class.
  - The state is the existing files with their text, the outcomes of the coming `File.Delete` calls,
    and one log of the `File.Delete` and `Thread.Sleep` calls made, in the order made.
  - Each delete call uses up one scripted outcome. When the script is used up, deletes succeed.
- `enumerable.dfy`, module `Enumerable`: LINQ `Distinct`. It yields each element the first time it is met.
- `text.dfy`, module `Text`: `string.Join`, and `Split`, its inverse for parts that do not contain the separator.
- `wrappers.dfy`, module `Wrappers`: `Option`, `Result`, `Outcome`. The model uses them in place of the
  exceptions the source lets propagate.

Host calls whose code is not part of this model are fields of the `Environment` datatype, so every lemma holds
for any behaviour of them that returns a value (exceptions and null results are not modelled):
- `IsWindows`;
- `Assembly.Load`, with `None` meaning it throws;
- the runtime and toolchain assemblies;
- `Platform.ToConfig`, `Escape`, `Path.GetFileName` and `Path.GetDirectoryName`.

The platform is an abstract type: the value the job's Platform characteristic resolves to.
The source's private `DelteIfExists` is called `DeleteIfExists` here.

Two facts about the code are worth stating on their own:
- The reference set is not a transitive closure: only `GetReferencedAssemblies` of the target assembly is
  used. `OnlyDirectReferences` states the consequence: an assembly reachable only through a reference of a
  reference is not in the set.
- A cleanup failure is the exception of the last `File.Delete` call, which propagates. Here it is
  `Fail(CleanupError(path))`.

## Model

| member | source | states |
|---|---|---|
| `RoslynGenerator.GetBuildArtifactsDirectoryPath` | src/BenchmarkDotNet.Toolchains.Roslyn/Generator.cs:20-21 | computes the artifacts directory: `GetDirectoryName` of the location of the assembly that declares the target type; the program name is not used |
| `RoslynGenerator.ArtifactsDirectoryOfLocation` | src/BenchmarkDotNet.Toolchains.Roslyn/Generator.cs:20-21 | the artifacts directory is `GetDirectoryName` of the target assembly's location, and equal locations give equal directories whatever the program names |
| `RoslynGenerator.LoadAll` | src/BenchmarkDotNet.Toolchains.Roslyn/Generator.cs:57-59 | loading the direct references in order: succeeds iff every name loads, with the loaded assemblies index by index; otherwise fails naming the first name that does not load |
| `RoslynGenerator.GetAllReferences` | src/BenchmarkDotNet.Toolchains.Roslyn/Generator.cs:55-68 | succeeds iff every direct reference loads, else fails naming a direct reference that does not load; on success no duplicates, contains the target, runtime and toolchain assemblies and every loaded direct reference, and nothing else |
| `RoslynGenerator.OnlyDirectReferences` | src/BenchmarkDotNet.Toolchains.Roslyn/Generator.cs:57-59 | an assembly that is none of the three fixed ones and that no direct reference loads as is not in the set (no transitive closure) |
| `RoslynGenerator.ReferencesOrder` | src/BenchmarkDotNet.Toolchains.Roslyn/Generator.cs:57-67 | the set lists the distinct loaded direct references first, in reference order, then target, runtime and toolchain assemblies, each only if not already present |
| `RoslynGenerator.EscapedLocations` | src/BenchmarkDotNet.Toolchains.Roslyn/Generator.cs:46 | computes the escaped location of each reference, one per reference, in reference order |
| `RoslynGenerator.CompilerTokens` | src/BenchmarkDotNet.Toolchains.Roslyn/Generator.cs:39-48 | computes the nine `csc` tokens in the order the generator adds them: the fixed options, the platform, the app config, the reference list and the program file name |
| `RoslynGenerator.ScriptTokens` | src/BenchmarkDotNet.Toolchains.Roslyn/Generator.cs:37-48 | the token list is the compiler tokens, preceded by `mono` exactly off Windows: one token longer off Windows, ending with the nine compiler tokens |
| `RoslynGenerator.ScriptPrefix` | src/BenchmarkDotNet.Toolchains.Roslyn/Generator.cs:35 | the prefix is empty exactly on Windows (elsewhere the bash shebang line) |
| `RoslynGenerator.BuildScript` | src/BenchmarkDotNet.Toolchains.Roslyn/Generator.cs:35-52 | computes the whole content written to the build script file: the prefix followed by the token list joined with single spaces |
| `RoslynGenerator.CompilerCommandText` | src/BenchmarkDotNet.Toolchains.Roslyn/Generator.cs:39-48 | the compiler command is exactly `csc /noconfig /target:exe /optimize /unsafe /platform:<ToConfig> /appconfig:<Escape(app config)> /reference:<escaped locations joined by ','> <file name of the program source>` |
| `RoslynGenerator.BuildScriptByPlatform` | src/BenchmarkDotNet.Toolchains.Roslyn/Generator.cs:35-38 | on Windows the script is the compiler command with no prefix; elsewhere it is `#!/bin/bash\n`, then `mono`, a space and the same command |
| `RoslynGenerator.ScriptTokensRecovered` | src/BenchmarkDotNet.Toolchains.Roslyn/Generator.cs:36-52 | when the host-supplied parts contain no space, splitting the script after its prefix at spaces gives back exactly the token list, in order |
| `RoslynGenerator.ReferenceTokenRecovered` | src/BenchmarkDotNet.Toolchains.Roslyn/Generator.cs:46-47 | the reference token starts with `/reference:`, and splitting the rest at commas gives back the escaped locations in order, when no location contains a comma |
| `RoslynGenerator.GenerateBuildScript` | src/BenchmarkDotNet.Toolchains.Roslyn/Generator.cs:33-53 | on a load failure, propagates it and changes nothing; otherwise overwrites the build script file with `BuildScript` of the platform, paths and reference set, and changes nothing else |
| `RoslynGenerator.GenerateBuildScriptTwice` | src/BenchmarkDotNet.Toolchains.Roslyn/Generator.cs:33-53 | generating twice gives the same outcome and the same final state as generating once (idempotent, deterministic) |
| `RoslynGenerator.FirstDeleted` | src/BenchmarkDotNet.Toolchains.Roslyn/Generator.cs:76-87 | the number of coming delete calls that fail before the first that succeeds: all before it fail, the one at it succeeds |
| `RoslynGenerator.TriesAlternate` | src/BenchmarkDotNet.Toolchains.Roslyn/Generator.cs:76-87 | the calls of a retry loop with n >= 1 deletes are 2n - 1 calls that alternate delete and sleep, starting and ending with a delete: one sleep after each failed attempt and before the next, none after the last |
| `RoslynGenerator.DeleteIfExistsRun` | src/BenchmarkDotNet.Toolchains.Roslyn/Generator.cs:70-88 | an absent file: no call at all, normal return. Otherwise 1 to 6 deletes, and the log grows by exactly `Tries` of that many deletes (a sleep between each two deletes); all but the last delete failed. A normal return means the last delete succeeded and the file is gone. Failure happens iff the first six deletes all fail; it names the path and leaves the files unchanged |
| `RoslynGenerator.DeleteSucceedsAfterFailures` | src/BenchmarkDotNet.Toolchains.Roslyn/Generator.cs:75-86 | a file deletable after n <= 5 failed attempts is deleted in n + 1 attempts, and the log grows by the n + 1 deletes with a sleep after each failed one |
| `RoslynGenerator.DeleteFailsWhenAlwaysLocked` | src/BenchmarkDotNet.Toolchains.Roslyn/Generator.cs:83-87 | a file that stays held: the log grows by exactly delete, sleep, delete, sleep, delete, sleep, delete, sleep, delete, sleep, delete; the failure propagates; files unchanged |
| `RoslynGenerator.DeleteIfExists` | src/BenchmarkDotNet.Toolchains.Roslyn/Generator.cs:70-88 | the retry loop, with its counter incremented in the catch filter, has exactly the effect and outcome `DeleteIfExistsRun` gives |
| `RoslynGenerator.CleanupPaths` | src/BenchmarkDotNet.Toolchains.Roslyn/Generator.cs:24-30 | computes the effect of deleting a list of paths one after another with the retry loop: each path's run applied to the disk left by the previous one, stopping at the first failure, which it returns |
| `RoslynGenerator.CleanupPathsReached` | src/BenchmarkDotNet.Toolchains.Roslyn/Generator.cs:24-30 | the paths reached are a prefix of the list: all of them on success; on failure the failing path is the last one reached and the error names it, so later paths are not attempted |
| `RoslynGenerator.CleanupPathsInOrder` | src/BenchmarkDotNet.Toolchains.Roslyn/Generator.cs:24-30 | the log grows by one retry-loop run per reached path, in list order, and by nothing else |
| `RoslynGenerator.CleanupPathsRemoves` | src/BenchmarkDotNet.Toolchains.Roslyn/Generator.cs:24-30 | after a successful cleanup the files are the old files minus exactly the listed paths |
| `RoslynGenerator.CleanupPathsStops` | src/BenchmarkDotNet.Toolchains.Roslyn/Generator.cs:24-30 | after a failed cleanup exactly the paths before the failing one are removed, and the failing path still exists |
| `RoslynGenerator.CleanupOfAbsentPaths` | src/BenchmarkDotNet.Toolchains.Roslyn/Generator.cs:72-73 | cleaning paths none of which exists changes nothing and passes |
| `RoslynGenerator.CleanupIdempotent` | src/BenchmarkDotNet.Toolchains.Roslyn/Generator.cs:24-30 | after a successful cleanup, a second cleanup changes nothing |
| `RoslynGenerator.Cleanup` | src/BenchmarkDotNet.Toolchains.Roslyn/Generator.cs:24-30 | deletes program source, app config, build script and executable in that order, stopping at the first failure, with exactly the effect `CleanupPaths` gives |
| `Enumerable.Distinct` | src/BenchmarkDotNet.Toolchains.Roslyn/Generator.cs:67 | the result has no duplicates and has exactly the elements of the input |
| `Enumerable.DistinctSnoc` | src/BenchmarkDotNet.Toolchains.Roslyn/Generator.cs:67 | one more input element appends it to the output exactly when it is new (order-preserving, first occurrences) |
| `Enumerable.DistinctAppendThree` | src/BenchmarkDotNet.Toolchains.Roslyn/Generator.cs:60-67 | Distinct of a sequence followed by three elements is Distinct of the sequence followed by each of the three that is new |
| `Enumerable.DistinctOfUnique` | src/BenchmarkDotNet.Toolchains.Roslyn/Generator.cs:67 | a sequence without duplicates is unchanged by Distinct |
| `Enumerable.DistinctIdempotent` | src/BenchmarkDotNet.Toolchains.Roslyn/Generator.cs:67 | Distinct applied twice equals Distinct applied once |
| `Text.Join` | src/BenchmarkDotNet.Toolchains.Roslyn/Generator.cs:47-52 | computes `string.Join`: the parts in order with the separator between adjacent ones, the empty string for no parts |
| `Text.JoinSnoc` | src/BenchmarkDotNet.Toolchains.Roslyn/Generator.cs:52 | joining one more part appends the separator and the part |
| `Text.SplitJoin` | src/BenchmarkDotNet.Toolchains.Roslyn/Generator.cs:47-52 | parts free of the separator character are recovered by splitting their join |
| `Text.JoinSplit` | src/BenchmarkDotNet.Toolchains.Roslyn/Generator.cs:47-52 | joining the pieces of any string with the split character gives the string back |
| `Files.FileSystem.Exists` | src/BenchmarkDotNet.Toolchains.Roslyn/Generator.cs:72 | `File.Exists` is true exactly for existing files |
| `Files.FileSystem.Delete` | src/BenchmarkDotNet.Toolchains.Roslyn/Generator.cs:80 | `File.Delete` uses one scripted outcome: on success the file is removed, on failure nothing but the script and the log changes; the log grows by this delete call |
| `Files.FileSystem.Sleep` | src/BenchmarkDotNet.Toolchains.Roslyn/Generator.cs:85 | `Thread.Sleep` only appends a sleep call to the log |
| `Files.FileSystem.WriteAllText` | src/BenchmarkDotNet.Toolchains.Roslyn/Generator.cs:50-52 | `File.WriteAllText` replaces the whole content of the file, creating it if needed, and changes nothing else |

## Left out

- The bodies of `Escape`, `ToConfig`, `Path.GetFileName`, `Path.GetDirectoryName`, `Assembly.Load` and
  `IsWindows` are not part of this model. They are `Environment` fields, and every property holds for any
  behaviour of them that returns a value. So the model cannot show that the artifacts directory is an ancestor of the assembly
  location, or that escaping quotes paths correctly.
- Exceptions and null results of the host calls are not modelled, apart from a failing `Assembly.Load`.
  The `Environment` fields are total functions that always return a value. So an assembly with no location
  (one loaded from a byte array has an empty `Location`) is out of scope. `Path.GetDirectoryName` of an empty
  path throws or returns null, so the artifacts directory is undefined in the source, while
  `GetBuildArtifactsDirectoryPath` returns some path. The same holds when resolving the platform, `ToConfig`,
  `Escape` or `Path.GetFileName` throws while the build script is generated: the source fails before
  anything is written, and the model always writes the script once the references load.
- Resolving the Platform characteristic through the job and its `IResolver` is not modelled. A benchmark
  carries the resolved platform.
- How the four `ArtifactsPaths` fields are derived is not modelled; that is done by the generator base class.
  Cleanup takes them as given.
- `File.WriteAllText` failures (disk full, access denied) are not modelled: writing always succeeds.
  `File.Exists` is membership in the set of existing files. Permission checks, directories and races with
  other processes are not modelled.
- Real time: a sleep is logged, not timed.
- What `File.Delete` throws is not distinguished. Every failure is `Locked`, and the propagated failure is
  `CleanupError(path)`.
- LINQ's lazy evaluation is modelled by its observable result: the references are loaded in order when the
  reference token is built, and the first load failure propagates before the script is written.
- Assembly identity is value equality of the `Assembly` datatype (name, location, direct references), which
  stands for the runtime's reference identity of loaded assemblies.
- `RoslynGenerator.GetAllReferences`: on failure the contract names a direct reference that does not load;
  that it is the first such reference is stated by `LoadAll`.
- `RoslynGenerator.ScriptTokensRecovered`: stated only when the escaped paths, the platform string and
  the file name contain no space, since a space inside a token cannot be told apart from a separator.
- The approval tests of the exporters (`tests/BenchmarkDotNet.Tests/Exporters/ApprovalTests.cs`) exercise
  code that is not part of this model, through libraries that are not part of it either.
