# Mock GPU driver and CI matrix selection, in Dafny

This project models a mock GPU driver test harness. The harness has three parts.

- **The driver**, `GPUDriver` in `src/gpu_driver.py`. It is a two-state machine, Uninitialized then Initialized, with no way back. It holds a fixed version string, an `initialized` flag and a memory counter. Allocation and compute dispatch are refused before initialization. Release works in any state and clamps the counter at zero. The temperature reading lies in a range that depends on the version.
- **The compute engine**, `src/gpu_compute.py`. `run_workload` doubles its size. `benchmark_compute` passes that output through.
- **The CI matrix script**, `scripts/generate_matrix.py`. It parses the `git diff --name-only` output into a list of changed paths. It picks the full or the minimal test matrix from that list. It also prints a diagnostic listing that names at most five files.

Dafny modules follow the source files:

- `GpuDriver` (`gpu_driver.dfy`) holds the class `Driver`. It has the fields `version`, `initialized` and `memoryAllocated`. `version` is set only by the constructors; the other two are updated in place. Each mutating method names the one field it may change (`modifies this`initialized` or `modifies this`memoryAllocated`). It ties the new abstract state `State()` to `Step(old(State()), call)`. `Step` and `Run` (a sequence of calls) are the pure specification. Lemmas about `Run` state what holds over any sequence of calls.
- `GpuCompute` (`gpu_compute.dfy`) holds the two pure compute helpers.
- `CiMatrix` (`ci_matrix.dfy`) holds the matrix selection, the diff parsing and the diagnostic listing. `should_run_full_matrix` is a nested loop with an early return, so it is a method. It is proved equal to the `exists` predicate `NeedsFullMatrix`.
- `PyStrings` (`pystrings.dfy`) holds the Python string builtins the script relies on: `in` on strings, `strip()`, `split('\n')` and `str(n)`. `in` is defined directly as an occurrence at some offset and is proved equal to a left-to-right scan. `strip()`, `split('\n')` and `str(n)` are pinned down by their contracts and round-trip lemmas, for example split and join undo each other in both directions.
- `Wrappers` (`wrappers.dfy`) holds `Option` and `Result`. `Result` carries the driver's `RuntimeError("Driver not initialized")` as `Failure(NotInitialized)`.

Inputs that the source reads from the process become parameters:

- The `DRIVER_VERSION` environment variable is passed to `Driver.FromEnvironment` as an `Option<string>`. An absent variable is `None`.
- The outcome of the `git diff` subprocess is passed as a `GitDiff` value: either its standard output or `Failed`.
- The random temperature offset is an arbitrary choice in 0..5, so callers can rely only on the range.

Three behaviours of the code are worth noting:

- `os.getenv("DRIVER_VERSION", "1.0")` returns `""` when the variable is set to the empty string, and the model keeps `""` (`VersionSettingDefault`).
- `get_changed_files` strips the whole `git diff` output before splitting it into lines, so leading whitespace of the first path and trailing whitespace of the last path are lost (`LeadingBlankIsLost`).
- `memory_allocated` is not kept non-negative, because `allocate_memory` accepts a negative amount. `RunKeepsMemoryNonNegative` proves the counter stays non-negative when every allocation is non-negative, and `NegativeAllocationIsAccepted` shows the break.

## Model

| member | source | states |
|---|---|---|
| `GpuDriver.Driver.constructor` | src/gpu_driver.py:12-15 | a new driver has the given version, is uninitialized and has 0 memory allocated |
| `GpuDriver.Driver.FromEnvironment` | src/gpu_driver.py:12-15 | the version is the `DRIVER_VERSION` setting, or "1.0" when it is absent; the driver starts uninitialized with 0 memory |
| `GpuDriver.VersionSetting` | src/gpu_driver.py:13 | an absent `DRIVER_VERSION` gives "1.0"; a present one is returned unchanged |
| `GpuDriver.VersionSettingDefault` | src/gpu_driver.py:13 | the default "1.0" applies only when the setting is absent; any setting, including "", is used as it is |
| `GpuDriver.Driver.Initialize` | src/gpu_driver.py:18-22 | afterwards the driver is initialized, whatever its state before; version and memory are unchanged; the message is "Driver <version> initialized." |
| `GpuDriver.InitMessage` | src/gpu_driver.py:22 | the confirmation contains the version and the word "initialized" as substrings |
| `GpuDriver.InitializeIdempotent` | src/gpu_driver.py:18-22 | initializing twice leaves the same state as initializing once |
| `GpuDriver.Driver.GetVersion` | src/gpu_driver.py:25-27 | returns the stored version in any state and changes nothing |
| `GpuDriver.Driver.AllocateMemory` | src/gpu_driver.py:30-35 | uninitialized: fails with NotInitialized and changes nothing; initialized: the counter grows by `amount` and the new total is returned; the counter stays non-negative for non-negative amounts |
| `GpuDriver.Driver.ReleaseMemory` | src/gpu_driver.py:38-41 | in any state the counter becomes max(old - amount, 0) and is returned, so it is never negative; version and flag are unchanged |
| `GpuDriver.Driver.GetTemperature` | src/gpu_driver.py:44-49 | the reading is in [45, 50] for version "1.0" exactly and in [50, 55] for every other version; no state changes |
| `GpuDriver.Driver.RunCompute` | src/gpu_driver.py:51-56 | uninitialized: fails with NotInitialized; initialized: returns the compute engine's `RunWorkload` of the size, which is twice the size; no state changes |
| `GpuDriver.RunKeepsVersion` | src/gpu_driver.py:13 | no sequence of calls changes the version |
| `GpuDriver.InitializedIsPermanent` | src/gpu_driver.py:21 | once initialized, every sequence of calls leaves the driver initialized |
| `GpuDriver.RunKeepsMemoryNonNegative` | src/gpu_driver.py:34-40 | from a non-negative counter, any sequence of calls whose allocations are non-negative keeps it non-negative |
| `GpuDriver.NegativeAllocationIsAccepted` | src/gpu_driver.py:34 | initializing and then allocating -1 leaves the counter at -1, because amounts are not validated |
| `GpuDriver.UninitializedIgnoresAllocations` | src/gpu_driver.py:32-33 | on an uninitialized driver, calls other than initialize and release leave the whole state unchanged |
| `GpuDriver.AllocationsAddUp` | src/gpu_driver.py:34-35 | on an initialized driver, consecutive allocations add their sum to the counter and change nothing else |
| `GpuDriver.ReleaseAllEmpties` | src/gpu_driver.py:40 | releasing at least the allocated amount sets the counter to exactly 0 |
| `GpuDriver.MemoryAllocationScenario` | tests/test_driver.py:21-32 | after initializing, allocating 256 and then 128 returns 256 and 384, and releasing 128 returns 256 |
| `GpuDriver.UninitializedScenario` | src/gpu_driver.py:30-56 | before initialization, allocation and compute fail, release(1000) returns 0, and the driver stays uninitialized |
| `GpuDriver.FullWorkflowScenario` | tests/test_e2e.py:12-40 | the end-to-end sequence returns 512, 200, 100, 400 and 256 |
| `GpuDriver.VersionTwoScenario` | tests/test_e2e.py:44-62 | a driver with `DRIVER_VERSION` "2.0" reports "2.0" and a temperature in [50, 55] |
| `GpuCompute.RunWorkload` | src/gpu_compute.py:14-15 | the result is even and halving it gives the size back, for every integer size |
| `GpuCompute.BenchmarkOutput` | src/gpu_compute.py:18-26 | the benchmark's output is even and halves back to the size |
| `GpuCompute.BenchmarkReportsWorkload` | src/gpu_compute.py:22-26 | the benchmark's output is the workload result, twice the size |
| `GpuCompute.TestedSizes` | tests/test_e2e.py:30-35 | the sizes of this test and of tests/test_driver.py:45-46 and tests/test_performance.py:14-17: 5 gives 10, 50 gives 100, benchmarks of 100 and 200 give 200 and 400, 0 gives 0 and -3 gives -6 |
| `CiMatrix.ShouldRunFullMatrix` | scripts/generate_matrix.py:30-43 | returns true exactly when some changed path contains one of the three critical paths as a substring |
| `CiMatrix.GenerateMatrix` | scripts/generate_matrix.py:46-72 | returns the full matrix when a critical path changed or the list is empty, and the minimal matrix otherwise |
| `CiMatrix.MatricesDiffer` | scripts/generate_matrix.py:52-70 | the full and the minimal matrix are different values |
| `CiMatrix.MinimalMatrixShape` | scripts/generate_matrix.py:52-56 | the minimal matrix has one value per axis ("ubuntu-latest", "3.10", "2.0") and no exclude key |
| `CiMatrix.FullMatrixShape` | scripts/generate_matrix.py:60-70 | the full matrix has 2 OS values, 3 Python versions and 2 driver versions, and a single exclusion (windows-latest, 2.0) whose values lie on their axes |
| `CiMatrix.NoChangesNeedNoFullMatrix` | scripts/generate_matrix.py:39-43 | an empty list touches no critical path, yet it still selects the full matrix |
| `CiMatrix.ReadmeChangeIsMinimal` | scripts/generate_matrix.py:59 | a change to README.md alone selects the minimal matrix; adding tests/test_driver.py selects the full one |
| `CiMatrix.MatchAnywhereInPath` | scripts/generate_matrix.py:41 | a critical path matches anywhere inside a changed path, not only as a prefix |
| `CiMatrix.SelectionIgnoresOrder` | scripts/generate_matrix.py:39-43 | two lists with the same paths, in any order or with repeats, select the same matrix |
| `CiMatrix.MoreChangesNeverDowngrade` | scripts/generate_matrix.py:59 | if a non-empty list selects the full matrix, so does that list with more paths appended |
| `CiMatrix.EmptyListIsTheException` | scripts/generate_matrix.py:59 | the non-empty premise is needed: the empty list selects full, and appending README.md to it selects minimal |
| `CiMatrix.ParseChangedFiles` | scripts/generate_matrix.py:24 | blank output gives no files; otherwise the files joined by line breaks are the stripped output and no file contains a line break, which with `SplitJoin` fixes the list as the stripped output split at line breaks |
| `CiMatrix.ChangedFiles` | scripts/generate_matrix.py:16-27 | a failed diff (`CalledProcessError`) or blank output gives no files; otherwise the files joined by line breaks are the stripped output, and no file contains a line break |
| `CiMatrix.NoDiffRunsEverything` | scripts/generate_matrix.py:24-27 | a failed or blank diff gives no changed files and so selects the full matrix |
| `CiMatrix.OneLineDiff` | scripts/generate_matrix.py:24 | output holding one path with no surrounding whitespace and no line break, followed by a line break, parses to exactly that path |
| `CiMatrix.LeadingBlankIsLost` | scripts/generate_matrix.py:24 | output holding such a path preceded by a blank parses to the path without the blank, because the whole output is stripped before it is split |
| `CiMatrix.ReadmeDiffIsMinimal` | scripts/generate_matrix.py:24 | the diff output "README.md\n" selects the minimal matrix |
| `CiMatrix.Truncate` | scripts/generate_matrix.py:88-91 | shows the first min(5, n) files in order and counts the rest; the hidden count is positive exactly when n > 5 |
| `CiMatrix.DiagnosticLines` | scripts/generate_matrix.py:86-91 | prints nothing for no files; otherwise prints the count line, one line for each of the first min(5, n) files, and a "... and n-5 more" line exactly when n > 5 |
| `CiMatrix.CountLineReadsBack` | scripts/generate_matrix.py:87 | the count on the first diagnostic line reads back as the number of changed files |
| `CiMatrix.SixFilesListing` | scripts/generate_matrix.py:88-91 | six files give the count line, five file lines and "... and 1 more" |
| `PyStrings.IsSubstring` | scripts/generate_matrix.py:41 | `critical in file` holds when the critical path occurs at some offset of the file path; the empty string occurs everywhere and nothing longer than the path occurs in it |
| `PyStrings.SubstringByScan` | scripts/generate_matrix.py:41 | `in` agrees, in both directions, with a scan that tests each suffix of the path for the critical path as a prefix |
| `PyStrings.Strip` | scripts/generate_matrix.py:24 | `strip()` returns the text between leading and trailing whitespace; the result is empty exactly when the input is all whitespace, and otherwise it neither starts nor ends with whitespace |
| `PyStrings.Split` | scripts/generate_matrix.py:24 | `split('\n')` always returns at least one piece, so `"".split('\n')` is `[""]`; its partners are `JoinSplit`, `SplitJoin`, `SplitPiecesExcludeSeparator` and `SplitPieceCount` |
| `PyStrings.JoinSplit` | scripts/generate_matrix.py:24 | joining the pieces of `split(sep)` with `sep` gives back the input |
| `PyStrings.SplitJoin` | scripts/generate_matrix.py:24 | splitting a join of separator-free pieces gives back those pieces |
| `PyStrings.SplitPiecesExcludeSeparator` | scripts/generate_matrix.py:24 | no piece of a split contains the separator |
| `PyStrings.SplitPieceCount` | scripts/generate_matrix.py:24 | a split has one more piece than the input has separators |
| `PyStrings.NatToString` | scripts/generate_matrix.py:87 | a count is rendered as decimal digits with no leading zero |
| `PyStrings.DecimalRoundTrip` | scripts/generate_matrix.py:87 | reading the decimal rendering of n back gives n |

## Left out

- The `time.sleep` calls in `initialize`, `run_compute` and `run_workload` have no logical effect and are not modelled.
- The float sleep duration drawn with `random.random()` in `run_workload` is not modelled either, so a workload is a deterministic function of its size.
- The `random.randint(0, 5)` draw in `get_temperature` is an arbitrary value in 0..5. No distribution is modelled.
- The `latency` component of `benchmark_compute` is a wall-clock difference of floats, so it is not modelled. Only its output component is (`BenchmarkOutput`).
- Reading the `DRIVER_VERSION` environment variable is process-global state. The setting is passed in as a parameter.
- The `git diff` subprocess itself is not modelled, nor the default `HEAD~1` base reference taken from the command line. Its outcome is an input (`GitDiff`). `generate_matrix(None)`, which runs that subprocess, is covered only through `ChangedFiles` followed by `GenerateMatrix`.
- JSON serialisation of the matrix and the printing to standard output and standard error are not modelled. Key order and indentation are left out. The diagnostic text is modelled as the list of lines printed, without the line break `print` adds after each.
- Python's `str.strip()` is modelled for the characters `str.isspace()` accepts. This is the fixed list in `PyStrings.IsSpace`. No Unicode database lookup is modelled.
- `GpuDriver.Driver.GetTemperature`: the range postcondition is all the model promises, because the concrete offset comes from a random draw.
- The test files and their pytest markers are not modelled. They are used only as evidence. The latency thresholds and the stability test in `tests/test_performance.py` measure wall-clock time and are left out.
