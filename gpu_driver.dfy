/** The mock GPU driver of src/gpu_driver.py.

    A driver is Uninitialized until `initialize` is called and Initialized
    from then on; nothing moves it back. It keeps a version string fixed at
    construction and a memory counter: `allocate_memory` adds its amount
    to it (only once initialized), and `release_memory` subtracts its
    amount and clamps at zero (in any state). The class `Driver` is the object; `DriverState` and `Step` give
    its abstract state and the effect of each call on it, and the lemmas
    about `Run` state what holds over any sequence of calls. */
module GpuDriver {
  import opened Wrappers
  import opened PyStrings
  import GpuCompute

  /** The single error the driver raises. A method result
      `Failure(NotInitialized)` stands for raising
      `RuntimeError(ErrorMessage(NotInitialized))`. */
  datatype DriverError = NotInitialized

  /** The text the raised `RuntimeError` carries. */
  function ErrorMessage(e: DriverError): string {
    match e
    case NotInitialized => "Driver not initialized"
  }

  /** The version used when `DRIVER_VERSION` is not set. */
  const DefaultVersion: string := "1.0"

  /** `os.getenv("DRIVER_VERSION", "1.0")` given the variable's setting:
      the default applies only when the variable is absent, so a variable
      set to the empty string yields the empty version. */
  function VersionSetting(driverVersion: Option<string>): (version: string)
    ensures driverVersion == None ==> version == DefaultVersion
    ensures driverVersion != None ==> version == driverVersion.value
  {
    match driverVersion
    case None => DefaultVersion
    case Some(v) => v
  }

  /** The default "1.0" applies only when the setting is absent; a setting
      of "" is kept as it is. */
  lemma VersionSettingDefault()
    ensures VersionSetting(None) == "1.0"
    ensures VersionSetting(Some("")) == ""
    ensures forall v :: VersionSetting(Some(v)) == v
  {
  }

  datatype DriverState = DriverState(version: string, initialized: bool, memoryAllocated: int)

  /** The state of a freshly constructed driver. */
  function Fresh(version: string): DriverState {
    DriverState(version, false, 0)
  }

  /** The driver's public calls, with their arguments. */
  datatype Call =
    | Initialize
    | GetVersion
    | AllocateMemory(amount: int)
    | ReleaseMemory(amount: int)
    | GetTemperature
    | RunCompute(workloadSize: int)

  function Max(a: int, b: int): int {
    if a >= b then a else b
  }

  /** The effect of one call on the driver's state. A refused allocation
      (before initialization) leaves the state as it was; queries and
      compute dispatch never change it. */
  function Step(s: DriverState, c: Call): DriverState {
    match c
    case Initialize => s.(initialized := true)
    case AllocateMemory(amount) =>
      if s.initialized then s.(memoryAllocated := s.memoryAllocated + amount) else s
    case ReleaseMemory(amount) => s.(memoryAllocated := Max(s.memoryAllocated - amount, 0))
    case GetVersion => s
    case GetTemperature => s
    case RunCompute(_) => s
  }

  /** The state after a sequence of calls. */
  function Run(s: DriverState, calls: seq<Call>): DriverState
    decreases |calls|
  {
    if calls == [] then s else Run(Step(s, calls[0]), calls[1..])
  }

  /** The confirmation returned by `initialize`. */
  function InitMessage(version: string): (msg: string)
    ensures IsSubstring(version, msg) && IsSubstring("initialized", msg)
  {
    var msg := "Driver " + version + " initialized.";
    OccursBetween("Driver ", version, " initialized.");
    assert msg == ("Driver " + version + " ") + "initialized" + ".";
    OccursBetween("Driver " + version + " ", "initialized", ".");
    msg
  }

  /** The base of the reported temperature: 45 for version "1.0" exactly,
      50 for every other version string. */
  function BaseTemperature(version: string): int {
    if version == "1.0" then 45 else 50
  }

  class Driver {
    var version: string
    var initialized: bool
    var memoryAllocated: int

    function State(): DriverState
      reads this
    {
      DriverState(version, initialized, memoryAllocated)
    }

    /** The counter is non-negative; `release_memory` always restores this
        and a negative allocation breaks it. */
    ghost predicate MemoryNonNegative()
      reads this
    {
      memoryAllocated >= 0
    }

    /** A driver of the given version, with the environment lookup done by
        the caller. */
    constructor (version: string)
      ensures State() == Fresh(version)
      ensures MemoryNonNegative()
    {
      this.version := version;
      initialized := false;
      memoryAllocated := 0;
    }

    /** `GPUDriver()`: the version comes from the `DRIVER_VERSION` setting. */
    constructor FromEnvironment(driverVersion: Option<string>)
      ensures State() == Fresh(VersionSetting(driverVersion))
      ensures driverVersion == None ==> version == DefaultVersion
      ensures MemoryNonNegative()
    {
      version := VersionSetting(driverVersion);
      initialized := false;
      memoryAllocated := 0;
    }

    /** `initialize()`: moves to Initialized (again, harmlessly, if already
        there) and reports the version. */
    method Initialize() returns (msg: string)
      modifies this`initialized
      ensures State() == Step(old(State()), Call.Initialize)
      ensures initialized && version == old(version) && memoryAllocated == old(memoryAllocated)
      ensures msg == InitMessage(version)
    {
      initialized := true;
      msg := InitMessage(version);
    }

    /** `get_version()`: the construction-time version, in any state. */
    method GetVersion() returns (v: string)
      ensures v == version
    {
      v := version;
    }

    /** `allocate_memory(amount)`: refused before initialization (the
        `RuntimeError` carrying `ErrorMessage(NotInitialized)`), with no
        change to the state; otherwise adds `amount` (unchecked, possibly
        negative) to the counter and returns the new total. */
    method AllocateMemory(amount: int) returns (r: Result<int, DriverError>)
      modifies this`memoryAllocated
      ensures State() == Step(old(State()), Call.AllocateMemory(amount))
      ensures !initialized ==> r == Failure(NotInitialized) && memoryAllocated == old(memoryAllocated)
      ensures initialized ==> memoryAllocated == old(memoryAllocated) + amount && r == Success(memoryAllocated)
      ensures old(MemoryNonNegative()) && amount >= 0 ==> MemoryNonNegative()
    {
      if !initialized {
        return Failure(NotInitialized);
      }
      memoryAllocated := memoryAllocated + amount;
      r := Success(memoryAllocated);
    }

    /** `release_memory(amount)`: subtracts `amount` from the counter and
        clamps at zero (a negative amount raises it), whether or not the driver is initialized, and returns
        the new total. */
    method ReleaseMemory(amount: int) returns (total: int)
      modifies this`memoryAllocated
      ensures State() == Step(old(State()), Call.ReleaseMemory(amount))
      ensures memoryAllocated == Max(old(memoryAllocated) - amount, 0)
      ensures total == memoryAllocated && total >= 0
      ensures MemoryNonNegative()
    {
      memoryAllocated := Max(memoryAllocated - amount, 0);
      total := memoryAllocated;
    }

    /** `get_temperature()`: the base temperature of the version plus an
        offset drawn from 0..5; the draw is modelled as an arbitrary choice
        in that range. */
    method GetTemperature() returns (t: int)
      ensures BaseTemperature(version) <= t <= BaseTemperature(version) + 5
      ensures version == "1.0" ==> 45 <= t <= 50
      ensures version != "1.0" ==> 50 <= t <= 55
    {
      var offset :| 0 <= offset <= 5;
      t := BaseTemperature(version) + offset;
    }

    /** `run_compute(workload_size)`: refused before initialization, with
        the same `RuntimeError` as `AllocateMemory`;
        otherwise the same result as the compute engine's workload, twice
        the size. The driver's state is never changed. */
    method RunCompute(workloadSize: int) returns (r: Result<int, DriverError>)
      ensures !initialized ==> r == Failure(NotInitialized)
      ensures initialized ==> r == Success(GpuCompute.RunWorkload(workloadSize))
      ensures initialized ==> r == Success(2 * workloadSize)
    {
      if !initialized {
        return Failure(NotInitialized);
      }
      r := Success(workloadSize * 2);
    }
  }

  /** Initializing twice leaves the same state as initializing once. */
  lemma InitializeIdempotent(s: DriverState)
    ensures Step(Step(s, Initialize), Initialize) == Step(s, Initialize)
  {
  }

  /** No sequence of calls changes the version. */
  lemma {:induction false} RunKeepsVersion(s: DriverState, calls: seq<Call>)
    ensures Run(s, calls).version == s.version
    decreases |calls|
  {
    if calls != [] {
      RunKeepsVersion(Step(s, calls[0]), calls[1..]);
    }
  }

  /** Initialized is terminal: no sequence of calls leads back to
      Uninitialized. */
  lemma {:induction false} InitializedIsPermanent(s: DriverState, calls: seq<Call>)
    requires s.initialized
    ensures Run(s, calls).initialized
    decreases |calls|
  {
    if calls != [] {
      InitializedIsPermanent(Step(s, calls[0]), calls[1..]);
    }
  }

  /** The counter stays non-negative over any sequence of calls whose
      allocations are all non-negative; releases never break it. */
  lemma {:induction false} RunKeepsMemoryNonNegative(s: DriverState, calls: seq<Call>)
    requires s.memoryAllocated >= 0
    requires forall k :: 0 <= k < |calls| && calls[k].AllocateMemory? ==> calls[k].amount >= 0
    ensures Run(s, calls).memoryAllocated >= 0
    decreases |calls|
  {
    if calls != [] {
      RunKeepsMemoryNonNegative(Step(s, calls[0]), calls[1..]);
    }
  }

  /** A single negative allocation on an initialized driver at zero breaks
      the counter invariant: allocation amounts are not validated. */
  lemma NegativeAllocationIsAccepted()
    ensures Run(Fresh(DefaultVersion), [Initialize, AllocateMemory(-1)]).memoryAllocated == -1
  {
  }

  /** Before initialization, allocations and queries change nothing: only
      `initialize` and `release_memory` can affect an uninitialized driver. */
  lemma {:induction false} UninitializedIgnoresAllocations(s: DriverState, calls: seq<Call>)
    requires !s.initialized
    requires forall k :: 0 <= k < |calls| ==> !calls[k].Initialize? && !calls[k].ReleaseMemory?
    ensures Run(s, calls) == s
    decreases |calls|
  {
    if calls != [] {
      UninitializedIgnoresAllocations(Step(s, calls[0]), calls[1..]);
    }
  }

  function Sum(amounts: seq<int>): int {
    if amounts == [] then 0 else amounts[0] + Sum(amounts[1..])
  }

  function Allocations(amounts: seq<int>): (calls: seq<Call>)
    ensures |calls| == |amounts|
    ensures forall k :: 0 <= k < |amounts| ==> calls[k] == AllocateMemory(amounts[k])
  {
    if amounts == [] then [] else [AllocateMemory(amounts[0])] + Allocations(amounts[1..])
  }

  /** On an initialized driver, a run of allocations adds their sum to the
      counter. */
  lemma {:induction false} AllocationsAddUp(s: DriverState, amounts: seq<int>)
    requires s.initialized
    ensures Run(s, Allocations(amounts)) == s.(memoryAllocated := s.memoryAllocated + Sum(amounts))
    decreases |amounts|
  {
    if amounts != [] {
      var calls := Allocations(amounts);
      assert calls[1..] == Allocations(amounts[1..]);
      AllocationsAddUp(Step(s, calls[0]), amounts[1..]);
    }
  }

  /** Releasing at least what is allocated empties the counter. */
  lemma ReleaseAllEmpties(s: DriverState, amount: int)
    requires amount >= s.memoryAllocated
    ensures Step(s, ReleaseMemory(amount)).memoryAllocated == 0
  {
  }

  /** The memory sequence of the unit test: after initializing, 256 then
      128 gives 384, and releasing 128 gives 256. */
  method MemoryAllocationScenario() returns (first: Result<int, DriverError>, second: Result<int, DriverError>, released: int)
    ensures first == Success(256) && second == Success(384) && released == 256
  {
    var driver := new Driver.FromEnvironment(None);
    var _ := driver.Initialize();
    first := driver.AllocateMemory(256);
    second := driver.AllocateMemory(128);
    released := driver.ReleaseMemory(128);
  }

  /** Allocation and compute before `initialize` fail without touching the
      counter, while release succeeds and clamps at zero. */
  method UninitializedScenario() returns (allocation: Result<int, DriverError>, computed: Result<int, DriverError>, released: int, initializedAfter: bool)
    ensures allocation == Failure(NotInitialized) && computed == Failure(NotInitialized)
    ensures released == 0 && !initializedAfter
  {
    var driver := new Driver.FromEnvironment(None);
    allocation := driver.AllocateMemory(128);
    computed := driver.RunCompute(10);
    released := driver.ReleaseMemory(1000);
    initializedAfter := driver.initialized;
  }

  /** The end-to-end workflow: initialize, allocate 512, compute 100 on
      the driver and 50 on the compute engine, benchmark 200, release 256. */
  method FullWorkflowScenario() returns (allocation: Result<int, DriverError>, computed: Result<int, DriverError>, workload: int, benchmark: int, released: int)
    ensures allocation == Success(512) && computed == Success(200)
    ensures workload == 100 && benchmark == 400 && released == 256
  {
    var driver := new Driver.FromEnvironment(None);
    var _ := driver.Initialize();
    allocation := driver.AllocateMemory(512);
    computed := driver.RunCompute(100);
    workload := GpuCompute.RunWorkload(50);
    benchmark := GpuCompute.BenchmarkOutput(200);
    released := driver.ReleaseMemory(256);
  }

  /** A driver built with `DRIVER_VERSION` set to "2.0" reports that version
      and a temperature in the higher range. */
  method VersionTwoScenario() returns (version: string, temperature: int)
    ensures version == "2.0" && 50 <= temperature <= 55
  {
    var driver := new Driver.FromEnvironment(Some("2.0"));
    var _ := driver.Initialize();
    version := driver.GetVersion();
    temperature := driver.GetTemperature();
  }
}
