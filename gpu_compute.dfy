/** The compute engine of src/gpu_compute.py: stateless helpers that stand
    in for a GPU workload. The randomised sleep before the result and the
    wall-clock latency measurement are not modelled, so a workload is a
    deterministic function of its size. */
module GpuCompute {

  /** `run_workload(size)`: the mock result is double the size, for every
      integer size (zero and negative sizes are not rejected). Halving the
      result gives the size back exactly. */
  function RunWorkload(size: int): (result: int)
    ensures result % 2 == 0 && result / 2 == size
  {
    size * 2
  }

  /** The output component of `benchmark_compute(size)`; the latency
      component is a wall-clock difference and is not modelled. */
  function BenchmarkOutput(size: int): (output: int)
    ensures output % 2 == 0 && output / 2 == size
  {
    RunWorkload(size)
  }

  /** The benchmark reports exactly what the workload computes, which is
      twice the size. */
  lemma BenchmarkReportsWorkload(size: int)
    ensures BenchmarkOutput(size) == RunWorkload(size) == 2 * size
  {
  }

  /** The sizes exercised by the end-to-end and performance tests. */
  lemma TestedSizes()
    ensures RunWorkload(5) == 10 && RunWorkload(50) == 100
    ensures BenchmarkOutput(100) == 200 && BenchmarkOutput(200) == 400
    ensures RunWorkload(0) == 0 && RunWorkload(-3) == -6
  {
  }
}
