/** Samples as the CPU collector hands them on: src/platform/linux/perf.rs, lines 24-37. */
module PerfSamples {
  import opened Machine

  datatype Registers = Registers(ip: u64, sp: u64, fp: u64, lr: u64)

  datatype PerfSampleData =
    | FramePointer(frames: seq<u64>)
    | Dwarf(registers: Registers, stack: seq<u8>)

  datatype PerfSample = PerfSample(pid: u32, tid: u32, time: u64, period: u64, data: PerfSampleData)
}
