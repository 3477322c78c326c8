/** What the collectors share: src/profile.rs, lines 17-33 and 55-58. */
module ProfileTypes {
  import opened Machine

  datatype AttributedStack = AttributedStack(stack: seq<u64>, pid: u32, tid: u32, threadName: Option<string>)

  datatype TimedSample = TimedSample(key: AttributedStack, timestamp: u64, cpuDelta: nat)

  /** Some address occurs twice. */
  predicate HasAddressCycle(frames: seq<u64>) {
    exists i, j :: 0 <= i < j < |frames| && frames[i] == frames[j]
  }

  /** `has_address_cycle`. */
  method FindAddressCycle(frames: seq<u64>) returns (cyclic: bool)
    ensures cyclic <==> HasAddressCycle(frames)
  {
    var seen: set<u64> := {};
    for i := 0 to |frames|
      invariant seen == set k | 0 <= k < i :: frames[k]
      invariant !HasAddressCycle(frames[..i])
    {
      if frames[i] in seen {
        return true;
      }
      seen := seen + {frames[i]};
    }
    assert frames[..|frames|] == frames;
    return false;
  }
}
