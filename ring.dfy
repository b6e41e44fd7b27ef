/**
 * The circular index shared by every track of the recorder: the buffer
 * length, the length of the real-time part of a replay, the step from one
 * slot to the next, and the slot a logical index (a count of steps taken
 * from slot 0) lands on.
 */
module Ring {

  /** Number of frames each track holds (five seconds of fixed updates). */
  const N: int := 250

  /** Frames of a pass played at real-time speed before the slow-motion tail. */
  const RealTimeFrames: int := 200

  /**
   * The slot after `frame`: one further on, and back to 0 once the end of
   * the buffer is reached, so a slot of the buffer goes to a slot of the
   * buffer (SlotStep: it is the slot of the next logical index).
   */
  function NextFrame(frame: int): (next: int)
    ensures 0 <= frame < N ==> 0 <= next < N
    ensures 0 <= frame < N - 1 ==> next == frame + 1
    ensures frame == N - 1 ==> next == 0
  {
    if frame + 1 >= N then 0 else frame + 1
  }

  /**
   * The slot of logical index `k`: `k` with whole turns of the buffer
   * taken off (SlotIsMod: it is `k % N`).
   */
  function Slot(k: nat): (slot: int)
    ensures 0 <= slot < N
  {
    if k < N then k else Slot(k - N)
  }

  /** The slot of a logical index is its remainder modulo N. */
  lemma {:induction false} SlotIsMod(k: nat)
    ensures Slot(k) == k % N
  {
    if k >= N {
      SlotIsMod(k - N);
      assert k == (k - N) + 1 * N;
    }
  }

  /** One more turn of the buffer lands on the same slot. */
  lemma SlotShift(k: nat)
    ensures Slot(k + N) == Slot(k)
  {
  }

  /** Stepping from the slot of logical index `k` lands on the slot of `k + 1`: the index wraps. */
  lemma {:induction false} SlotStep(k: nat)
    ensures NextFrame(Slot(k)) == Slot(k + 1)
  {
    if k >= N {
      SlotStep(k - N);
    }
  }

  /** Two logical indices less than N apart never share a slot. */
  lemma {:induction false} DistinctSlots(a: nat, b: nat)
    requires a < b < a + N
    ensures Slot(a) != Slot(b)
  {
    if a >= N {
      DistinctSlots(a - N, b - N);
    }
  }

  /** Taking whole turns off the first operand of a sum does not change the slot of the sum. */
  lemma {:induction false} SlotAdd(a: nat, b: nat)
    ensures Slot(Slot(a) + b) == Slot(a + b)
  {
    if a >= N {
      SlotAdd(a - N, b);
      assert a + b == (a - N + b) + N;
    }
  }
}
