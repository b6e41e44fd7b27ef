/**
 * The rolling window one track holds. The write head starts at slot 0 and
 * every recording tick first steps it and then writes, so the `k`-th
 * capture since start-up (counting from 1) lands in slot `Slot(k)`, that
 * is `k % N`.
 */
module Window {
  import opened Ring

  /**
   * The contents of a track after the captures `captures` (oldest first)
   * have been recorded into it from start-up, every slot having started
   * out as `blank`.
   */
  function Recorded<T>(captures: seq<T>, blank: T): (track: seq<T>)
    ensures |track| == N
  {
    if captures == [] then seq(N, _ => blank)
    else
      var k := |captures|;
      Recorded(captures[..k - 1], blank)[Slot(k) := captures[k - 1]]
  }

  /** One more capture writes the slot after the head of the previous ones, and only that slot. */
  lemma RecordedSnoc<T>(captures: seq<T>, x: T, blank: T)
    ensures Recorded(captures + [x], blank) == Recorded(captures, blank)[NextFrame(Slot(|captures|)) := x]
  {
    assert (captures + [x])[..|captures|] == captures;
    SlotStep(|captures|);
  }

  /**
   * The track holds the last min(k, N) captures: the slot of logical index
   * `k - j` holds the capture of recording tick `k - j` (the element at
   * index `k - j - 1`).
   */
  lemma {:induction false} RollingWindow<T>(captures: seq<T>, blank: T, j: nat)
    requires j < |captures| && j < N
    ensures Recorded(captures, blank)[Slot(|captures| - j)] == captures[|captures| - j - 1]
  {
    var k := |captures|;
    if j > 0 {
      DistinctSlots(k - j, k);
      var previous := captures[..k - 1];
      assert |previous| - (j - 1) == k - j;
      RollingWindow(previous, blank, j - 1);
    }
  }

  /**
   * Before N captures, the slots not yet written still hold the blank frame:
   * slot 0 (first written by the N-th capture) and every slot past the head.
   */
  lemma {:induction false} NeverWritten<T>(captures: seq<T>, blank: T, slot: int)
    requires |captures| < N
    requires slot == 0 || |captures| < slot < N
    ensures Recorded(captures, blank)[slot] == blank
  {
    if captures != [] {
      NeverWritten(captures[..|captures| - 1], blank, slot);
    }
  }

  /** Every slot of a track holds either the blank frame or one of the captures. */
  lemma {:induction false} OnlyRecordedFrames<T>(captures: seq<T>, blank: T, slot: int)
    requires 0 <= slot < N
    ensures Recorded(captures, blank)[slot] == blank || Recorded(captures, blank)[slot] in captures
  {
    var k := |captures|;
    if k > 0 && slot != Slot(k) {
      OnlyRecordedFrames(captures[..k - 1], blank, slot);
      var f := Recorded(captures[..k - 1], blank)[slot];
      if f != blank {
        var i :| 0 <= i < k - 1 && captures[..k - 1][i] == f;
        assert captures[i] == f;
      }
    }
  }

  /**
   * Reading a track in playback order: starting from the write head
   * `Slot(k)`, the `j`-th step (1 <= j <= N) reaches the capture of
   * recording tick `k - N + j`, so the window is shown oldest first and
   * ends on the newest capture.
   */
  lemma ReplayOrder<T>(captures: seq<T>, blank: T, j: nat)
    requires 1 <= j <= N && j > N - |captures|
    ensures Recorded(captures, blank)[Slot(Slot(|captures|) + j)] == captures[|captures| - N + j - 1]
  {
    var k := |captures|;
    SlotAdd(k, j);
    SlotShift(k - (N - j));
    assert k + j == k - (N - j) + N;
    RollingWindow(captures, blank, N - j);
  }

  /**
   * While fewer than N captures exist, the first `N - k` steps of playback
   * from the write head `k` show blank frames.
   */
  lemma ReplayOpensBlank<T>(captures: seq<T>, blank: T, j: nat)
    requires 1 <= j <= N - |captures|
    ensures Recorded(captures, blank)[Slot(Slot(|captures|) + j)] == blank
  {
    var k := |captures|;
    assert Slot(k + j) == if k + j < N then k + j else 0;
    NeverWritten(captures, blank, Slot(Slot(k) + j));
  }
}
