/**
 * The playback clock: what one call of Play does to the four playback
 * cursors, which engine signal it raises, and what a whole replay session
 * of repeated calls amounts to.
 */
module Pacing {
  import opened Ring

  /** Playback cursors: read head, frames played this pass, completed passes, hold counter. */
  datatype Cursors = Cursors(readHead: int, framesPlayed: int, replaysPlayed: int, slowdownCount: int)

  /** What a Play call asks of the engine once its frame is applied. */
  datatype Signal =
    | Quiet               // nothing
    | SwitchToGoalCamera  // field camera off, goal camera on (end of the first pass)
    | ResumeMatch         // ball back to physics, kick-off (end of any later pass)

  /** Number of Play calls one pass takes: 200 real-time ticks, then 3 ticks per tail frame. */
  const PassTicks: int := RealTimeFrames + 3 * (N - RealTimeFrames)

  /** Whether a Play call moves the read head (otherwise it is a hold tick). */
  predicate Advances(c: Cursors)
  {
    c.framesPlayed < RealTimeFrames || c.slowdownCount > 1
  }

  /** The cursors after the pacing part of Play (advance or hold), before pass completion. */
  function Paced(c: Cursors): Cursors
  {
    if Advances(c) then
      c.(slowdownCount := 0, readHead := NextFrame(c.readHead), framesPlayed := c.framesPlayed + 1)
    else
      c.(slowdownCount := c.slowdownCount + 1)
  }

  /** The cursors after the completion part of Play, from the paced cursors `p`. */
  function Completed(p: Cursors): Cursors
  {
    if p.framesPlayed < N then p
    else if p.replaysPlayed + 1 == 1 then p.(replaysPlayed := 1, framesPlayed := 0)
    else p.(replaysPlayed := p.replaysPlayed + 1)
  }

  /** The engine signal raised by the completion part of Play, from the paced cursors `p`. */
  function CompletionSignal(p: Cursors): Signal
  {
    if p.framesPlayed < N then Quiet
    else if p.replaysPlayed + 1 == 1 then SwitchToGoalCamera
    else ResumeMatch
  }

  /** The cursors after one whole Play call. */
  function Tick(c: Cursors): Cursors
  {
    Completed(Paced(c))
  }

  /** The engine signal raised by one Play call from cursors `c`. */
  function TickSignal(c: Cursors): Signal
  {
    CompletionSignal(Paced(c))
  }

  /** The cursors after `n` successive Play calls. */
  function Ticks(c: Cursors, n: nat): Cursors
  {
    if n == 0 then c else Tick(Ticks(c, n - 1))
  }

  /** The cursors PlayBack leaves: read head on the write head `w`, counters reset. */
  function Triggered(w: int, slowdownCount: int): Cursors
  {
    Cursors(w, 0, 0, slowdownCount)
  }

  /** Frames of the pass played after `n` Play calls of that pass (n < PassTicks). */
  function Played(n: nat): int
  {
    if n <= RealTimeFrames then n else RealTimeFrames + (n - RealTimeFrames) / 3
  }

  /** The hold counter after `n >= 1` Play calls of a pass. */
  function Lag(n: nat): int
  {
    if n <= RealTimeFrames then 0 else (n - RealTimeFrames) % 3
  }

  /** The Play call (counted from 1 within a pass) on which the `j`-th frame of the pass is shown. */
  function AdvanceTick(j: nat): nat
  {
    if j <= RealTimeFrames then j else RealTimeFrames + 3 * (j - RealTimeFrames)
  }

  /** A hold tick inside a pass changes nothing but the hold counter and raises no signal. */
  lemma HoldTick(c: Cursors)
    requires !Advances(c) && c.framesPlayed < N
    ensures Tick(c) == c.(slowdownCount := c.slowdownCount + 1)
    ensures TickSignal(c) == Quiet
  {
  }

  /** Running `a` and then `b` Play calls is running `a + b` of them. */
  lemma {:induction false} TicksAdd(c: Cursors, a: nat, b: nat)
    ensures Ticks(c, a + b) == Ticks(Ticks(c, a), b)
  {
    if b > 0 {
      TicksAdd(c, a, b - 1);
    }
  }

  /**
   * Within a pass that starts with `framesPlayed == 0`: the first 200 Play
   * calls each advance the read head by one, after that every third call
   * does (two hold ticks, then an advance), and no call before the
   * PassTicks-th completes the pass.
   */
  lemma {:induction false} PassSchedule(c: Cursors, n: nat)
    requires c.framesPlayed == 0 && 0 <= c.readHead < N && 1 <= n < PassTicks
    ensures Ticks(c, n) == Cursors(Slot(c.readHead + Played(n)), Played(n), c.replaysPlayed, Lag(n))
    ensures TickSignal(Ticks(c, n - 1)) == Quiet
  {
    if n == 1 {
      assert Played(1) == 1 && Lag(1) == 0 && Slot(c.readHead) == c.readHead;
      SlotStep(c.readHead);
    } else {
      PassSchedule(c, n - 1);
      ScheduleStep(c.readHead, c.replaysPlayed, n);
    }
  }

  /** One Play call inside a pass, from the cursors PassSchedule gives after `n - 1` calls to those after `n`. */
  lemma ScheduleStep(w: nat, r: int, n: nat)
    requires 2 <= n < PassTicks
    ensures Tick(Cursors(Slot(w + Played(n - 1)), Played(n - 1), r, Lag(n - 1))) ==
              Cursors(Slot(w + Played(n)), Played(n), r, Lag(n))
    ensures TickSignal(Cursors(Slot(w + Played(n - 1)), Played(n - 1), r, Lag(n - 1))) == Quiet
  {
    SlotStep(w + Played(n - 1));
    if n - 1 >= RealTimeFrames {
      var k := n - 1 - RealTimeFrames;
      assert Played(n - 1) == RealTimeFrames + k / 3 && Lag(n - 1) == k % 3;
      if k % 3 == 2 {
        assert (k + 1) / 3 == k / 3 + 1 && (k + 1) % 3 == 0;
      } else {
        assert (k + 1) / 3 == k / 3 && (k + 1) % 3 == k % 3 + 1;
      }
    }
  }

  /**
   * The PassTicks-th Play call of a pass shows the N-th frame, which brings
   * the read head back to where the pass started, and completes the pass:
   * the first completion resets `framesPlayed` and switches camera, a later
   * one leaves `framesPlayed` at N and resumes the match.
   */
  lemma PassEnd(c: Cursors)
    requires c.framesPlayed == 0 && 0 <= c.readHead < N
    ensures Ticks(c, PassTicks) ==
              if c.replaysPlayed == 0 then Cursors(c.readHead, 0, 1, 0)
              else Cursors(c.readHead, N, c.replaysPlayed + 1, 0)
    ensures TickSignal(Ticks(c, PassTicks - 1)) ==
              if c.replaysPlayed == 0 then SwitchToGoalCamera else ResumeMatch
  {
    PassSchedule(c, PassTicks - 1);
    SlotStep(c.readHead + N - 1);
    SlotShift(c.readHead);
  }

  /** Once the last pass has ended, every further Play call resumes the match again. */
  lemma {:induction false} ResumeRepeats(c: Cursors, n: nat)
    requires c.framesPlayed >= N && c.replaysPlayed >= 1
    ensures Ticks(c, n).framesPlayed >= N && Ticks(c, n).replaysPlayed >= 1
    ensures TickSignal(Ticks(c, n)) == ResumeMatch
  {
    if n > 0 {
      ResumeRepeats(c, n - 1);
    }
  }

  /**
   * The signals of one pass that starts with `framesPlayed == 0`: only its
   * PassTicks-th Play call raises one, the camera switch after the first
   * pass and the resume after any later one.
   */
  lemma PassSignals(c: Cursors, n: nat)
    requires c.framesPlayed == 0 && 0 <= c.readHead < N && n < PassTicks
    ensures TickSignal(Ticks(c, n)) ==
              if n < PassTicks - 1 then Quiet
              else if c.replaysPlayed == 0 then SwitchToGoalCamera
              else ResumeMatch
  {
    if n < PassTicks - 1 {
      PassSchedule(c, n + 1);
    } else {
      PassEnd(c);
    }
  }

  /**
   * The signals of a whole replay session started by PlayBack on write
   * head `w`: the (n+1)-th Play call switches camera exactly when it is the
   * PassTicks-th, and resumes the match exactly from the 2 * PassTicks-th
   * call on; every other call is quiet.
   */
  lemma SessionSignals(w: int, slowdownCount: int, n: nat)
    requires 0 <= w < N
    ensures TickSignal(Ticks(Triggered(w, slowdownCount), n)) ==
              if n == PassTicks - 1 then SwitchToGoalCamera
              else if n >= 2 * PassTicks - 1 then ResumeMatch
              else Quiet
  {
    if n < PassTicks {
      PassSignals(Triggered(w, slowdownCount), n);
    } else if n < 2 * PassTicks {
      SecondPassSignals(w, slowdownCount, n - PassTicks);
    } else {
      LaterSignals(w, slowdownCount, n - 2 * PassTicks);
    }
  }

  /** The second pass of a session is quiet until its last Play call, which resumes the match. */
  lemma SecondPassSignals(w: int, slowdownCount: int, m: nat)
    requires 0 <= w < N && m < PassTicks
    ensures TickSignal(Ticks(Triggered(w, slowdownCount), PassTicks + m)) ==
              if m < PassTicks - 1 then Quiet else ResumeMatch
  {
    var c0 := Triggered(w, slowdownCount);
    PassEnd(c0);
    TicksAdd(c0, PassTicks, m);
    PassSignals(Ticks(c0, PassTicks), m);
  }

  /** After two passes every Play call of the session resumes the match. */
  lemma LaterSignals(w: int, slowdownCount: int, m: nat)
    requires 0 <= w < N
    ensures TickSignal(Ticks(Triggered(w, slowdownCount), 2 * PassTicks + m)) == ResumeMatch
  {
    var c0 := Triggered(w, slowdownCount);
    PassEnd(c0);
    var c1 := Ticks(c0, PassTicks);
    PassEnd(c1);
    TicksAdd(c0, PassTicks, PassTicks + m);
    TicksAdd(c1, PassTicks, m);
    ResumeRepeats(Ticks(c1, PassTicks), m);
  }

  /**
   * Within a pass that starts with `framesPlayed == 0`, the `j`-th frame
   * shown (1 <= j <= N) is the one `j` slots after the starting read head.
   */
  lemma PassOrder(c: Cursors, j: nat)
    requires c.framesPlayed == 0 && 0 <= c.readHead < N && 1 <= j <= N
    ensures Ticks(c, AdvanceTick(j)).readHead == Slot(c.readHead + j)
  {
    if j < N {
      assert Played(AdvanceTick(j)) == j;
      PassSchedule(c, AdvanceTick(j));
    } else {
      PassEnd(c);
      SlotShift(c.readHead);
    }
  }

  /**
   * Chronological playback: after PlayBack on write head `w`, the `j`-th
   * frame of a pass (1 <= j <= N) is the one at slot `(w + j) % N`, in the
   * first pass and again in the second.
   */
  lemma ChronologicalPlayback(w: int, slowdownCount: int, j: int)
    requires 0 <= w < N && 1 <= j <= N
    ensures Ticks(Triggered(w, slowdownCount), AdvanceTick(j)).readHead == (w + j) % N
    ensures Ticks(Triggered(w, slowdownCount), PassTicks + AdvanceTick(j)).readHead == (w + j) % N
  {
    var c0 := Triggered(w, slowdownCount);
    PassEnd(c0);
    var c1 := Ticks(c0, PassTicks);
    TicksAdd(c0, PassTicks, AdvanceTick(j));
    PassOrder(c0, j);
    PassOrder(c1, j);
    SlotIsMod(w + j);
  }
}
