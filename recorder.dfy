/**
 * The recorder component: one track for the ball and one per player, a
 * write head advanced by every recording tick, and a playback clock that
 * replays the window over the actors twice before handing the match back.
 * Live actor state is passed in (Capture) and the state applied to the
 * actors is handed out (Applied); cameras, the ball's rigid body and the
 * kick-off are kept in a Scene value.
 */
module ReplayRecorder {
  import opened Ring
  import opened Frames
  import opened Window
  import opened Pacing

  datatype Option<T> = None | Some(value: T)

  /** The states of the match that matter here; InPlay stands for every other state. */
  datatype GameState = Replay | Cheering | InPlay

  /**
   * The engine state the recorder switches: the enabled flag of each field
   * and goal replay camera, the ball's rigid-body flags and how many times
   * the match has been kicked off.
   */
  datatype Scene = Scene(
    fieldCameras: seq<bool>,
    goalCameras: seq<bool>,
    ballKinematic: bool,
    ballUsesGravity: bool,
    kickOffs: nat)

  /**
   * The scene after a Play call raised `signal` during a replay framed on
   * team `goal`: the camera switch turns that team's field camera off and
   * its goal camera on, the resume hands the ball back to physics and
   * kicks off.
   */
  function Signalled(scene: Scene, signal: Signal, goal: int): Scene
    requires signal == SwitchToGoalCamera ==> 0 <= goal < |scene.fieldCameras| && goal < |scene.goalCameras|
  {
    match signal
    case Quiet => scene
    case SwitchToGoalCamera =>
      scene.(fieldCameras := scene.fieldCameras[goal := false], goalCameras := scene.goalCameras[goal := true])
    case ResumeMatch =>
      scene.(ballKinematic := false, ballUsesGravity := true, kickOffs := scene.kickOffs + 1)
  }

  /** One actor's track of recorded frames. */
  class Recording {
    const frames: array<Frame>

    constructor (numFrames: nat)
      ensures fresh(frames) && frames.Length == numFrames
      ensures frames[..] == seq(numFrames, _ => DefaultFrame)
    {
      frames := new Frame[numFrames](_ => DefaultFrame);
    }
  }

  /** The tracks of one team's players. */
  class RecorderTeam {
    var players: seq<Recording>

    constructor ()
      ensures players == []
    {
      players := [];
    }
  }

  class Recorder {
    const numTeams: nat
    const numPlayersPerTeam: nat
    const recordedBall: Recording
    const recordedTeams: seq<RecorderTeam>

    var currentRecordingFrame: int
    var currentPlayingFrame: int
    var framesPlayed: int
    var replaysPlayed: int
    var goalOfTeam: int
    var slowdownCount: int

    var scene: Scene

    /** Tracks[t][p] is the frame array of player `p` of team `t`. */
    ghost const Tracks: seq<seq<array<Frame>>>
    /** Every frame array: the ball's and the players'. */
    ghost const Buffers: set<array<Frame>>
    /** The team and player each player track belongs to (so no array is shared by two tracks). */
    ghost const Owner: map<array<Frame>, (int, int)>
    /** Every capture recorded since start-up, oldest first. */
    ghost var captures: seq<Capture>

    /**
     * The track layout fixed by Start: a ball track and numTeams rows of
     * numPlayersPerTeam player tracks, each of N slots, no two the same array.
     */
    ghost predicate Layout()
      reads recordedTeams
    {
      recordedBall.frames in Buffers && recordedBall.frames.Length == N &&
      |recordedTeams| == numTeams && |Tracks| == numTeams &&
      (forall t :: 0 <= t < numTeams ==>
        |recordedTeams[t].players| == numPlayersPerTeam && |Tracks[t]| == numPlayersPerTeam) &&
      (forall t, p :: 0 <= t < numTeams && 0 <= p < numPlayersPerTeam ==>
        recordedTeams[t].players[p].frames == Tracks[t][p] &&
        Tracks[t][p] in Buffers && Tracks[t][p].Length == N &&
        Tracks[t][p] in Owner && Owner[Tracks[t][p]] == (t, p)) &&
      recordedBall.frames !in Owner
    }

    /**
     * The write head sits on the slot of the number of captures so far
     * (HeadAfterRecords: |captures| % N), and every track holds the
     * rolling window of what the captures wrote into it.
     */
    ghost predicate Windows()
      requires Layout()
      reads recordedTeams, this`captures, this`currentRecordingFrame, Buffers
    {
      currentRecordingFrame == Slot(|captures|) &&
      recordedBall.frames[..] == Recorded(BallHistory(captures), DefaultFrame) &&
      (forall t, p {:trigger PlayerHistory(captures, t, p)} :: 0 <= t < numTeams && 0 <= p < numPlayersPerTeam ==>
        Tracks[t][p][..] == Recorded(PlayerHistory(captures, t, p), DefaultFrame))
    }

    ghost predicate Valid()
      reads this`captures, this`currentRecordingFrame, this`currentPlayingFrame, recordedTeams, Buffers
    {
      Layout() && Windows() && 0 <= currentPlayingFrame < N
    }

    /** The stored tracks stay valid across any change that leaves them and the write side alone. */
    twostate lemma StoreKept()
      requires old(Layout()) && old(Windows())
      requires unchanged(recordedTeams) && unchanged(Buffers)
      requires old(captures) == captures && old(currentRecordingFrame) == currentRecordingFrame
      ensures Layout() && Windows()
    {
    }

    /**
     * Writing one more capture at the next slot of every track, and nothing
     * else, keeps every track the rolling window of the captures.
     */
    twostate lemma StoreAppended(live: Capture)
      requires old(Layout()) && old(Windows())
      requires unchanged(recordedTeams)
      requires Shaped(live, numTeams, numPlayersPerTeam)
      requires captures == old(captures) + [live]
      requires currentRecordingFrame == NextFrame(old(currentRecordingFrame))
      requires recordedBall.frames[..] ==
                 old(recordedBall.frames[..])[currentRecordingFrame :=
                   old(recordedBall.frames[..])[currentRecordingFrame].(position := live.ball.position, rotation := live.ball.rotation)]
      requires forall t, p :: 0 <= t < numTeams && 0 <= p < numPlayersPerTeam ==>
                 Tracks[t][p][..] == old(Tracks[t][p][..])[currentRecordingFrame := live.players[t][p]]
      ensures Layout() && Windows()
    {
      var before := old(captures);
      var w := currentRecordingFrame;
      assert Layout();
      SlotStep(|before|);
      forall t, p | 0 <= t < numTeams && 0 <= p < numPlayersPerTeam
        ensures Tracks[t][p][..] == Recorded(PlayerHistory(captures, t, p), DefaultFrame)
      {
        PlayerHistorySnoc(before, live, t, p);
        RecordedSnoc(PlayerHistory(before, t, p), PlayerFrame(live, t, p), DefaultFrame);
      }
      BallHistorySnoc(before, live);
      RecordedSnoc(BallHistory(before), BallFrame(live.ball), DefaultFrame);
      OnlyRecordedFrames(BallHistory(before), DefaultFrame, w);
    }

    /** The playback cursors. */
    function Clock(): Cursors
      reads this
    {
      Cursors(currentPlayingFrame, framesPlayed, replaysPlayed, slowdownCount)
    }

    /** `applied` is the frame at `slot` of every track, taken verbatim. */
    ghost predicate Shows(applied: Applied, slot: int)
      requires Layout() && 0 <= slot < N
      reads recordedTeams, Buffers
    {
      applied.ball == Pose(recordedBall.frames[slot].position, recordedBall.frames[slot].rotation) &&
      |applied.players| == numTeams &&
      (forall t :: 0 <= t < numTeams ==> |applied.players[t]| == numPlayersPerTeam) &&
      (forall t, p :: 0 <= t < numTeams && 0 <= p < numPlayersPerTeam ==>
        applied.players[t][p] == Tracks[t][p][slot])
    }

    /** After k recording ticks since Start the write head is on slot k % N. */
    lemma HeadAfterRecords()
      requires Valid()
      ensures currentRecordingFrame == |captures| % N
    {
      SlotIsMod(|captures|);
    }

    /**
     * The rolling window held by the object: for j < N, the slot j steps
     * behind the newest one, Slot(k - j), holds what the (k - j)-th
     * recording tick wrote into the ball track (k the number of ticks so far).
     */
    lemma BallWindowHeld(j: nat)
      requires Valid() && j < |captures| && j < N
      ensures recordedBall.frames[Slot(|captures| - j)] == BallFrame(captures[|captures| - j - 1].ball)
    {
      var history := BallHistory(captures);
      var slot := Slot(|captures| - j);
      RollingWindow(history, DefaultFrame, j);
      assert history[|captures| - j - 1] == BallFrame(captures[|captures| - j - 1].ball);
      assert recordedBall.frames[slot] == recordedBall.frames[..][slot];
    }

    /** The same rolling window in the track of player `p` of team `t`. */
    lemma PlayerWindowHeld(t: nat, p: nat, j: nat)
      requires Valid() && t < numTeams && p < numPlayersPerTeam && j < |captures| && j < N
      ensures Tracks[t][p][Slot(|captures| - j)] == PlayerFrame(captures[|captures| - j - 1], t, p)
    {
      var history := PlayerHistory(captures, t, p);
      var slot := Slot(|captures| - j);
      RollingWindow(history, DefaultFrame, j);
      assert history[|captures| - j - 1] == PlayerFrame(captures[|captures| - j - 1], t, p);
      assert Tracks[t][p][slot] == Tracks[t][p][..][slot];
    }

    /** Before N recording ticks, slot 0 and the slots past the write head of the ball track are still blank. */
    lemma BallBlankUntilWritten(slot: int)
      requires Valid() && |captures| < N
      requires slot == 0 || |captures| < slot < N
      ensures recordedBall.frames[slot] == DefaultFrame
    {
      var history := BallHistory(captures);
      NeverWritten(history, DefaultFrame, slot);
      assert recordedBall.frames[slot] == recordedBall.frames[..][slot];
    }

    /** The same blank slots in the track of player `p` of team `t`. */
    lemma PlayerBlankUntilWritten(t: nat, p: nat, slot: int)
      requires Valid() && t < numTeams && p < numPlayersPerTeam && |captures| < N
      requires slot == 0 || |captures| < slot < N
      ensures Tracks[t][p][slot] == DefaultFrame
    {
      var history := PlayerHistory(captures, t, p);
      NeverWritten(history, DefaultFrame, slot);
      assert Tracks[t][p][slot] == Tracks[t][p][..][slot];
    }

    /**
     * What a replay armed now shows: the j-th frame of a pass is read from
     * the slot Slot(currentRecordingFrame + j) (ChronologicalPlayback), and,
     * once more than N - j recording ticks have happened, that slot of the
     * ball track holds the capture of recording tick k - N + j: a pass runs
     * from the oldest capture kept to the newest one.
     */
    lemma BallReplayOldestFirst(j: nat)
      requires Valid() && 1 <= j <= N && j > N - |captures|
      ensures recordedBall.frames[Slot(currentRecordingFrame + j)] == BallFrame(captures[|captures| - N + j - 1].ball)
    {
      var history := BallHistory(captures);
      var slot := Slot(currentRecordingFrame + j);
      ReplayOrder(history, DefaultFrame, j);
      assert history[|captures| - N + j - 1] == BallFrame(captures[|captures| - N + j - 1].ball);
      assert recordedBall.frames[slot] == recordedBall.frames[..][slot];
    }

    /** The same playback order in the track of player `p` of team `t`. */
    lemma PlayerReplayOldestFirst(t: nat, p: nat, j: nat)
      requires Valid() && t < numTeams && p < numPlayersPerTeam && 1 <= j <= N && j > N - |captures|
      ensures Tracks[t][p][Slot(currentRecordingFrame + j)] == PlayerFrame(captures[|captures| - N + j - 1], t, p)
    {
      var history := PlayerHistory(captures, t, p);
      var slot := Slot(currentRecordingFrame + j);
      ReplayOrder(history, DefaultFrame, j);
      assert history[|captures| - N + j - 1] == PlayerFrame(captures[|captures| - N + j - 1], t, p);
      assert Tracks[t][p][slot] == Tracks[t][p][..][slot];
    }

    /** While fewer than N recording ticks have happened, a replay armed now opens on blank ball frames. */
    lemma BallReplayOpensBlank(j: nat)
      requires Valid() && 1 <= j <= N - |captures|
      ensures recordedBall.frames[Slot(currentRecordingFrame + j)] == DefaultFrame
    {
      var history := BallHistory(captures);
      var slot := Slot(currentRecordingFrame + j);
      ReplayOpensBlank(history, DefaultFrame, j);
      assert recordedBall.frames[slot] == recordedBall.frames[..][slot];
    }

    /** The same blank opening in the track of player `p` of team `t`. */
    lemma PlayerReplayOpensBlank(t: nat, p: nat, j: nat)
      requires Valid() && t < numTeams && p < numPlayersPerTeam && 1 <= j <= N - |captures|
      ensures Tracks[t][p][Slot(currentRecordingFrame + j)] == DefaultFrame
    {
      var history := PlayerHistory(captures, t, p);
      var slot := Slot(currentRecordingFrame + j);
      ReplayOpensBlank(history, DefaultFrame, j);
      assert Tracks[t][p][slot] == Tracks[t][p][..][slot];
    }

    /** Start: allocates the ball track and one track per player of every team, all blank. */
    constructor (numTeams: nat, numPlayersPerTeam: nat, scene: Scene)
      ensures Valid() && fresh(Buffers) && forall t :: 0 <= t < |recordedTeams| ==> fresh(recordedTeams[t])
      ensures this.numTeams == numTeams && this.numPlayersPerTeam == numPlayersPerTeam
      ensures this.scene == scene && goalOfTeam == 0
      ensures captures == [] && currentRecordingFrame == 0 && Clock() == Cursors(0, 0, 0, 0)
    {
      var ball := new Recording(N);
      var teams: seq<RecorderTeam> := [];
      ghost var tracks: seq<seq<array<Frame>>> := [];
      ghost var owner: map<array<Frame>, (int, int)> := map[];
      var teamNumber := 0;
      while teamNumber < numTeams
        invariant 0 <= teamNumber <= numTeams
        invariant |teams| == teamNumber && |tracks| == teamNumber
        invariant ball.frames[..] == seq(N, _ => DefaultFrame) && ball.frames !in owner
        invariant forall a :: a in owner ==> fresh(a)
        invariant forall t :: 0 <= t < teamNumber ==>
          fresh(teams[t]) && |teams[t].players| == numPlayersPerTeam && |tracks[t]| == numPlayersPerTeam
        invariant forall t, p :: 0 <= t < teamNumber && 0 <= p < numPlayersPerTeam ==>
          teams[t].players[p].frames == tracks[t][p] && fresh(tracks[t][p]) &&
          tracks[t][p].Length == N && tracks[t][p][..] == seq(N, _ => DefaultFrame) &&
          tracks[t][p] in owner && owner[tracks[t][p]] == (t, p)
      {
        var newTeam: RecorderTeam;
        ghost var row: seq<array<Frame>>;
        newTeam, row, owner := NewTeam(teamNumber, numPlayersPerTeam, owner);
        teams := teams + [newTeam];
        tracks := tracks + [row];
        teamNumber := teamNumber + 1;
      }
      this.numTeams := numTeams;
      this.numPlayersPerTeam := numPlayersPerTeam;
      recordedBall := ball;
      recordedTeams := teams;
      Tracks := tracks;
      Owner := owner;
      Buffers := {ball.frames} + set t, p | 0 <= t < numTeams && 0 <= p < numPlayersPerTeam :: tracks[t][p];
      currentRecordingFrame := 0;
      currentPlayingFrame := 0;
      framesPlayed := 0;
      replaysPlayed := 0;
      goalOfTeam := 0;
      slowdownCount := 0;
      this.scene := scene;
      captures := [];
    }

    /**
     * The inner loop of Start: a team whose `numPlayers` players each get a
     * fresh blank track, every new track owned by (teamNumber, its player).
     */
    static method NewTeam(teamNumber: int, numPlayers: nat, ghost owner: map<array<Frame>, (int, int)>)
      returns (newTeam: RecorderTeam, ghost row: seq<array<Frame>>, ghost owner': map<array<Frame>, (int, int)>)
      ensures fresh(newTeam) && |newTeam.players| == numPlayers && |row| == numPlayers
      ensures forall p :: 0 <= p < numPlayers ==>
                newTeam.players[p].frames == row[p] && fresh(row[p]) &&
                row[p].Length == N && row[p][..] == seq(N, _ => DefaultFrame) &&
                row[p] in owner' && owner'[row[p]] == (teamNumber, p)
      ensures forall a :: a in owner ==> a in owner' && owner'[a] == owner[a]
      ensures forall a :: a in owner' ==> a in owner || fresh(a)
    {
      newTeam := new RecorderTeam();
      row := [];
      owner' := owner;
      var playerNumber := 0;
      while playerNumber < numPlayers
        invariant 0 <= playerNumber <= numPlayers
        invariant |newTeam.players| == playerNumber && |row| == playerNumber
        invariant forall a :: a in owner ==> a in owner' && owner'[a] == owner[a]
        invariant forall a :: a in owner' ==> a in owner || fresh(a)
        invariant forall p :: 0 <= p < playerNumber ==>
          newTeam.players[p].frames == row[p] && fresh(row[p]) &&
          row[p].Length == N && row[p][..] == seq(N, _ => DefaultFrame) &&
          row[p] in owner' && owner'[row[p]] == (teamNumber, p)
        modifies newTeam
      {
        var recording := new Recording(N);
        newTeam.players := newTeam.players + [recording];
        row := row + [recording.frames];
        owner' := owner'[recording.frames := (teamNumber, playerNumber)];
        playerNumber := playerNumber + 1;
      }
    }

    /**
     * Record: steps the write head and writes the live state of every actor
     * into that one slot of its track, the ball's pose into the ball track.
     */
    method Record(live: Capture)
      requires Valid()
      requires Shaped(live, numTeams, numPlayersPerTeam)
      modifies this`currentRecordingFrame, this`captures, Buffers
      ensures Valid()
      ensures currentRecordingFrame == NextFrame(old(currentRecordingFrame))
      ensures captures == old(captures) + [live]
      ensures recordedBall.frames[..] ==
                old(recordedBall.frames[..])[currentRecordingFrame :=
                  old(recordedBall.frames[..])[currentRecordingFrame].(position := live.ball.position, rotation := live.ball.rotation)]
      ensures forall t, p :: 0 <= t < numTeams && 0 <= p < numPlayersPerTeam ==>
                Tracks[t][p][..] == old(Tracks[t][p][..])[currentRecordingFrame := live.players[t][p]]
    {
      currentRecordingFrame := NextFrame(currentRecordingFrame);
      var w := currentRecordingFrame;
      RecordPlayers(w, live);
      recordedBall.frames[w] := recordedBall.frames[w].(position := live.ball.position, rotation := live.ball.rotation);
      captures := captures + [live];
      StoreAppended(live);
    }

    /** The loops of Record: the live frame of every player goes into slot `w` of that player's track. */
    method RecordPlayers(w: int, live: Capture)
      requires Layout() && 0 <= w < N
      requires Shaped(live, numTeams, numPlayersPerTeam)
      modifies Buffers
      ensures forall t, p :: 0 <= t < numTeams && 0 <= p < numPlayersPerTeam ==>
                Tracks[t][p][..] == old(Tracks[t][p][..])[w := live.players[t][p]]
      ensures recordedBall.frames[..] == old(recordedBall.frames[..])
    {
      var teamNumber := 0;
      while teamNumber < numTeams
        invariant 0 <= teamNumber <= numTeams
        invariant forall t, p :: 0 <= t < numTeams && 0 <= p < numPlayersPerTeam ==>
          Tracks[t][p][..] == if t < teamNumber then old(Tracks[t][p][..])[w := live.players[t][p]] else old(Tracks[t][p][..])
        invariant recordedBall.frames[..] == old(recordedBall.frames[..])
        modifies Buffers
      {
        RecordTeam(teamNumber, w, live);
        teamNumber := teamNumber + 1;
      }
    }

    /** One pass of the inner loop of Record: the live frame of every player of team `teamNumber` goes into slot `w` of its track. */
    method RecordTeam(teamNumber: int, w: int, live: Capture)
      requires Layout() && 0 <= teamNumber < numTeams && 0 <= w < N
      requires Shaped(live, numTeams, numPlayersPerTeam)
      modifies Buffers
      ensures forall p :: 0 <= p < numPlayersPerTeam ==>
                Tracks[teamNumber][p][..] == old(Tracks[teamNumber][p][..])[w := live.players[teamNumber][p]]
      ensures forall t, p :: 0 <= t < numTeams && t != teamNumber && 0 <= p < numPlayersPerTeam ==>
                Tracks[t][p][..] == old(Tracks[t][p][..])
      ensures recordedBall.frames[..] == old(recordedBall.frames[..])
    {
      var playerNumber := 0;
      while playerNumber < numPlayersPerTeam
        invariant 0 <= playerNumber <= numPlayersPerTeam
        invariant forall p :: 0 <= p < playerNumber ==>
          Tracks[teamNumber][p][..] == old(Tracks[teamNumber][p][..])[w := live.players[teamNumber][p]]
        invariant forall p :: playerNumber <= p < numPlayersPerTeam ==>
          Tracks[teamNumber][p][..] == old(Tracks[teamNumber][p][..])
        invariant forall t, p :: 0 <= t < numTeams && t != teamNumber && 0 <= p < numPlayersPerTeam ==>
          Tracks[t][p][..] == old(Tracks[t][p][..])
        invariant recordedBall.frames[..] == old(recordedBall.frames[..])
        modifies Buffers
      {
        recordedTeams[teamNumber].players[playerNumber].frames[w] := live.players[teamNumber][playerNumber];
        playerNumber := playerNumber + 1;
      }
    }

    /** The frame at `slot` of every player track, as Play applies them team by team. */
    method PlayersAt(slot: int) returns (shown: seq<seq<Frame>>)
      requires Layout() && 0 <= slot < N
      ensures |shown| == numTeams
      ensures forall t :: 0 <= t < numTeams ==> |shown[t]| == numPlayersPerTeam
      ensures forall t, p :: 0 <= t < numTeams && 0 <= p < numPlayersPerTeam ==>
                shown[t][p] == Tracks[t][p][slot]
    {
      shown := [];
      var teamNumber := 0;
      while teamNumber < numTeams
        invariant 0 <= teamNumber <= numTeams
        invariant |shown| == teamNumber
        invariant forall t :: 0 <= t < teamNumber ==> |shown[t]| == numPlayersPerTeam
        invariant forall t, p :: 0 <= t < teamNumber && 0 <= p < numPlayersPerTeam ==>
          shown[t][p] == Tracks[t][p][slot]
      {
        var row: seq<Frame> := [];
        var playerNumber := 0;
        while playerNumber < numPlayersPerTeam
          invariant 0 <= playerNumber <= numPlayersPerTeam
          invariant |row| == playerNumber
          invariant forall p :: 0 <= p < playerNumber ==> row[p] == Tracks[teamNumber][p][slot]
        {
          row := row + [recordedTeams[teamNumber].players[playerNumber].frames[slot]];
          playerNumber := playerNumber + 1;
        }
        shown := shown + [row];
        teamNumber := teamNumber + 1;
      }
    }

    /**
     * Play: one playback tick. Advances the read head (or holds it in the
     * slow-motion tail), applies the frame at the read head verbatim to the
     * ball and every player, and completes a pass once N frames are played.
     */
    method Play() returns (applied: Applied)
      requires Valid()
      requires TickSignal(Clock()) == SwitchToGoalCamera ==>
                 0 <= goalOfTeam < |scene.fieldCameras| && goalOfTeam < |scene.goalCameras|
      modifies this`currentPlayingFrame, this`framesPlayed, this`replaysPlayed, this`slowdownCount, this`scene
      ensures Valid()
      ensures Clock() == Tick(old(Clock()))
      ensures Shows(applied, currentPlayingFrame)
      ensures scene == Signalled(old(scene), TickSignal(old(Clock())), goalOfTeam)
    {
      Pace();
      var ballFrame := recordedBall.frames[currentPlayingFrame];
      var players := PlayersAt(currentPlayingFrame);
      applied := Applied(Pose(ballFrame.position, ballFrame.rotation), players);
      CompletePass();
      StoreKept();
    }

    /** The pacing half of Play: advance the read head, or hold it one more tick. */
    method Pace()
      requires 0 <= currentPlayingFrame < N
      modifies this`currentPlayingFrame, this`framesPlayed, this`slowdownCount
      ensures Clock() == Paced(old(Clock()))
      ensures 0 <= currentPlayingFrame < N
    {
      if framesPlayed < RealTimeFrames || slowdownCount > 1 {
        slowdownCount := 0;
        currentPlayingFrame := NextFrame(currentPlayingFrame);
        framesPlayed := framesPlayed + 1;
      } else {
        // The ball's pose blended halfway towards the next frame would be
        // presented here, but the verbatim pose applied afterwards replaces it.
        slowdownCount := slowdownCount + 1;
      }
    }

    /** The completion half of Play: once N frames of a pass are played, end the pass. */
    method CompletePass()
      requires CompletionSignal(Clock()) == SwitchToGoalCamera ==>
                 0 <= goalOfTeam < |scene.fieldCameras| && goalOfTeam < |scene.goalCameras|
      modifies this`framesPlayed, this`replaysPlayed, this`scene
      ensures Clock() == Completed(old(Clock()))
      ensures scene == Signalled(old(scene), CompletionSignal(old(Clock())), goalOfTeam)
    {
      if framesPlayed >= N {
        replaysPlayed := replaysPlayed + 1;
        if replaysPlayed == 1 {
          framesPlayed := 0;
          scene := scene.(fieldCameras := scene.fieldCameras[goalOfTeam := false],
                          goalCameras := scene.goalCameras[goalOfTeam := true]);
        } else {
          scene := scene.(ballKinematic := false, ballUsesGravity := true, kickOffs := scene.kickOffs + 1);
        }
      }
    }

    /**
     * PlayBack: arms a replay framed on team `goalOfTeam`. The read head is
     * put on the write head, the pass counters are cleared, and that team's
     * field camera is enabled.
     */
    method PlayBack(goalOfTeam: int)
      requires Valid()
      requires 0 <= goalOfTeam < |scene.fieldCameras|
      modifies this`goalOfTeam, this`framesPlayed, this`replaysPlayed, this`currentPlayingFrame, this`scene
      ensures Valid()
      ensures this.goalOfTeam == goalOfTeam
      ensures Clock() == Triggered(currentRecordingFrame, old(slowdownCount))
      ensures scene == old(scene).(fieldCameras := old(scene.fieldCameras)[goalOfTeam := true])
    {
      this.goalOfTeam := goalOfTeam;
      framesPlayed, replaysPlayed := 0, 0;
      currentPlayingFrame := currentRecordingFrame;
      scene := scene.(fieldCameras := scene.fieldCameras[goalOfTeam := true]);
      StoreKept();
    }

    /**
     * FixedUpdate: records outside the Replay and Cheering states and plays
     * in the Replay state, never both in one tick.
     */
    method FixedUpdate(state: GameState, live: Capture) returns (applied: Option<Applied>)
      requires Valid()
      requires state == InPlay ==> Shaped(live, numTeams, numPlayersPerTeam)
      requires state == Replay && TickSignal(Clock()) == SwitchToGoalCamera ==>
                 0 <= goalOfTeam < |scene.fieldCameras| && goalOfTeam < |scene.goalCameras|
      modifies this, Buffers
      ensures Valid()
      ensures goalOfTeam == old(goalOfTeam)
      ensures state == InPlay ==>
                captures == old(captures) + [live] &&
                currentRecordingFrame == NextFrame(old(currentRecordingFrame)) &&
                Clock() == old(Clock()) && scene == old(scene) && applied == None
      ensures state == Replay ==>
                captures == old(captures) && currentRecordingFrame == old(currentRecordingFrame) &&
                Clock() == Tick(old(Clock())) && scene == Signalled(old(scene), TickSignal(old(Clock())), goalOfTeam) &&
                applied.Some? && Shows(applied.value, currentPlayingFrame)
      ensures state == Cheering ==>
                captures == old(captures) && currentRecordingFrame == old(currentRecordingFrame) &&
                Clock() == old(Clock()) && scene == old(scene) && applied == None
    {
      applied := None;
      if state != Replay && state != Cheering {
        Record(live);
      }
      if state == Replay {
        var shown := Play();
        applied := Some(shown);
      }
    }
  }
}
