# Replay recorder of KickIt, modelled in Dafny

KickIt's `Recorder` component (`Assets/Scripts/Recorder.cs`) keeps the last
250 fixed-update ticks of the match in memory: one track of `RecorderFrame`s
for the ball and one per player of every team. On every live tick it steps a
circular write head and writes every actor's state into that slot. After a
goal, `PlayBack` arms a replay. `Play` then replays the window over the
actors twice: the first 200 frames at real-time speed, the last 50 at a third
of that speed. The camera is switched after the first pass, and the match is
handed back (ball to physics, kick-off) after the second.

The model is split by concern:

- `ring.dfy` (module `Ring`): the buffer constants and `GetNextFrame`
  (`NextFrame`). It also defines `Slot(k)`, the slot a logical index lands
  on, which is `k % N` (`SlotIsMod`).
- `frames.dfy` (module `Frames`): the `RecorderFrame` struct (`Frame`), the
  live state read in one recording tick (`Capture`) and the state applied
  during playback (`Applied`). It also defines the per-track histories of a
  sequence of captures.
- `window.dfy` (module `Window`): `Recorded`, the contents of a track after a
  history of captures. It holds the rolling-window, never-written and
  playback-order lemmas.
- `pacing.dfy` (module `Pacing`): what one call of `Play` does to the four
  playback cursors (`Tick`) and which engine signal it raises
  (`TickSignal`). It holds the lemmas about a whole replay session.
- `recorder.dfy` (module `ReplayRecorder`): the classes `Recording`,
  `RecorderTeam` and `Recorder`. Their fields are updated in place as in the
  source, and the frame tracks are `array`s. The ghost field `captures`
  lists every capture recorded since start-up. `Valid()` ties every track to
  `Window.Recorded` of that history. Every method is proved against the pure
  functions above.

The engine is outside the model. The live actor state that `Record` reads
from `Game.Instance` is a `Capture` parameter. The actor state `Play` writes
is returned as an `Applied` value. Cameras, the ball's rigid-body flags and
the number of kick-offs are kept in a `Scene` value held by the recorder.
The game state is a `GameState` parameter of `FixedUpdate`.

Where the behaviour described for the component and the code differ, the
model follows the code:

- After `k` recording ticks the write head is on slot `k % 250`, not
  `(k - 1) % 250`: the head is stepped before the first write, so slot 0 is
  first written by the 250th tick.
- The slow-motion tail advances one frame every third `Play` call (two hold
  ticks, then an advance), not every other call. A pass therefore takes
  200 + 3·50 = 350 calls.
- `PlayBack` puts the read head on the write head, and `Play` steps before
  it shows a frame. So the first frame of a pass is the oldest one kept, and
  the pass ends on the newest one.
- The camera switch happens on the 350th `Play` call of a session. The
  resume and kick-off happen on the 700th call and again on every later
  call while the game stays in the Replay state.

## Model

| member | source | states |
|---|---|---|
| Ring.NextFrame | Assets/Scripts/Recorder.cs:84-93 | a slot goes to a slot; every slot but the last goes to the next one, and the last goes to 0 |
| Ring.SlotStep | Assets/Scripts/Recorder.cs:84-93 | stepping from the slot of logical index k lands on the slot of k + 1, so the index wraps |
| Ring.SlotIsMod | Assets/Scripts/Recorder.cs:46 | the slot of logical index k is k % 250 |
| Ring.DistinctSlots | Assets/Scripts/Recorder.cs:46 | two logical indices less than 250 apart never share a slot |
| Ring.SlotAdd | Assets/Scripts/Recorder.cs:84-93 | stepping j slots from the slot of k lands on the slot of k + j |
| Ring.SlotShift | Assets/Scripts/Recorder.cs:46 | a whole turn of 250 steps comes back to the same slot |
| Frames.BallHistory | Assets/Scripts/Recorder.cs:113-114 | the i-th ball frame of a history is the default frame with the i-th capture's ball position and rotation written in |
| Frames.PlayerHistory | Assets/Scripts/Recorder.cs:101-110 | the i-th frame of a player's history is that player's frame in the i-th capture |
| Frames.BallHistorySnoc | Assets/Scripts/Recorder.cs:113-114 | one more capture appends exactly its ball frame to the ball history |
| Frames.PlayerHistorySnoc | Assets/Scripts/Recorder.cs:101-110 | one more capture appends exactly the player's frame to that player's history |
| Window.Recorded | Assets/Scripts/Recorder.cs:18-26 | a track always has 250 slots |
| Window.RecordedSnoc | Assets/Scripts/Recorder.cs:95-115 | recording one more capture writes the slot after the previous head and leaves every other slot as it was |
| Window.RollingWindow | Assets/Scripts/Recorder.cs:95-115 | after k captures, the slot of logical index k - j (j < 250) holds capture k - j, so the track holds the last min(k, 250) captures |
| Window.NeverWritten | Assets/Scripts/Recorder.cs:22-25 | before 250 captures, slot 0 and every slot past the head still hold the blank frame |
| Window.OnlyRecordedFrames | Assets/Scripts/Recorder.cs:95-115 | every slot holds the blank frame or one of the captures |
| Window.ReplayOrder | Assets/Scripts/Recorder.cs:117-127 | j steps from the write head (1 <= j <= 250) reach capture k - 250 + j: the window is read oldest first and ends on the newest capture |
| Window.ReplayOpensBlank | Assets/Scripts/Recorder.cs:187-194 | with k < 250 captures, the first 250 - k steps from the write head read blank frames |
| Pacing.HoldTick | Assets/Scripts/Recorder.cs:128-137 | a hold tick inside a pass changes only slowdownCount (by one) and raises no signal |
| Pacing.TicksAdd | Assets/Scripts/Recorder.cs:175-185 | a Play calls and then b more are a + b Play calls |
| Pacing.PassSchedule | Assets/Scripts/Recorder.cs:119-137 | within a pass, the first 200 calls each advance the read head, then every third call does; no call before the 350th completes the pass |
| Pacing.ScheduleStep | Assets/Scripts/Recorder.cs:119-137 | one call inside a pass takes the cursors after n - 1 calls to the cursors after n calls, quietly |
| Pacing.PassEnd | Assets/Scripts/Recorder.cs:157-172 | the 350th call of a pass brings the read head back to its start; the first pass resets framesPlayed and switches camera, a later pass resumes the match |
| Pacing.ResumeRepeats | Assets/Scripts/Recorder.cs:157-172 | once two passes are over, every further call raises the resume again |
| Pacing.PassSignals | Assets/Scripts/Recorder.cs:157-172 | only the 350th call of a pass raises a signal |
| Pacing.SessionSignals | Assets/Scripts/Recorder.cs:157-172 | after PlayBack, call n+1 switches camera exactly when n = 349 and resumes the match exactly when n >= 699; every other call is quiet |
| Pacing.SecondPassSignals | Assets/Scripts/Recorder.cs:157-172 | the second pass is quiet until its 350th call, which resumes the match |
| Pacing.LaterSignals | Assets/Scripts/Recorder.cs:166-171 | every call after the 700th resumes the match |
| Pacing.PassOrder | Assets/Scripts/Recorder.cs:119-127 | within a pass, the j-th frame shown is j slots after the read head the pass started on |
| Pacing.ChronologicalPlayback | Assets/Scripts/Recorder.cs:187-194 | after PlayBack on write head w, the j-th frame of the first pass and of the second pass is the one at slot (w + j) % 250 |
| ReplayRecorder.Recording.constructor | Assets/Scripts/Recorder.cs:22-25 | a new track has the requested length and every slot holds the default frame |
| ReplayRecorder.RecorderTeam.constructor | Assets/Scripts/Recorder.cs:28-31 | a new team has no player tracks |
| ReplayRecorder.Recorder.constructor | Assets/Scripts/Recorder.cs:63-82 | Start leaves a valid recorder with fresh, distinct, blank tracks for the ball and every player, no captures, and the heads and counters at 0 |
| ReplayRecorder.Recorder.NewTeam | Assets/Scripts/Recorder.cs:75-80 | a new team holds one fresh blank track of 250 frames per player, each owned by its team and player number |
| ReplayRecorder.Recorder.Record | Assets/Scripts/Recorder.cs:95-115 | steps the write head, appends the capture to the history, writes each player's frame into the new head slot of its track and only the ball's pose into the ball track's head slot, and keeps Valid |
| ReplayRecorder.Recorder.RecordPlayers | Assets/Scripts/Recorder.cs:99-112 | every player track gets that player's live frame in slot w and nothing else changes; the ball track is untouched |
| ReplayRecorder.Recorder.RecordTeam | Assets/Scripts/Recorder.cs:101-111 | every player track of one team gets its live frame in slot w; the other teams and the ball are untouched |
| ReplayRecorder.Recorder.StoreAppended | Assets/Scripts/Recorder.cs:95-115 | writing one capture into the next slot of every track, and nothing else, keeps every track the rolling window of the history |
| ReplayRecorder.Recorder.StoreKept | Assets/Scripts/Recorder.cs:117-194 | a change that leaves the tracks, the history and the write head alone keeps the recorder valid |
| ReplayRecorder.Recorder.HeadAfterRecords | Assets/Scripts/Recorder.cs:95-97 | after k recording ticks since Start the write head is on slot k % 250 |
| ReplayRecorder.Recorder.BallWindowHeld | Assets/Scripts/Recorder.cs:113-114 | the ball slot j steps behind the newest holds the pose of recording tick k - j |
| ReplayRecorder.Recorder.PlayerWindowHeld | Assets/Scripts/Recorder.cs:101-110 | each player's slot j steps behind the newest holds that player's frame from recording tick k - j |
| ReplayRecorder.Recorder.BallBlankUntilWritten | Assets/Scripts/Recorder.cs:72 | before 250 recording ticks, slot 0 and the slots past the head of the ball track are still default frames |
| ReplayRecorder.Recorder.PlayerBlankUntilWritten | Assets/Scripts/Recorder.cs:76-79 | the same for every player track |
| ReplayRecorder.Recorder.BallReplayOldestFirst | Assets/Scripts/Recorder.cs:187-194 | a replay armed now shows, as the j-th ball frame of a pass, the pose of recording tick k - 250 + j |
| ReplayRecorder.Recorder.PlayerReplayOldestFirst | Assets/Scripts/Recorder.cs:187-194 | the same for every player track |
| ReplayRecorder.Recorder.BallReplayOpensBlank | Assets/Scripts/Recorder.cs:187-194 | with fewer than 250 recording ticks, a replay armed now opens on default ball frames |
| ReplayRecorder.Recorder.PlayerReplayOpensBlank | Assets/Scripts/Recorder.cs:187-194 | the same for every player track |
| ReplayRecorder.Recorder.PlayersAt | Assets/Scripts/Recorder.cs:142-155 | returns, for every team and player, the frame at the given slot of that player's track, verbatim |
| ReplayRecorder.Recorder.Play | Assets/Scripts/Recorder.cs:117-173 | the cursors become Tick of the old cursors; the ball gets the pose and every player the whole frame at the new read head, verbatim; the scene changes by the signal raised; the recorder stays valid |
| ReplayRecorder.Recorder.Pace | Assets/Scripts/Recorder.cs:119-137 | the first 200 frames of a pass, or a third tick in the tail, advance the read head and framesPlayed and clear slowdownCount; otherwise only slowdownCount grows |
| ReplayRecorder.Recorder.CompletePass | Assets/Scripts/Recorder.cs:157-172 | at 250 frames played, replaysPlayed grows; the first completion resets framesPlayed and switches camera, a later one resumes the match |
| ReplayRecorder.Recorder.PlayBack | Assets/Scripts/Recorder.cs:187-194 | records the team, puts the read head on the write head, zeroes framesPlayed and replaysPlayed, keeps slowdownCount and enables that team's field camera |
| ReplayRecorder.Recorder.FixedUpdate | Assets/Scripts/Recorder.cs:175-185 | outside Replay and Cheering it records and leaves playback alone; in Replay it plays and leaves the tracks alone; in Cheering nothing changes |

## Left out

- Engine calls (`Game.Instance`, transforms, animators, rigid bodies, `KickOff`) are outside the model. Their inputs are `Capture` and `GameState` parameters, and their outputs are the `Applied` value and the `Scene` fields.
- The animation IDs from `Animator.StringToHash` (lines 65-68) are not modelled, because they only name animator parameters.
- The serialized fields `ball`, `cameraReplayGoal` and `cameraReplayField` are not modelled as objects. The cameras are the two `bool` sequences of `Scene`.
- ReplayRecorder.Recorder.Pace: does not model the blended ball pose of the hold branch (lines 130-134), because it is floating-point interpolation. Its result is overwritten by the verbatim pose at lines 139-140 before the tick ends, so `Play`'s output is unaffected.
- Float fields are `real` values. The recorder only copies them, so no rounding is involved.
- The counters are unbounded integers. The source's 32-bit `int` could overflow only after about 2^31 `Play` calls in the Replay state (`replaysPlayed` grows on every call after the second pass). The model does not capture that wrap-around.
- ReplayRecorder.Recorder.Play: requires the goal team's camera indices to be in range on the call that switches camera. The source would throw an index exception there instead.
- ReplayRecorder.Recorder.PlayBack: requires the team index to be in range for the field cameras. The source would throw an index exception otherwise.
- ReplayRecorder.Recorder.constructor: takes the number of teams and the number of players per team as parameters. The source reads them from `Game.Instance.Teams` and takes the player count from team 0.
- The ball track is created once. The source also builds it in a field initializer and replaces it with an equal blank array in `Start` (line 72), which makes no observable difference.
- Game states other than `Replay` and `Cheering` are represented by `InPlay`, because the recorder treats them all alike.
- The double loops of `Record`, `Play` and `Start` are helper methods (`RecordPlayers`/`RecordTeam`, `PlayersAt`, `NewTeam`) with their own loop invariants.
