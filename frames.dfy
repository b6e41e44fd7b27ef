/**
 * The values the recorder stores and hands back: a snapshot of one actor
 * (RecorderFrame), the live state captured in one tick, and the state
 * applied to the actors during playback. Engine floats are `real` values;
 * the recorder only copies them, so no rounding is involved.
 */
module Frames {

  datatype Vector3 = Vector3(x: real, y: real, z: real)

  datatype Quaternion = Quaternion(x: real, y: real, z: real, w: real)

  /** Position and rotation of an actor's transform. */
  datatype Pose = Pose(position: Vector3, rotation: Quaternion)

  /** One actor's recorded state at one tick (RecorderFrame). */
  datatype Frame = Frame(
    position: Vector3,
    rotation: Quaternion,
    layerWeightShoot: real,
    layerWeightThrowIn: real,
    jump: bool,
    grounded: bool,
    freefall: bool,
    speed: real)

  /** The zero-initialised frame a freshly allocated track is filled with. */
  const DefaultFrame: Frame :=
    Frame(Vector3(0.0, 0.0, 0.0), Quaternion(0.0, 0.0, 0.0, 0.0), 0.0, 0.0, false, false, false, 0.0)

  /**
   * What a ball slot holds once the ball's pose has been written into a
   * default frame: only position and rotation are ever recorded for the ball.
   */
  function BallFrame(pose: Pose): Frame
  {
    DefaultFrame.(position := pose.position, rotation := pose.rotation)
  }

  /**
   * The live state read in one recording tick: the ball's pose and, for
   * every team and every player of it, the player's full frame.
   */
  datatype Capture = Capture(ball: Pose, players: seq<seq<Frame>>)

  /** The capture covers exactly `numTeams` teams of `numPlayers` players each. */
  predicate Shaped(c: Capture, numTeams: nat, numPlayers: nat)
  {
    |c.players| == numTeams &&
    forall t :: 0 <= t < numTeams ==> |c.players[t]| == numPlayers
  }

  /** The state one playback tick writes onto the ball and onto every player. */
  datatype Applied = Applied(ball: Pose, players: seq<seq<Frame>>)

  /** The frame a capture holds for player `p` of team `t` (the default one if there is none). */
  function PlayerFrame(c: Capture, t: nat, p: nat): Frame
  {
    if t < |c.players| && p < |c.players[t]| then c.players[t][p] else DefaultFrame
  }

  /** The frames written into the ball track by a history of captures, oldest first. */
  function BallHistory(cs: seq<Capture>): (h: seq<Frame>)
    ensures |h| == |cs|
    ensures forall i :: 0 <= i < |cs| ==> h[i] == BallFrame(cs[i].ball)
  {
    if cs == [] then [] else BallHistory(cs[..|cs| - 1]) + [BallFrame(cs[|cs| - 1].ball)]
  }

  /** The frames written into the track of player `p` of team `t` by a history of captures. */
  function PlayerHistory(cs: seq<Capture>, t: nat, p: nat): (h: seq<Frame>)
    ensures |h| == |cs|
    ensures forall i :: 0 <= i < |cs| ==> h[i] == PlayerFrame(cs[i], t, p)
  {
    if cs == [] then [] else PlayerHistory(cs[..|cs| - 1], t, p) + [PlayerFrame(cs[|cs| - 1], t, p)]
  }

  lemma BallHistorySnoc(cs: seq<Capture>, c: Capture)
    ensures BallHistory(cs + [c]) == BallHistory(cs) + [BallFrame(c.ball)]
  {
    assert (cs + [c])[..|cs|] == cs;
  }

  lemma PlayerHistorySnoc(cs: seq<Capture>, c: Capture, t: nat, p: nat)
    ensures PlayerHistory(cs + [c], t, p) == PlayerHistory(cs, t, p) + [PlayerFrame(c, t, p)]
  {
    assert (cs + [c])[..|cs|] == cs;
  }
}
