/**
 * The end-effector bookkeeping of the free-floating platform kinematics (2D and
 * 3D alike): the list of end-effector frames is kept in step with the list of
 * end-effector poses, and direct motion places every end-effector frame at its
 * pose relative to the output frame, at rest.
 *
 * The 2D and 3D models differ only in the types of positions, rotations,
 * velocities and angular velocities, which are the type parameters `P`, `R`, `V`
 * and `W` here.
 */
module FreeFloatingPlatforms {

  /** A pose relative to a parent frame. */
  datatype Pose<P, R> = Pose(position: P, rotation: R)

  /** A kinematic frame: a pose with its velocities and accelerations, relative to its parent. */
  class Frame<P, R, V, W> {
    var parent: Frame?<P, R, V, W>
    var position: P
    var rotation: R
    var velocity: V
    var angVelocity: W
    var acceleration: V
    var angAcceleration: W

    constructor(parent: Frame?<P, R, V, W>, position: P, rotation: R, velocity: V, angVelocity: W)
      ensures this.parent == parent && this.position == position && this.rotation == rotation
      ensures this.velocity == velocity && this.angVelocity == angVelocity
      ensures this.acceleration == velocity && this.angAcceleration == angVelocity
    {
      this.parent := parent;
      this.position := position;
      this.rotation := rotation;
      this.velocity := velocity;
      this.angVelocity := angVelocity;
      this.acceleration := velocity;
      this.angAcceleration := angVelocity;
    }

    /** The frame sits at `pose` under `parent`, with the given (zero) rates. */
    ghost predicate PlacedAt(parent: Frame?<P, R, V, W>, pose: Pose<P, R>, zeroV: V, zeroW: W)
      reads this
    {
      this.parent == parent && position == pose.position && rotation == pose.rotation
      && velocity == zeroV && angVelocity == zeroW && acceleration == zeroV && angAcceleration == zeroW
    }

    /** The body of the `doDirectMotion` loop for one end effector. */
    method PlaceAt(parent: Frame?<P, R, V, W>, pose: Pose<P, R>, zeroV: V, zeroW: W)
      modifies this
      ensures PlacedAt(parent, pose, zeroV, zeroW)
    {
      this.parent := parent;
      position := pose.position;
      rotation := pose.rotation;
      velocity := zeroV;
      angVelocity := zeroW;
      acceleration := zeroV;
      angAcceleration := zeroW;
    }
  }

  /** The Jacobian of the free joint, relating the state frame's motion to its children. */
  class Jacobian {
    constructor()
    {
    }
  }

  /** A `joint_dependent_frame`: a frame and the upstream joints it depends on. */
  class DependentFrame<P, R, V, W> {
    const frame: Frame<P, R, V, W>
    var upstreamJoints: map<Frame<P, R, V, W>, Jacobian>

    constructor(frame: Frame<P, R, V, W>)
      ensures this.frame == frame && upstreamJoints == map[]
    {
      this.frame := frame;
      upstreamJoints := map[];
    }

    /** `add_joint`: registers the joint whose frame is `jointFrame`. */
    method AddJoint(jointFrame: Frame<P, R, V, W>, jacobian: Jacobian)
      modifies this
      ensures upstreamJoints == old(upstreamJoints)[jointFrame := jacobian]
    {
      upstreamJoints := upstreamJoints[jointFrame := jacobian];
    }
  }

  class FreeFloaterKinematics<P, R, V, W> {
    const baseFrame: Frame<P, R, V, W>
    const stateFrame: Frame<P, R, V, W>
    const outputFrame: Frame<P, R, V, W>
    const stateJacobian: Jacobian
    /** The rest pose and zero rates of the frame type (`frame_2D()` / `frame_3D()`). */
    const origin: Pose<P, R>
    const zeroVelocity: V
    const zeroAngular: W

    /** `m_EEs`: one dependent frame per end effector. */
    var endEffectors: seq<DependentFrame<P, R, V, W>>
    /** `m_EEposes`: the pose of each end effector relative to the output frame. */
    var endEffectorPoses: seq<Pose<P, R>>

    /** No two end effectors share a frame. */
    predicate Valid()
      reads this
    {
      forall j, k :: 0 <= j < k < |endEffectors| ==> endEffectors[j].frame != endEffectors[k].frame
    }

    /** A null base frame is replaced by a new frame at rest at the origin. */
    constructor(baseFrame: Frame?<P, R, V, W>, origin: Pose<P, R>, zeroVelocity: V, zeroAngular: W)
      ensures Valid() && endEffectors == [] && endEffectorPoses == []
      ensures baseFrame != null ==> this.baseFrame == baseFrame
      ensures baseFrame == null ==> fresh(this.baseFrame) && this.baseFrame.PlacedAt(null, origin, zeroVelocity, zeroAngular)
      ensures fresh(stateFrame) && fresh(outputFrame)
      ensures outputFrame.parent == stateFrame
    {
      if baseFrame == null {
        this.baseFrame := new Frame(null, origin.position, origin.rotation, zeroVelocity, zeroAngular);
      } else {
        this.baseFrame := baseFrame;
      }
      this.origin := origin;
      this.zeroVelocity := zeroVelocity;
      this.zeroAngular := zeroAngular;
      var state := new Frame(null, origin.position, origin.rotation, zeroVelocity, zeroAngular);
      stateFrame := state;
      outputFrame := new Frame(state, origin.position, origin.rotation, zeroVelocity, zeroAngular);
      stateJacobian := new Jacobian();
      endEffectors := [];
      endEffectorPoses := [];
    }

    /** A dependent frame made by `resyncEndEffectors`: a child of the output frame that depends on the state joint. */
    ghost predicate NewEndEffector(ee: DependentFrame<P, R, V, W>)
      reads ee, ee.frame
    {
      ee.frame.parent == outputFrame && ee.upstreamJoints == map[stateFrame := stateJacobian]
    }

    /**
     * `resyncEndEffectors`: surplus end-effector frames are erased, then frames are
     * appended one at a time until there is one per end-effector pose.
     */
    method ResyncEndEffectors()
      requires Valid()
      modifies this
      ensures Valid() && |endEffectors| == |endEffectorPoses|
      ensures endEffectorPoses == old(endEffectorPoses)
      ensures |old(endEffectors)| >= |endEffectorPoses| ==>
        endEffectors == old(endEffectors)[..|endEffectorPoses|]
      ensures |old(endEffectors)| == |endEffectorPoses| ==> endEffectors == old(endEffectors)
      ensures |old(endEffectors)| < |endEffectorPoses| ==>
        endEffectors[..|old(endEffectors)|] == old(endEffectors)
      ensures forall k :: |old(endEffectors)| <= k < |endEffectors| ==>
        fresh(endEffectors[k]) && fresh(endEffectors[k].frame) && NewEndEffector(endEffectors[k])
    {
      if |endEffectorPoses| < |endEffectors| {
        endEffectors := endEffectors[..|endEffectorPoses|];
      }
      ghost var kept := endEffectors;
      while |endEffectorPoses| > |endEffectors|
        invariant Valid() && endEffectorPoses == old(endEffectorPoses)
        invariant |kept| <= |endEffectors| <= |endEffectorPoses| && endEffectors[..|kept|] == kept
        invariant forall k :: |kept| <= k < |endEffectors| ==>
          fresh(endEffectors[k]) && fresh(endEffectors[k].frame) && NewEndEffector(endEffectors[k])
        decreases |endEffectorPoses| - |endEffectors|
      {
        var tmp := new Frame(outputFrame, origin.position, origin.rotation, zeroVelocity, zeroAngular);
        var ee := new DependentFrame(tmp);
        endEffectors := endEffectors + [ee];
        ee.AddJoint(stateFrame, stateJacobian);
      }
    }

    /**
     * The end-effector loop of `doDirectMotion`, after `m_chain->doMotion()`: every
     * end-effector frame is placed at its pose under the output frame, at rest.
     */
    method DoDirectMotion()
      requires Valid()
      modifies this, set k | 0 <= k < |endEffectors| :: endEffectors[k].frame
      ensures Valid() && |endEffectors| == |endEffectorPoses|
      ensures endEffectorPoses == old(endEffectorPoses)
      ensures forall k :: 0 <= k < |endEffectors| ==>
        endEffectors[k].frame.PlacedAt(outputFrame, endEffectorPoses[k], zeroVelocity, zeroAngular)
    {
      ResyncEndEffectors();
      ghost var synced := endEffectors;
      for i := 0 to |endEffectors|
        invariant endEffectors == synced && endEffectorPoses == old(endEffectorPoses)
        invariant Valid() && |endEffectors| == |endEffectorPoses|
        invariant forall k :: 0 <= k < i ==>
          endEffectors[k].frame.PlacedAt(outputFrame, endEffectorPoses[k], zeroVelocity, zeroAngular)
      {
        endEffectors[i].frame.PlaceAt(outputFrame, endEffectorPoses[i], zeroVelocity, zeroAngular);
      }
    }

    /**
     * The start of `doInverseMotion`: resynchronise, then stop when there is no end
     * effector. `proceeds` says whether the averaging of the end-effector frames
     * into the state frame would follow.
     */
    method DoInverseMotion() returns (proceeds: bool)
      requires Valid()
      modifies this
      ensures Valid() && |endEffectors| == |endEffectorPoses|
      ensures endEffectorPoses == old(endEffectorPoses)
      ensures proceeds <==> |endEffectorPoses| > 0
    {
      ResyncEndEffectors();
      if |endEffectors| == 0 {
        return false;
      }
      proceeds := true;
    }
  }
}
