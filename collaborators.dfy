/**
 * Everything the two serializers call but that is not part of this model:
 * Box2D's World and Body, the RubeScene, the FixtureSerializer and the
 * JointSerializer. One object, Host, stands for all of them and records
 * each call it receives, in order, as an Event; the contracts of the
 * serializers are stated over that trace.
 */
module Collaborators {
  import opened Options
  import opened Physics
  import opened Document

  /** Exceptions that escape a read. */
  datatype Fault =
    | NullScene                    // a call on a scene that was never attached
    | ClassCast(key: Key)       // a custom-property entry whose `key` is not a string
    | JointDecodeFailed(reason: string)  // raised inside the joint decoder

  /** What a joint pass returns: one slot per joint record; a slot may be null. */
  type JointList = seq<Option<JointRef>>

  /** The state JointSerializer.init gives the joint decoder before a pass. */
  datatype JointContext = JointContext(
    world: Option<WorldRef>,
    bodies: Option<seq<BodyRef>>,
    joints: Option<JointList>)

  /** The joint decoder: a list of joint records, decoded in a given context. */
  type JointDecoder = (seq<Doc>, JointContext) -> Result<JointList, Fault>

  /** One call into a collaborator, with its arguments (and result, where there is one). */
  datatype Event =
    | WorldCreated(world: WorldRef, gravity: Vec2, allowSleep: bool)
    | AutoClearForcesSet(world: WorldRef, flag: bool)
    | ContinuousPhysicsSet(world: WorldRef, flag: bool)
    | WarmStartingSet(world: WorldRef, flag: bool)
    | BodyCreated(world: WorldRef, def: BodyDef, body: BodyRef)
    | MassDataSet(body: BodyRef, data: MassData)
    | CustomSet(scene: SceneRef, body: BodyRef, name: Option<string>, value: string)
    | FixtureBodySet(body: BodyRef)
    | FixturesRead(bound: Option<BodyRef>, records: seq<Doc>)
    | BodiesSet(scene: SceneRef, bodies: Option<seq<BodyRef>>)
    | JointsInitialised(context: JointContext)
    | JointsRead(records: seq<Doc>, context: JointContext, result: Result<JointList, Fault>)
    | JointsSet(scene: SceneRef, joints: Option<JointList>)

  /** The calls that decoding one body record can make. */
  predicate BodyPhase(e: Event) {
    e.BodyCreated? || e.MassDataSet? || e.CustomSet? || e.FixtureBodySet? || e.FixturesRead?
  }

  class Host {
    /** Every call received so far, oldest first. */
    var trace: seq<Event>
    /** The next fresh handle number. */
    var nextId: nat
    /** The body FixtureSerializer attaches fixtures to (its setBody state). */
    var fixtureBody: Option<BodyRef>
    /** The state of JointSerializer after its last init. */
    var jointContext: JointContext
    /** How JointSerializer turns joint records into joints. */
    const decodeJoints: JointDecoder

    constructor (decode: JointDecoder)
      ensures trace == [] && nextId == 0 && fixtureBody == None
      ensures jointContext == JointContext(None, None, None) && decodeJoints == decode
    {
      trace, nextId, fixtureBody := [], 0, None;
      jointContext := JointContext(None, None, None);
      decodeJoints := decode;
    }

    /** new World(gravity, allowSleep) */
    method CreateWorld(gravity: Vec2, allowSleep: bool) returns (w: WorldRef)
      modifies this`trace, this`nextId
      ensures w == WorldRef(old(nextId)) && nextId == old(nextId) + 1
      ensures trace == old(trace) + [WorldCreated(w, gravity, allowSleep)]
    {
      w := WorldRef(nextId);
      nextId := nextId + 1;
      trace := trace + [WorldCreated(w, gravity, allowSleep)];
    }

    method SetAutoClearForces(w: WorldRef, flag: bool)
      modifies this`trace
      ensures trace == old(trace) + [AutoClearForcesSet(w, flag)]
    {
      trace := trace + [AutoClearForcesSet(w, flag)];
    }

    method SetContinuousPhysics(w: WorldRef, flag: bool)
      modifies this`trace
      ensures trace == old(trace) + [ContinuousPhysicsSet(w, flag)]
    {
      trace := trace + [ContinuousPhysicsSet(w, flag)];
    }

    method SetWarmStarting(w: WorldRef, flag: bool)
      modifies this`trace
      ensures trace == old(trace) + [WarmStartingSet(w, flag)]
    {
      trace := trace + [WarmStartingSet(w, flag)];
    }

    /** world.createBody(def): the engine copies the definition into a fresh body. */
    method CreateBody(w: WorldRef, def: BodyDef) returns (b: BodyRef)
      modifies this`trace, this`nextId
      ensures b == BodyRef(old(nextId)) && nextId == old(nextId) + 1
      ensures trace == old(trace) + [BodyCreated(w, def, b)]
    {
      b := BodyRef(nextId);
      nextId := nextId + 1;
      trace := trace + [BodyCreated(w, def, b)];
    }

    method SetMassData(b: BodyRef, data: MassData)
      modifies this`trace
      ensures trace == old(trace) + [MassDataSet(b, data)]
    {
      trace := trace + [MassDataSet(b, data)];
    }

    /** RubeScene.setCustom(body, name, value) */
    method SetCustom(s: SceneRef, b: BodyRef, name: Option<string>, value: string)
      modifies this`trace
      ensures trace == old(trace) + [CustomSet(s, b, name, value)]
    {
      trace := trace + [CustomSet(s, b, name, value)];
    }

    /** FixtureSerializer.setBody(body) */
    method SetFixtureBody(b: BodyRef)
      modifies this`trace, this`fixtureBody
      ensures fixtureBody == Some(b)
      ensures trace == old(trace) + [FixtureBodySet(b)]
    {
      fixtureBody := Some(b);
      trace := trace + [FixtureBodySet(b)];
    }

    /** The fixture list decoded by FixtureSerializer onto the body it is bound to. */
    method ReadFixtures(records: seq<Doc>)
      modifies this`trace
      ensures trace == old(trace) + [FixturesRead(fixtureBody, records)]
    {
      trace := trace + [FixturesRead(fixtureBody, records)];
    }

    /** RubeScene.setBodies(bodies) */
    method SetBodies(s: SceneRef, bodies: Option<seq<BodyRef>>)
      modifies this`trace
      ensures trace == old(trace) + [BodiesSet(s, bodies)]
    {
      trace := trace + [BodiesSet(s, bodies)];
    }

    /** JointSerializer.init(world, bodies, joints) */
    method InitJoints(context: JointContext)
      modifies this`trace, this`jointContext
      ensures jointContext == context
      ensures trace == old(trace) + [JointsInitialised(context)]
    {
      jointContext := context;
      trace := trace + [JointsInitialised(context)];
    }

    /** The joint list decoded by JointSerializer in its current context. */
    method ReadJoints(records: seq<Doc>) returns (r: Result<JointList, Fault>)
      modifies this`trace
      ensures r == decodeJoints(records, jointContext)
      ensures trace == old(trace) + [JointsRead(records, jointContext, r)]
    {
      r := decodeJoints(records, jointContext);
      trace := trace + [JointsRead(records, jointContext, r)];
    }

    /** RubeScene.setJoints(joints) */
    method SetJoints(s: SceneRef, joints: Option<JointList>)
      modifies this`trace
      ensures trace == old(trace) + [JointsSet(s, joints)]
    {
      trace := trace + [JointsSet(s, joints)];
    }
  }
}
