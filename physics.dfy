/**
 * The libgdx and Box2D value types that the loader fills in and hands to
 * the engine. Engine objects themselves (World, Body, Joint) are opaque
 * handles here; what the engine does with them is not part of this model.
 */
module Physics {

  /** libgdx's Vector2; its float components are modelled as reals. */
  datatype Vec2 = Vec2(x: real, y: real)

  /** Box2D's body classification. */
  datatype BodyType = StaticBody | KinematicBody | DynamicBody

  /** The integer libgdx assigns to each body type (BodyType.getValue()). */
  function Code(t: BodyType): int {
    match t
    case StaticBody => 0
    case KinematicBody => 1
    case DynamicBody => 2
  }

  /** Box2D's body definition, the structure passed to World.createBody. */
  datatype BodyDef = BodyDef(
    bodyType: BodyType,
    position: Vec2,
    angle: real,
    linearVelocity: Vec2,
    angularVelocity: real,
    linearDamping: real,
    angularDamping: real,
    allowSleep: bool,
    awake: bool,
    fixedRotation: bool,
    bullet: bool,
    active: bool,
    gravityScale: real)

  /** What libgdx's `new BodyDef()` holds: a static, awake body at rest at the origin. */
  const NewBodyDef: BodyDef := BodyDef(
    bodyType := StaticBody,
    position := Vec2(0.0, 0.0),
    angle := 0.0,
    linearVelocity := Vec2(0.0, 0.0),
    angularVelocity := 0.0,
    linearDamping := 0.0,
    angularDamping := 0.0,
    allowSleep := true,
    awake := true,
    fixedRotation := false,
    bullet := false,
    active := true,
    gravityScale := 1.0)

  /** Box2D's explicit mass override: centre of mass, mass and rotational inertia. */
  datatype MassData = MassData(center: Vec2, mass: real, I: real)

  /** The RubeDefaults.World table: the value used for each absent world field. */
  datatype WorldDefaults = WorldDefaults(
    gravity: Vec2,
    allowSleep: bool,
    autoClearForces: bool,
    continuousPhysics: bool,
    warmStarting: bool)

  /** Handles of engine and scene objects; two handles are the same object iff equal. */
  datatype WorldRef = WorldRef(id: nat)
  datatype BodyRef = BodyRef(id: nat)
  datatype JointRef = JointRef(id: nat)
  datatype SceneRef = SceneRef(id: nat)
}
