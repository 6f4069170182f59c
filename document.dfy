/**
 * The parsed scene document and the typed "read with default" accessors
 * that stand for libgdx's Json.readValue. A field is present when its key
 * is in the record and its value has the kind the reader asks for.
 */
module Document {
  import opened Options
  import opened Physics

  /** A value of the parsed document. JSON has one number kind. */
  datatype Value =
    | VBool(b: bool)
    | VNum(n: real)
    | VStr(s: string)
    | VVec(v: Vec2)
    | VRecords(items: seq<map<Key, Value>>)

  /** A field name of a JSON object. */
  type Key = string

  // The field names the loader reads.
  const Type: Key := "type"
  const Position: Key := "position"
  const LinearVelocity: Key := "linearVelocity"
  const Angle: Key := "angle"
  const AngularVelocity: Key := "angularVelocity"
  const LinearDamping: Key := "linearDamping"
  const AngularDamping: Key := "angularDamping"
  const GravityScale: Key := "gravityScale"
  const AllowSleep: Key := "allowSleep"
  const Awake: Key := "awake"
  const FixedRotation: Key := "fixedRotation"
  const Bullet: Key := "bullet"
  const Active: Key := "active"
  const MassDataCenter: Key := "massData-center"
  const MassDataMass: Key := "massData-mass"
  const MassDataI: Key := "massData-I"
  const CustomProperties: Key := "customProperties"
  const Name: Key := "name"
  const StringValue: Key := "string"
  const Fixture: Key := "fixture"
  const Gravity: Key := "gravity"
  const AutoClearForces: Key := "autoClearForces"
  const ContinuousPhysics: Key := "continuousPhysics"
  const WarmStarting: Key := "warmStarting"
  const BodyArray: Key := "body"
  const JointArray: Key := "joint"

  /** One record (JSON object) of the document. */
  type Doc = map<Key, Value>

  predicate HasBool(doc: Doc, key: Key) { key in doc && doc[key].VBool? }
  predicate HasNum(doc: Doc, key: Key) { key in doc && doc[key].VNum? }
  predicate HasStr(doc: Doc, key: Key) { key in doc && doc[key].VStr? }
  /** A Vector2 reads from a vector or, through the Vector2 serializer, from a number. */
  predicate HasVec(doc: Doc, key: Key) { key in doc && (doc[key].VVec? || doc[key].VNum?) }
  predicate HasRecords(doc: Doc, key: Key) { key in doc && doc[key].VRecords? }

  /** Java's cast of a floating-point number to int: truncation toward zero. */
  function Truncate(n: real): (i: int)
    ensures 0.0 <= n ==> i as real <= n < i as real + 1.0
    ensures n < 0.0 ==> i as real - 1.0 < n <= i as real
  {
    if 0.0 <= n then n.Floor else -((-n).Floor)
  }

  function ReadBool(doc: Doc, key: Key, default: bool): bool {
    if HasBool(doc, key) then doc[key].b else default
  }

  function ReadInt(doc: Doc, key: Key, default: int): int {
    if HasNum(doc, key) then Truncate(doc[key].n) else default
  }

  function ReadReal(doc: Doc, key: Key, default: real): real {
    if HasNum(doc, key) then doc[key].n else default
  }

  /**
   * What the Vector2 serializer makes of a number stored where a vector is
   * expected. That serializer is not part of this model, so the conversion
   * is left unspecified: every property proved here holds for any choice.
   */
  const NumberVec: real -> Vec2

  /** The vector a present Vector2 field stands for. */
  function VecOf(v: Value): Vec2
    requires v.VVec? || v.VNum?
  {
    if v.VVec? then v.v else NumberVec(v.n)
  }

  function ReadVec(doc: Doc, key: Key, default: Vec2): Vec2 {
    if HasVec(doc, key) then VecOf(doc[key]) else default
  }

  /** A Vector2 read without a default: null when absent. */
  function FindVec(doc: Doc, key: Key): (r: Option<Vec2>)
    ensures r.Some? <==> HasVec(doc, key)
    ensures key in doc && doc[key].VVec? ==> r == Some(doc[key].v)
    ensures key in doc && doc[key].VNum? ==> r == Some(NumberVec(doc[key].n))
  {
    if HasVec(doc, key) then Some(VecOf(doc[key])) else None
  }

  /** A list of records read without a default: null when absent. */
  function FindRecords(doc: Doc, key: Key): Option<seq<Doc>> {
    if HasRecords(doc, key) then Some(doc[key].items) else None
  }
}
