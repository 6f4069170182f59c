/**
 * BodySerializer: decodes one body record of a RUBE scene. It classifies
 * the type code, fills the reused body definition from the record or the
 * defaults table, asks the world for the body, applies an explicit mass
 * override to dynamic bodies, registers the string-valued custom
 * properties with the scene and binds the fixture decoder to the new body
 * before the fixture list is read.
 *
 * The pure functions below say which calls one read makes (BodySpec); the
 * class method does the same work step by step and is proved to make
 * exactly those calls.
 */
module Bodies {
  import opened Options
  import opened Physics
  import opened Document
  import opened Collaborators

  /** How one read ends. */
  datatype BodyOutcome =
    | NotReady              // no world attached: the read returns null
    | Built(body: BodyRef)  // the body created, returned to the caller
    | Threw(fault: Fault)   // an exception escaped the read

  /** The calls one read makes, oldest first, and how it ends. */
  datatype BodyStep = BodyStep(events: seq<Event>, outcome: BodyOutcome)

  /** The calls a loop has made so far and the exception that stopped it, if any. */
  datatype Run = Run(events: seq<Event>, fault: Option<Fault>)

  // ---------------------------------------------------------------------
  // Type classification and the body definition

  /** The body type for an integer type code; a code that is not recognised means static. */
  function Classify(code: int): (t: BodyType)
    ensures t == DynamicBody <==> code == Code(DynamicBody)
    ensures t == KinematicBody <==> code == Code(KinematicBody)
    ensures t == StaticBody <==> code != Code(DynamicBody) && code != Code(KinematicBody)
  {
    if code == Code(DynamicBody) then DynamicBody
    else if code == Code(KinematicBody) then KinematicBody
    else StaticBody
  }

  /** The definition handed to createBody: each field from the record when present, else from the defaults table. */
  function DefinitionOf(rec: Doc, defaults: BodyDef): (def: BodyDef)
    ensures HasNum(rec, Type) ==> def.bodyType == Classify(Truncate(rec[Type].n))
    ensures !HasNum(rec, Type) ==> def.bodyType == defaults.bodyType
    ensures def.position == if HasVec(rec, Position) then VecOf(rec[Position]) else defaults.position
    ensures def.linearVelocity == if HasVec(rec, LinearVelocity) then VecOf(rec[LinearVelocity]) else defaults.linearVelocity
    ensures def.angle == if HasNum(rec, Angle) then rec[Angle].n else defaults.angle
    ensures def.angularVelocity == if HasNum(rec, AngularVelocity) then rec[AngularVelocity].n else defaults.angularVelocity
    ensures def.linearDamping == if HasNum(rec, LinearDamping) then rec[LinearDamping].n else defaults.linearDamping
    ensures def.angularDamping == if HasNum(rec, AngularDamping) then rec[AngularDamping].n else defaults.angularDamping
    ensures def.gravityScale == if HasNum(rec, GravityScale) then rec[GravityScale].n else defaults.gravityScale
    ensures def.allowSleep == if HasBool(rec, AllowSleep) then rec[AllowSleep].b else defaults.allowSleep
    ensures def.awake == if HasBool(rec, Awake) then rec[Awake].b else defaults.awake
    ensures def.fixedRotation == if HasBool(rec, FixedRotation) then rec[FixedRotation].b else defaults.fixedRotation
    ensures def.bullet == if HasBool(rec, Bullet) then rec[Bullet].b else defaults.bullet
    ensures def.active == if HasBool(rec, Active) then rec[Active].b else defaults.active
  {
    BodyDef(
      bodyType := Classify(ReadInt(rec, Type, Code(defaults.bodyType))),
      position := ReadVec(rec, Position, defaults.position),
      angle := ReadReal(rec, Angle, defaults.angle),
      linearVelocity := ReadVec(rec, LinearVelocity, defaults.linearVelocity),
      angularVelocity := ReadReal(rec, AngularVelocity, defaults.angularVelocity),
      linearDamping := ReadReal(rec, LinearDamping, defaults.linearDamping),
      angularDamping := ReadReal(rec, AngularDamping, defaults.angularDamping),
      allowSleep := ReadBool(rec, AllowSleep, defaults.allowSleep),
      awake := ReadBool(rec, Awake, defaults.awake),
      fixedRotation := ReadBool(rec, FixedRotation, defaults.fixedRotation),
      bullet := ReadBool(rec, Bullet, defaults.bullet),
      active := ReadBool(rec, Active, defaults.active),
      gravityScale := ReadReal(rec, GravityScale, defaults.gravityScale))
  }

  // ---------------------------------------------------------------------
  // The explicit mass override

  /**
   * The mass data applied to a body of type t, if any: only a dynamic body
   * with a centre in the record gets one, and only when one of its four
   * components is non-zero (absent mass or inertia counting as zero).
   */
  function MassOverride(rec: Doc, t: BodyType): (m: Option<MassData>)
    ensures t != DynamicBody ==> m.None?
    ensures m.Some? <==>
      && t == DynamicBody
      && HasVec(rec, MassDataCenter)
      && (|| ReadReal(rec, MassDataMass, 0.0) != 0.0
          || ReadReal(rec, MassDataI, 0.0) != 0.0
          || VecOf(rec[MassDataCenter]).x != 0.0
          || VecOf(rec[MassDataCenter]).y != 0.0)
    ensures m.Some? ==>
      m.value == MassData(VecOf(rec[MassDataCenter]), ReadReal(rec, MassDataMass, 0.0), ReadReal(rec, MassDataI, 0.0))
  {
    if t == DynamicBody then
      var center := FindVec(rec, MassDataCenter);
      var mass := ReadReal(rec, MassDataMass, 0.0);
      var inertia := ReadReal(rec, MassDataI, 0.0);
      if center.Some? then
        var data := MassData(center.value, mass, inertia);
        if data.mass != 0.0 || data.I != 0.0 || data.center.x != 0.0 || data.center.y != 0.0 then Some(data)
        else None
      else None
    else None
  }

  // ---------------------------------------------------------------------
  // Custom properties

  /** The `name` entry survives the cast to String: absent (null) or a string. */
  predicate NameReadable(p: Doc) {
    Name !in p || p[Name].VStr?
  }

  /** The property name passed to setCustom; null when the entry has none. */
  function NameOf(p: Doc): Option<string> {
    if HasStr(p, Name) then Some(p[Name].s) else None
  }

  /** An entry the property loop gets past without an exception. */
  predicate PropertyAccepted(scene: Option<SceneRef>, p: Doc) {
    NameReadable(p) && (StringValue in p ==> p[StringValue].VStr? && scene.Some?)
  }

  /**
   * One turn of the property loop: the name is cast first; only an entry
   * with a `string` key is registered. The string value is cast before the
   * scene is dereferenced, as Java evaluates arguments before it checks the
   * target of a call.
   */
  function PropertyStep(scene: Option<SceneRef>, b: BodyRef, p: Doc): (r: Run)
    ensures r.fault.None? <==> PropertyAccepted(scene, p)
    ensures r.events != [] <==> PropertyAccepted(scene, p) && StringValue in p
    ensures r.events != [] ==> r.events == [CallFor(scene.value, b, p)]
    ensures NameReadable(p) && StringValue in p && !p[StringValue].VStr? ==> r.fault == Some(ClassCast(StringValue))
  {
    if !NameReadable(p) then Run([], Some(ClassCast(Name)))
    else if StringValue !in p then Run([], None)
    else if !p[StringValue].VStr? then Run([], Some(ClassCast(StringValue)))
    else if scene.None? then Run([], Some(NullScene))
    else Run([CustomSet(scene.value, b, NameOf(p), p[StringValue].s)], None)
  }

  /** The property loop over a list, stopping at the first exception. */
  function CustomPass(scene: Option<SceneRef>, b: BodyRef, props: seq<Doc>): (r: Run)
    ensures |r.events| <= |props|
    ensures forall e | e in r.events :: e.CustomSet? && e.body == b && scene == Some(e.scene)
    decreases |props|
  {
    if props == [] then Run([], None)
    else
      var prior := CustomPass(scene, b, props[..|props| - 1]);
      if prior.fault.Some? then prior
      else
        var step := PropertyStep(scene, b, props[|props| - 1]);
        Run(prior.events + step.events, step.fault)
  }

  /** The customProperties list of a record; an absent list is read as null and yields no calls. */
  function CustomRun(scene: Option<SceneRef>, b: BodyRef, rec: Doc): (r: Run)
    ensures r == CustomPass(scene, b, PropertiesOf(rec))
  {
    match FindRecords(rec, CustomProperties)
    case None => Run([], None)
    case Some(props) => CustomPass(scene, b, props)
  }

  /** The customProperties list of a record, empty when absent. */
  function PropertiesOf(rec: Doc): seq<Doc> {
    match FindRecords(rec, CustomProperties)
    case None => []
    case Some(props) => props
  }

  /** Reference definition: the entries that carry a `string` key, in list order. */
  function StringEntries(props: seq<Doc>): seq<Doc> {
    if props == [] then []
    else (if StringValue in props[0] then [props[0]] else []) + StringEntries(props[1..])
  }

  /** The setCustom call a string entry produces. */
  function CallFor(s: SceneRef, b: BodyRef, p: Doc): Event {
    CustomSet(s, b, NameOf(p), if HasStr(p, StringValue) then p[StringValue].s else "")
  }

  function CallsFor(s: SceneRef, b: BodyRef, entries: seq<Doc>): seq<Event> {
    seq(|entries|, k requires 0 <= k < |entries| => CallFor(s, b, entries[k]))
  }

  /** The setCustom calls among a sequence of calls, in order. */
  function CustomCalls(es: seq<Event>): seq<Event> {
    if es == [] then []
    else (if es[0].CustomSet? then [es[0]] else []) + CustomCalls(es[1..])
  }

  lemma {:induction false} StringEntriesAppend(a: seq<Doc>, x: Doc)
    ensures StringEntries(a + [x]) == StringEntries(a) + StringEntries([x])
  {
    if a == [] {
      assert a + [x] == [x];
    } else {
      assert (a + [x])[1..] == a[1..] + [x];
      StringEntriesAppend(a[1..], x);
    }
  }

  lemma CallsForAppend(s: SceneRef, b: BodyRef, x: seq<Doc>, y: seq<Doc>)
    ensures CallsFor(s, b, x + y) == CallsFor(s, b, x) + CallsFor(s, b, y)
  {
    assert forall k | 0 <= k < |x + y| :: CallsFor(s, b, x + y)[k] == (CallsFor(s, b, x) + CallsFor(s, b, y))[k];
  }

  lemma {:induction false} CustomCallsAppend(a: seq<Event>, c: seq<Event>)
    ensures CustomCalls(a + c) == CustomCalls(a) + CustomCalls(c)
  {
    if a == [] {
      assert a + c == c;
    } else {
      assert (a + c)[1..] == a[1..] + c;
      CustomCallsAppend(a[1..], c);
    }
  }

  lemma {:induction false} CustomCallsOfCustom(es: seq<Event>)
    requires forall i | 0 <= i < |es| :: es[i].CustomSet?
    ensures CustomCalls(es) == es
  {
    if es != [] {
      CustomCallsOfCustom(es[1..]);
    }
  }

  lemma {:induction false} CustomCallsNone(es: seq<Event>)
    requires forall i | 0 <= i < |es| :: !es[i].CustomSet?
    ensures CustomCalls(es) == []
  {
    if es != [] {
      CustomCallsNone(es[1..]);
    }
  }

  /** The property loop completes exactly when every entry is accepted. */
  lemma {:induction false} CustomPassAccepts(scene: Option<SceneRef>, b: BodyRef, props: seq<Doc>)
    ensures CustomPass(scene, b, props).fault.None? <==>
            forall i | 0 <= i < |props| :: PropertyAccepted(scene, props[i])
  {
    if props != [] {
      var init := props[..|props| - 1];
      CustomPassAccepts(scene, b, init);
      assert forall i | 0 <= i < |init| :: init[i] == props[i];
    }
  }

  /** A completed property loop registers exactly the entries with a `string` key, in list order. */
  lemma {:induction false} CustomPassRegistersStrings(s: SceneRef, b: BodyRef, props: seq<Doc>)
    requires CustomPass(Some(s), b, props).fault.None?
    ensures CustomPass(Some(s), b, props).events == CallsFor(s, b, StringEntries(props))
  {
    if props != [] {
      var init, last := props[..|props| - 1], props[|props| - 1];
      assert props == init + [last];
      CustomPassRegistersStrings(s, b, init);
      StringEntriesAppend(init, last);
      CallsForAppend(s, b, StringEntries(init), StringEntries([last]));
      assert [last][1..] == [];
    }
  }

  /** Once the loop has thrown, later entries change nothing. */
  lemma {:induction false} CustomPassStops(scene: Option<SceneRef>, b: BodyRef, props: seq<Doc>, k: nat)
    requires k <= |props| && CustomPass(scene, b, props[..k]).fault.Some?
    ensures CustomPass(scene, b, props) == CustomPass(scene, b, props[..k])
    decreases |props| - k
  {
    if k < |props| {
      var init := props[..|props| - 1];
      assert init[..k] == props[..k];
      CustomPassStops(scene, b, init, k);
    } else {
      assert props[..k] == props;
    }
  }

  // ---------------------------------------------------------------------
  // One body read

  /** The calls after a completed property loop: bind the fixture decoder, then read the fixture list if present. */
  function TailCalls(b: BodyRef, rec: Doc): (calls: seq<Event>)
    ensures |calls| > 0 && calls[0] == FixtureBodySet(b)
    ensures |calls| <= 2 && (|calls| == 2 <==> HasRecords(rec, Fixture))
    ensures |calls| == 2 ==> calls[1] == FixturesRead(Some(b), rec[Fixture].items)
  {
    match FindRecords(rec, Fixture)
    case None => [FixtureBodySet(b)]
    case Some(fixtures) => [FixtureBodySet(b), FixturesRead(Some(b), fixtures)]
  }

  /** The setMassData call a body of type t receives: none, or one with the override. */
  function MassCalls(b: BodyRef, rec: Doc, t: BodyType): seq<Event> {
    match MassOverride(rec, t)
    case None => []
    case Some(data) => [MassDataSet(b, data)]
  }

  /** The calls made before the property loop: createBody, then the mass override if any. */
  function HeadCalls(w: WorldRef, rec: Doc, defaults: BodyDef, b: BodyRef): (calls: seq<Event>)
    ensures |calls| > 0 && calls[0] == BodyCreated(w, DefinitionOf(rec, defaults), b)
    ensures var m := MassOverride(rec, DefinitionOf(rec, defaults).bodyType);
            && |calls| <= 2 && (|calls| == 2 <==> m.Some?)
            && (|calls| == 2 ==> calls[1] == MassDataSet(b, m.value))
  {
    var def := DefinitionOf(rec, defaults);
    [BodyCreated(w, def, b)] + MassCalls(b, rec, def.bodyType)
  }

  /**
   * The calls one read of `rec` makes and how it ends, when the world and
   * scene attached are `world` and `scene` and the engine hands out `b`.
   */
  function BodySpec(world: Option<WorldRef>, scene: Option<SceneRef>, rec: Doc, defaults: BodyDef, b: BodyRef): (r: BodyStep)
    ensures world.None? ==> r == BodyStep([], NotReady)
    ensures world.Some? ==> r.outcome == Built(b) || r.outcome.Threw?
  {
    if world.None? then BodyStep([], NotReady)
    else
      var upToCustom := HeadCalls(world.value, rec, defaults, b) + CustomRun(scene, b, rec).events;
      if CustomRun(scene, b, rec).fault.Some? then BodyStep(upToCustom, Threw(CustomRun(scene, b, rec).fault.value))
      else BodyStep(upToCustom + TailCalls(b, rec), Built(b))
  }

  lemma AppendAssoc(x: seq<Event>, y: seq<Event>, z: seq<Event>)
    ensures x + y + z == x + (y + z)
  {
  }

  /** Every call of a read belongs to the body phase; every setCustom is on this body and scene. */
  lemma BodyCallsStayInPhase(world: Option<WorldRef>, scene: Option<SceneRef>, rec: Doc, defaults: BodyDef, b: BodyRef)
    ensures forall e | e in BodySpec(world, scene, rec, defaults, b).events :: BodyPhase(e)
    ensures forall e | e in BodySpec(world, scene, rec, defaults, b).events && e.CustomSet? :: e.body == b && scene == Some(e.scene)
  {
    if world.Some? {
      var custom := CustomRun(scene, b, rec);
      assert forall e | e in HeadCalls(world.value, rec, defaults, b) :: BodyPhase(e) && !e.CustomSet?;
      assert forall e | e in TailCalls(b, rec) :: BodyPhase(e) && !e.CustomSet?;
    }
  }

  /** Exactly one createBody per read with a world: the first call, with the record's definition. */
  lemma BodyCreatedOnce(w: WorldRef, scene: Option<SceneRef>, rec: Doc, defaults: BodyDef, b: BodyRef)
    ensures var es := BodySpec(Some(w), scene, rec, defaults, b).events;
            && |es| > 0 && es[0] == BodyCreated(w, DefinitionOf(rec, defaults), b)
            && forall i | 0 < i < |es| :: !es[i].BodyCreated?
  {
    var def := DefinitionOf(rec, defaults);
    var custom := CustomRun(scene, b, rec);
    var mass := MassCalls(b, rec, def.bodyType);
    var rest := if custom.fault.Some? then custom.events else custom.events + TailCalls(b, rec);
    AppendAssoc([BodyCreated(w, def, b)] + mass, custom.events, TailCalls(b, rec));
    AppendAssoc([BodyCreated(w, def, b)], mass, rest);
    assert BodySpec(Some(w), scene, rec, defaults, b).events == [BodyCreated(w, def, b)] + (mass + rest);
    assert forall e: Event | e in mass + rest :: !e.BodyCreated?;
    OnlyFirstCreates(BodyCreated(w, def, b), mass + rest);
  }

  lemma OnlyFirstCreates(first: Event, later: seq<Event>)
    requires forall e | e in later :: !e.BodyCreated?
    ensures forall i | 0 < i < |[first] + later| :: !([first] + later)[i].BodyCreated?
  {
    forall i | 0 < i < |[first] + later| ensures !([first] + later)[i].BodyCreated? {
      assert ([first] + later)[i] == later[i - 1] && later[i - 1] in later;
    }
  }

  /**
   * setMassData is called at most once, straight after createBody, and
   * exactly when the override rule holds for the record's type.
   */
  lemma MassOverrideRule(w: WorldRef, scene: Option<SceneRef>, rec: Doc, defaults: BodyDef, b: BodyRef)
    ensures var es := BodySpec(Some(w), scene, rec, defaults, b).events;
            var m := MassOverride(rec, DefinitionOf(rec, defaults).bodyType);
            && (m.Some? ==> |es| > 1 && es[1] == MassDataSet(b, m.value))
            && forall i | 0 <= i < |es| && es[i].MassDataSet? :: i == 1 && m == Some(es[i].data) && es[i].body == b
  {
    var def := DefinitionOf(rec, defaults);
    var custom := CustomRun(scene, b, rec);
    var mass := MassCalls(b, rec, def.bodyType);
    var rest := if custom.fault.Some? then custom.events else custom.events + TailCalls(b, rec);
    AppendAssoc([BodyCreated(w, def, b)] + mass, custom.events, TailCalls(b, rec));
    assert BodySpec(Some(w), scene, rec, defaults, b).events == [BodyCreated(w, def, b)] + mass + rest;
    assert forall e | e in rest :: !e.MassDataSet?;
    OnlySecondCall([BodyCreated(w, def, b)] + mass, rest);
  }

  /** In head + rest, where rest has no setMassData and head is createBody and at most one more call, only index 1 can be setMassData. */
  lemma OnlySecondCall(head: seq<Event>, rest: seq<Event>)
    requires 1 <= |head| <= 2 && !head[0].MassDataSet?
    requires forall e | e in rest :: !e.MassDataSet?
    ensures var es := head + rest;
            forall i | 0 <= i < |es| && es[i].MassDataSet? :: i == 1 && es[i] == head[1]
  {
    var es := head + rest;
    forall i | |head| <= i < |es| ensures !es[i].MassDataSet? {
      assert es[i] == rest[i - |head|] && es[i] in rest;
    }
  }

  /** Static and kinematic bodies never receive a mass override, whatever the record holds. */
  lemma NoOverrideUnlessDynamic(w: WorldRef, scene: Option<SceneRef>, rec: Doc, defaults: BodyDef, b: BodyRef)
    requires DefinitionOf(rec, defaults).bodyType != DynamicBody
    ensures forall e | e in BodySpec(Some(w), scene, rec, defaults, b).events :: !e.MassDataSet?
  {
    var es := BodySpec(Some(w), scene, rec, defaults, b).events;
    MassOverrideRule(w, scene, rec, defaults, b);
    assert forall e | e in es :: exists i | 0 <= i < |es| :: es[i] == e;
  }

  /**
   * A read that completes ends by binding the fixture decoder to the new
   * body and then, when the record has a fixture list, reading that list
   * through the decoder so bound; a read that throws binds nothing.
   */
  lemma FixturesFollowBinding(w: WorldRef, scene: Option<SceneRef>, rec: Doc, defaults: BodyDef, b: BodyRef)
    ensures var r := BodySpec(Some(w), scene, rec, defaults, b);
            && (r.outcome.Built? ==> |r.events| >= |TailCalls(b, rec)| &&
                                     r.events[|r.events| - |TailCalls(b, rec)|..] == TailCalls(b, rec))
            && (r.outcome.Threw? ==> forall e | e in r.events :: !e.FixtureBodySet? && !e.FixturesRead?)
  {
    var r := BodySpec(Some(w), scene, rec, defaults, b);
    var upToCustom := HeadCalls(w, rec, defaults, b) + CustomRun(scene, b, rec).events;
    if r.outcome.Built? {
      assert r.events == upToCustom + TailCalls(b, rec);
      assert r.events[|upToCustom|..] == TailCalls(b, rec);
    } else {
      var custom := CustomRun(scene, b, rec);
      assert forall e | e in HeadCalls(w, rec, defaults, b) :: !e.FixtureBodySet? && !e.FixturesRead?;
    }
  }

  /** A read with a world attached throws exactly when some custom-property entry is not accepted. */
  lemma BodyReadThrows(w: WorldRef, scene: Option<SceneRef>, rec: Doc, defaults: BodyDef, b: BodyRef)
    ensures BodySpec(Some(w), scene, rec, defaults, b).outcome.Threw? <==>
            exists i | 0 <= i < |PropertiesOf(rec)| :: !PropertyAccepted(scene, PropertiesOf(rec)[i])
  {
    var r := BodySpec(Some(w), scene, rec, defaults, b);
    var custom := CustomRun(scene, b, rec);
    assert r.outcome.Threw? <==> custom.fault.Some?;
    if HasRecords(rec, CustomProperties) {
      var props := rec[CustomProperties].items;
      assert PropertiesOf(rec) == props && custom == CustomPass(scene, b, props);
      CustomPassAccepts(scene, b, props);
    }
  }

  /** Filtering the setCustom calls out of head + calls + tail leaves the calls when only they are setCustom. */
  lemma CustomCallsBetween(head: seq<Event>, calls: seq<Event>, tail: seq<Event>)
    requires forall e | e in head :: !e.CustomSet?
    requires forall e | e in calls :: e.CustomSet?
    requires forall e | e in tail :: !e.CustomSet?
    ensures CustomCalls(head + calls + tail) == calls
  {
    CustomCallsAppend(head + calls, tail);
    CustomCallsAppend(head, calls);
    CustomCallsNone(head);
    CustomCallsNone(tail);
    CustomCallsOfCustom(calls);
  }

  /**
   * A successful read registers with the scene exactly the custom-property
   * entries that carry a `string` key, in list order, and nothing else.
   */
  lemma BodyRegistersStringProperties(w: WorldRef, s: SceneRef, rec: Doc, defaults: BodyDef, b: BodyRef)
    requires BodySpec(Some(w), Some(s), rec, defaults, b).outcome.Built?
    ensures CustomCalls(BodySpec(Some(w), Some(s), rec, defaults, b).events) == CallsFor(s, b, StringEntries(PropertiesOf(rec)))
  {
    var head := HeadCalls(w, rec, defaults, b);
    var custom := CustomRun(Some(s), b, rec);
    assert BodySpec(Some(w), Some(s), rec, defaults, b).events == head + custom.events + TailCalls(b, rec);
    assert forall e | e in head :: !e.CustomSet?;
    CustomCallsBetween(head, custom.events, TailCalls(b, rec));
    if HasRecords(rec, CustomProperties) {
      CustomPassRegistersStrings(s, b, rec[CustomProperties].items);
    }
  }

  // ---------------------------------------------------------------------
  // The decoder object

  class BodySerializer {
    /** The world bodies are created in; null until attached. */
    var world: Option<WorldRef>
    /** The scene custom properties are registered with; null until attached. */
    var scene: Option<SceneRef>
    /** The body definition reused from one read to the next. */
    var def: BodyDef
    /** RubeDefaults.Body.definition: the value of each absent field. */
    const defaults: BodyDef
    /** The engine, the scene and the fixture decoder this decoder calls. */
    const host: Host

    constructor (host: Host, defaults: BodyDef)
      ensures world == None && scene == None && def == NewBodyDef && this.host == host && this.defaults == defaults
    {
      world, scene := None, None;
      def := NewBodyDef;
      this.host := host;
      this.defaults := defaults;
    }

    method SetWorld(w: Option<WorldRef>)
      modifies this`world
      ensures world == w
    {
      world := w;
    }

    method SetScene(s: Option<SceneRef>)
      modifies this`scene
      ensures scene == s
    {
      scene := s;
    }

    /** Decodes one body record; the calls it makes are those of BodySpec. */
    method Read(rec: Doc) returns (outcome: BodyOutcome)
      modifies this`def, host`trace, host`nextId, host`fixtureBody
      ensures var spec := BodySpec(world, scene, rec, defaults, BodyRef(old(host.nextId)));
              host.trace == old(host.trace) + spec.events && outcome == spec.outcome
      ensures world.None? ==> def == old(def) && host.nextId == old(host.nextId)
      ensures world.Some? ==> def == DefinitionOf(rec, defaults) && host.nextId == old(host.nextId) + 1
      ensures host.fixtureBody == if outcome.Built? then Some(outcome.body) else old(host.fixtureBody)
    {
      if world.None? {
        return NotReady;
      }
      FillDefinition(rec);
      outcome := Build(rec, world.value);
    }

    /** The read once a world is attached and the definition is filled: body, mass, properties, fixtures. */
    method Build(rec: Doc, ghost w: WorldRef) returns (outcome: BodyOutcome)
      requires world == Some(w) && def == DefinitionOf(rec, defaults)
      modifies host`trace, host`nextId, host`fixtureBody
      ensures var spec := BodySpec(world, scene, rec, defaults, BodyRef(old(host.nextId)));
              host.trace == old(host.trace) + spec.events && outcome == spec.outcome
      ensures host.nextId == old(host.nextId) + 1
      ensures host.fixtureBody == if outcome.Built? then Some(outcome.body) else old(host.fixtureBody)
    {
      ghost var b, t0 := BodyRef(host.nextId), host.trace;
      var body := host.CreateBody(world.value, def);
      ApplyMassOverride(rec, body);
      AppendAssoc(t0, [BodyCreated(world.value, def, body)], MassCalls(body, rec, def.bodyType));
      assert host.trace == t0 + HeadCalls(world.value, rec, defaults, b);
      var fault := RegisterProperties(rec, body);
      AppendAssoc(t0, HeadCalls(world.value, rec, defaults, b), CustomRun(scene, b, rec).events);
      if fault.Some? {
        return Threw(fault.value);
      }
      ghost var t1 := host.trace;
      host.SetFixtureBody(body);
      var fixtures := FindRecords(rec, Fixture);
      if fixtures.Some? {
        host.ReadFixtures(fixtures.value);
      }
      assert host.trace == t1 + TailCalls(b, rec);
      AppendAssoc(t0, HeadCalls(world.value, rec, defaults, b) + CustomRun(scene, b, rec).events, TailCalls(b, rec));
      return Built(body);
    }

    /** Classifies the type code and overwrites every field of the reused definition. */
    method FillDefinition(rec: Doc)
      modifies this`def
      ensures def == DefinitionOf(rec, defaults)
    {
      var bodyType := ReadInt(rec, Type, Code(defaults.bodyType));
      if bodyType == Code(DynamicBody) {
        def := def.(bodyType := DynamicBody);
      } else if bodyType == Code(KinematicBody) {
        def := def.(bodyType := KinematicBody);
      } else {
        def := def.(bodyType := StaticBody);
      }

      def := def.(position := ReadVec(rec, Position, defaults.position));
      def := def.(linearVelocity := ReadVec(rec, LinearVelocity, defaults.linearVelocity));
      def := def.(angle := ReadReal(rec, Angle, defaults.angle));
      def := def.(angularVelocity := ReadReal(rec, AngularVelocity, defaults.angularVelocity));
      def := def.(linearDamping := ReadReal(rec, LinearDamping, defaults.linearDamping));
      def := def.(angularDamping := ReadReal(rec, AngularDamping, defaults.angularDamping));
      def := def.(gravityScale := ReadReal(rec, GravityScale, defaults.gravityScale));
      def := def.(allowSleep := ReadBool(rec, AllowSleep, defaults.allowSleep));
      def := def.(awake := ReadBool(rec, Awake, defaults.awake));
      def := def.(fixedRotation := ReadBool(rec, FixedRotation, defaults.fixedRotation));
      def := def.(bullet := ReadBool(rec, Bullet, defaults.bullet));
      def := def.(active := ReadBool(rec, Active, defaults.active));
    }

    /** For a dynamic body, applies the record's mass data unless it is absent or all zero. */
    method ApplyMassOverride(rec: Doc, body: BodyRef)
      modifies host`trace
      ensures host.trace == old(host.trace) + MassCalls(body, rec, def.bodyType)
    {
      if def.bodyType == DynamicBody {
        var center := FindVec(rec, MassDataCenter);
        var mass := ReadReal(rec, MassDataMass, 0.0);
        var inertia := ReadReal(rec, MassDataI, 0.0);
        if center.Some? {
          var massData := MassData(center.value, mass, inertia);
          if massData.mass != 0.0 || massData.I != 0.0 || massData.center.x != 0.0 || massData.center.y != 0.0 {
            host.SetMassData(body, massData);
          }
        }
      }
    }

    /** Registers the string-valued custom properties of the record, in list order. */
    method RegisterProperties(rec: Doc, body: BodyRef) returns (fault: Option<Fault>)
      modifies host`trace
      ensures host.trace == old(host.trace) + CustomRun(scene, body, rec).events
      ensures fault == CustomRun(scene, body, rec).fault
    {
      var customProperties := FindRecords(rec, CustomProperties);
      if customProperties.None? {
        return None;
      }
      var props := customProperties.value;
      for i := 0 to |props|
        invariant host.trace == old(host.trace) + CustomPass(scene, body, props[..i]).events
        invariant CustomPass(scene, body, props[..i]).fault.None?
      {
        assert props[..i + 1][..i] == props[..i];
        fault := RegisterProperty(props[i], body);
        AppendAssoc(old(host.trace), CustomPass(scene, body, props[..i]).events, PropertyStep(scene, body, props[i]).events);
        if fault.Some? {
          CustomPassStops(scene, body, props, i + 1);
          return fault;
        }
      }
      assert props[..|props|] == props;
      return None;
    }

    /** One turn of the property loop: cast the name, then register the entry if it has a `string` key. */
    method RegisterProperty(property: Doc, body: BodyRef) returns (fault: Option<Fault>)
      modifies host`trace
      ensures host.trace == old(host.trace) + PropertyStep(scene, body, property).events
      ensures fault == PropertyStep(scene, body, property).fault
    {
      var propertyName: Option<string>;
      if Name !in property {
        propertyName := None;
      } else if property[Name].VStr? {
        propertyName := Some(property[Name].s);
      } else {
        return Some(ClassCast(Name));
      }
      if StringValue in property {
        if !property[StringValue].VStr? {
          return Some(ClassCast(StringValue));
        }
        if scene.None? {
          return Some(NullScene);
        }
        host.SetCustom(scene.value, body, propertyName, property[StringValue].s);
      }
      return None;
    }
  }
}
