# RUBE scene loader: body decoder and scene assembler

This project models the two serializers at the heart of the RUBE
scene loader for libgdx/Box2D:

- `BodySerializer.read` decodes one body record of a RUBE JSON scene.
  It classifies the integer type code and fills the reused `BodyDef`
  field by field from the record or from the `RubeDefaults.Body` table.
  It then asks the world for the body and applies an explicit mass
  override to dynamic bodies. Next it registers the string-valued custom
  properties with the `RubeScene`. Last, it binds the fixture decoder to
  the new body before the `fixture` list is read.
- `WorldSerializer.read` reads the world flags and gravity, with
  defaults. It constructs and configures the Box2D `World` and attaches
  that world and the scene to the body decoder. It decodes the `body`
  list and stores the result with `setBodies`. It then runs the joint
  decoder twice over the same `joint` list and stores the second
  pass's output with `setJoints`. The second pass is initialised with
  the first pass's result, because gear joints refer to other joints.

Every collaborator the two classes call is one object,
`Collaborators.Host`. These collaborators are the Box2D `World` and
`Body`, the `RubeScene`, the `FixtureSerializer` and the
`JointSerializer`. `Host` records each call it receives as an `Event`
in a `trace` field and hands out fresh handles from a counter. The
joint decoder is a function value, `decodeJoints`, applied to the joint
records and to the context the last `init` call set.

Each serializer is a Dafny class. Its fields map to the Java fields as
follows:

- `BodySerializer` keeps `world`, `mScene` (as `scene`) and the reused
  `def`. Its `fixtureSerializer` is part of `host`: the binding
  `setBody` sets is `host.fixtureBody`.
- `WorldSerializer` keeps `bodySerializer` and `mScene` (as `scene`).
  Its `jointSerializer` is part of `host`: the context `init` sets is
  `host.jointContext`.
- Both classes add `host`, the shared collaborators, and `defaults`,
  the `RubeDefaults` table the Java code reads as a static.

The "store calls" are the calls of WorldSerializer.java:54-64 that hand
the decoded objects over: `setBodies` on the scene, the two joint passes
(`init` and the decoding of the `joint` list) and `setJoints`. The
`setCustom` calls a body read makes on the scene are not store calls.

Each `read` is a method, proved to append to the trace exactly the
calls that a pure specification function describes (`Bodies.BodySpec`,
`Worlds.WorldSpec`). It is also proved to return what that function
returns. The properties of a read are lemmas about those functions.

Java `null` is `Option.None`. Two exceptions escape a read and become
`Fault` values rather than crashes:

- the `ClassCastException`s of the two `(String)` casts on a custom
  property;
- the `NullPointerException` of a call on a scene that was never
  attached.

A joint decoder failure is passed on unchanged.

The parsed document is a `map<Key, Value>` whose keys are the JSON
field-name strings, the ones the loader reads given as named constants. It has a single JSON number
kind (`real`). `int` reads truncate toward zero, as Java's cast does. A
key that is absent, or whose value is of another kind, is read as
absent, so the default applies. The one exception is a number stored
where a `Vector2` is expected: libgdx's `Vector2Serializer` turns it
into a vector, written `Document.NumberVec` here.

Files:

- `options.dfy`: `Option` and `Result`.
- `physics.dfy`: Box2D value types and engine handles.
- `document.dfy`: the document and its typed reads.
- `collaborators.dfy`: events and `Host`.
- `bodies.dfy`: the body decoder.
- `worlds.dfy`: the scene assembler.

## Model

Source paths below are abbreviated:

- `BodySerializer.java` means `RubeLoader/src/com/mangecailloux/rube/loader/serializers/BodySerializer.java`;
- `WorldSerializer.java` means `RubeLoader/src/com/mangecailloux/rube/loader/serializers/WorldSerializer.java`.

The source column gives every path in full.

| member | source | states |
|---|---|---|
| Document.Truncate | RubeLoader/src/com/mangecailloux/rube/loader/serializers/BodySerializer.java:53 | reading `type` as an int truncates the JSON number toward zero: the result is within 1 of the number, on zero's side |
| Document.FindVec | RubeLoader/src/com/mangecailloux/rube/loader/serializers/BodySerializer.java:81 | reading `massData-center` without a default gives null iff the field is neither a vector nor a number. A stored vector reads as itself, and a number as the vector the Vector2 serializer makes of it |
| Bodies.Classify | RubeLoader/src/com/mangecailloux/rube/loader/serializers/BodySerializer.java:53-60 | classification is total. It gives dynamic iff the code is the dynamic code, and kinematic iff it is the kinematic code. Every other code gives static |
| Bodies.DefinitionOf | RubeLoader/src/com/mangecailloux/rube/loader/serializers/BodySerializer.java:51-75 | each of the thirteen fields of the definition handed to `createBody` is the record's value when present, else the defaults table's. The type is classified from the truncated code, or is the default type |
| Bodies.MassOverride | RubeLoader/src/com/mangecailloux/rube/loader/serializers/BodySerializer.java:79-96 | an override exists iff the type is dynamic, `massData-center` is present (as a vector, or as a number the vector serializer converts) and one of mass, I, center.x, center.y is non-zero, with absent mass and I read as 0. Its value is (center, mass, I). Non-dynamic types never get one |
| Bodies.CustomPass | RubeLoader/src/com/mangecailloux/rube/loader/serializers/BodySerializer.java:101-108 | the property loop makes at most one call per entry. Every call is a `setCustom` on this body in the attached scene |
| Bodies.CustomPassAccepts | RubeLoader/src/com/mangecailloux/rube/loader/serializers/BodySerializer.java:101-108 | the property loop completes iff every entry is accepted. An entry is accepted when its `name` is absent or a string, and, if it has a `string` key, that value is a string and a scene is attached |
| Bodies.CustomPassRegistersStrings | RubeLoader/src/com/mangecailloux/rube/loader/serializers/BodySerializer.java:101-108 | a completed property loop makes one `setCustom(body, name, string)` per entry that has a `string` key, in list order. Other entries make no call |
| Bodies.CustomPassStops | RubeLoader/src/com/mangecailloux/rube/loader/serializers/BodySerializer.java:101-107 | after an entry throws, later entries are not processed |
| Bodies.PropertyStep | RubeLoader/src/com/mangecailloux/rube/loader/serializers/BodySerializer.java:103-108 | one entry completes iff it is accepted. It makes a call iff it is accepted and has a `string` key, and that call is `setCustom(body, name, string)`. A `string` value that is not a string throws the cast exception whatever the scene, because Java evaluates the arguments before it dereferences a null scene |
| Bodies.CustomRun | RubeLoader/src/com/mangecailloux/rube/loader/serializers/BodySerializer.java:98-99 | an absent `customProperties` list is read as null and runs the property loop over no entries |
| Bodies.HeadCalls | RubeLoader/src/com/mangecailloux/rube/loader/serializers/BodySerializer.java:77-96 | before the property loop a read calls `createBody(def)` with the record's definition, then `setMassData` on the new body iff the override rule holds, and nothing else |
| Bodies.TailCalls | RubeLoader/src/com/mangecailloux/rube/loader/serializers/BodySerializer.java:129-130 | after the property loop a read binds the fixture decoder to the new body, then reads the `fixture` list through it iff the record has one |
| Bodies.BodySpec | RubeLoader/src/com/mangecailloux/rube/loader/serializers/BodySerializer.java:47-133 | with no world attached, a read makes no call and returns null. With a world, it returns the body it created or throws |
| Bodies.BodyCallsStayInPhase | RubeLoader/src/com/mangecailloux/rube/loader/serializers/BodySerializer.java:77-130 | a read makes only createBody, setMassData, setCustom, fixture-binding and fixture-list calls. Every `setCustom` is for the new body in the attached scene |
| Bodies.BodyCreatedOnce | RubeLoader/src/com/mangecailloux/rube/loader/serializers/BodySerializer.java:77 | a read with a world calls `createBody` exactly once, as its first call, in that world and with the record's definition |
| Bodies.MassOverrideRule | RubeLoader/src/com/mangecailloux/rube/loader/serializers/BodySerializer.java:79-96 | `setMassData` is called at most once, as the call straight after `createBody`, on the new body, and exactly when the override rule holds |
| Bodies.NoOverrideUnlessDynamic | RubeLoader/src/com/mangecailloux/rube/loader/serializers/BodySerializer.java:79 | a static or kinematic body never receives `setMassData`, whatever massData keys the record holds |
| Bodies.FixturesFollowBinding | RubeLoader/src/com/mangecailloux/rube/loader/serializers/BodySerializer.java:129-130 | a completed read ends by binding the fixture decoder to the new body. It then reads the `fixture` list, when present, through the bound decoder. A read that throws binds nothing and reads no fixtures |
| Bodies.BodyReadThrows | RubeLoader/src/com/mangecailloux/rube/loader/serializers/BodySerializer.java:98-108 | a read with a world throws iff some custom-property entry is not accepted |
| Bodies.BodyRegistersStringProperties | RubeLoader/src/com/mangecailloux/rube/loader/serializers/BodySerializer.java:98-108 | a completed read makes exactly one call to `setCustom` per custom-property entry with a `string` key, in list order, and no other `setCustom` calls. An absent list registers nothing |
| Bodies.BodySerializer.constructor | RubeLoader/src/com/mangecailloux/rube/loader/serializers/BodySerializer.java:21-28 | a new decoder has no world and no scene attached, and its reused definition is a fresh `BodyDef` with libgdx's own defaults (not the `RubeDefaults` table) |
| Bodies.BodySerializer.SetWorld | RubeLoader/src/com/mangecailloux/rube/loader/serializers/BodySerializer.java:36-39 | attaches the world |
| Bodies.BodySerializer.SetScene | RubeLoader/src/com/mangecailloux/rube/loader/serializers/BodySerializer.java:41-44 | attaches the scene |
| Bodies.BodySerializer.Read | RubeLoader/src/com/mangecailloux/rube/loader/serializers/BodySerializer.java:47-133 | appends exactly BodySpec's calls to the trace and returns BodySpec's outcome. With no world it leaves the definition and `Host`'s handle counter alone. Otherwise the reused definition becomes DefinitionOf of the record, and the fixture decoder is left bound to the returned body |
| Bodies.BodySerializer.Build | RubeLoader/src/com/mangecailloux/rube/loader/serializers/BodySerializer.java:77-132 | once a world is attached and the definition is filled, the rest of the read appends exactly BodySpec's calls and returns its outcome. It takes one handle and binds the fixture decoder to the body iff the read completes |
| Bodies.BodySerializer.FillDefinition | RubeLoader/src/com/mangecailloux/rube/loader/serializers/BodySerializer.java:53-75 | overwriting the reused definition field by field leaves it equal to DefinitionOf of the record, whatever it held before |
| Bodies.BodySerializer.ApplyMassOverride | RubeLoader/src/com/mangecailloux/rube/loader/serializers/BodySerializer.java:79-96 | calls `setMassData` on the body with the override iff the override rule holds for the definition's type, and makes no other call |
| Bodies.BodySerializer.RegisterProperties | RubeLoader/src/com/mangecailloux/rube/loader/serializers/BodySerializer.java:98-127 | the `for` loop makes exactly the property loop's calls and stops with its exception. An absent list makes no call |
| Bodies.BodySerializer.RegisterProperty | RubeLoader/src/com/mangecailloux/rube/loader/serializers/BodySerializer.java:103-108 | one entry: the name cast, then, when there is a `string` key, the value cast, the scene dereference and `setCustom` |
| Collaborators.Host.CreateWorld | RubeLoader/src/com/mangecailloux/rube/loader/serializers/WorldSerializer.java:45 | `new World(gravity, allowSleep)` is recorded and returns a fresh handle |
| Collaborators.Host.SetAutoClearForces | RubeLoader/src/com/mangecailloux/rube/loader/serializers/WorldSerializer.java:46 | the setter call is recorded |
| Collaborators.Host.SetContinuousPhysics | RubeLoader/src/com/mangecailloux/rube/loader/serializers/WorldSerializer.java:47 | the setter call is recorded |
| Collaborators.Host.SetWarmStarting | RubeLoader/src/com/mangecailloux/rube/loader/serializers/WorldSerializer.java:48 | the setter call is recorded |
| Collaborators.Host.CreateBody | RubeLoader/src/com/mangecailloux/rube/loader/serializers/BodySerializer.java:77 | `createBody(def)` is recorded with the definition, and returns a fresh handle |
| Collaborators.Host.SetMassData | RubeLoader/src/com/mangecailloux/rube/loader/serializers/BodySerializer.java:94 | the call is recorded with its mass data |
| Collaborators.Host.SetCustom | RubeLoader/src/com/mangecailloux/rube/loader/serializers/BodySerializer.java:107 | the call is recorded with body, name and value |
| Collaborators.Host.SetFixtureBody | RubeLoader/src/com/mangecailloux/rube/loader/serializers/BodySerializer.java:129 | the fixture decoder's body becomes the given one |
| Collaborators.Host.ReadFixtures | RubeLoader/src/com/mangecailloux/rube/loader/serializers/BodySerializer.java:130 | the fixture list is read through the decoder as currently bound |
| Collaborators.Host.SetBodies | RubeLoader/src/com/mangecailloux/rube/loader/serializers/WorldSerializer.java:54 | the call is recorded with the body list, which may be null |
| Collaborators.Host.InitJoints | RubeLoader/src/com/mangecailloux/rube/loader/serializers/WorldSerializer.java:59-62 | the joint decoder's context becomes (world, bodies, joints) |
| Collaborators.Host.ReadJoints | RubeLoader/src/com/mangecailloux/rube/loader/serializers/WorldSerializer.java:60-63 | the joint list is decoded in the current context, and the result is recorded |
| Collaborators.Host.SetJoints | RubeLoader/src/com/mangecailloux/rube/loader/serializers/WorldSerializer.java:64 | the call is recorded with the joint list |
| Worlds.BodySteps | RubeLoader/src/com/mangecailloux/rube/loader/serializers/WorldSerializer.java:53 | one body read per record of the `body` list, the k-th creating the k-th fresh handle |
| Worlds.BodiesPass | RubeLoader/src/com/mangecailloux/rube/loader/serializers/WorldSerializer.java:53 | the decoded list has one body per record when no read threw, and fewer than there are records when one did. The k-th body is the k-th fresh handle |
| Worlds.BodiesPassThrows | RubeLoader/src/com/mangecailloux/rube/loader/serializers/WorldSerializer.java:53 | the body list is complete iff no record's read throws |
| Worlds.BodiesPassNext | RubeLoader/src/com/mangecailloux/rube/loader/serializers/WorldSerializer.java:53 | one more record: its calls follow the earlier ones, and its exception ends the list |
| Worlds.BodiesPassStops | RubeLoader/src/com/mangecailloux/rube/loader/serializers/WorldSerializer.java:53 | once a record's read has thrown, no later record is decoded |
| Worlds.BodiesPassInPhase | RubeLoader/src/com/mangecailloux/rube/loader/serializers/WorldSerializer.java:51-53 | the body list makes only body-phase calls. Every body is created in the attached world, and every `setCustom` goes to the attached scene |
| Worlds.BodiesPassCreates | RubeLoader/src/com/mangecailloux/rube/loader/serializers/WorldSerializer.java:53 | the bodies created in the engine are, in creation order, the list the loop hands over, followed by the body of the read that threw, if one did |
| Worlds.BodiesPassReturns | RubeLoader/src/com/mangecailloux/rube/loader/serializers/WorldSerializer.java:53 | each body of the list is the one its own read returned |
| Worlds.BodyListFacts | RubeLoader/src/com/mangecailloux/rube/loader/serializers/WorldSerializer.java:51-53 | for the body list of a document, decoded in the new world: only body-phase calls, all in that world and the attached scene. A complete list is exactly the bodies created, and one body is created per record read |
| Worlds.BodyListPass | RubeLoader/src/com/mangecailloux/rube/loader/serializers/WorldSerializer.java:53 | the body list loop reads at most one record per entry of the `body` list and, when no read threw, hands back one body per record, the k-th being the world's handle + 1 + k |
| Worlds.SceneBodies | RubeLoader/src/com/mangecailloux/rube/loader/serializers/WorldSerializer.java:53-54 | the list `setBodies` receives is null iff the document has no `body` list, and otherwise the list the loop handed back |
| Worlds.BodyListCompletes | RubeLoader/src/com/mangecailloux/rube/loader/serializers/WorldSerializer.java:53 | the body list completes iff every record's custom-property entries are all accepted |
| Worlds.SetupCalls | RubeLoader/src/com/mangecailloux/rube/loader/serializers/WorldSerializer.java:45-48 | the world setup is four calls, the world's construction followed by the autoClearForces, continuousPhysics and warmStarting setters, all on the new world |
| Worlds.ScenePhase | RubeLoader/src/com/mangecailloux/rube/loader/serializers/WorldSerializer.java:54-66 | the store calls end by returning the world |
| Worlds.ContextIsLastInit | RubeLoader/src/com/mangecailloux/rube/loader/serializers/WorldSerializer.java:59-62 | the context the store calls leave the joint decoder in is that of their last `init`: pass two's if pass one decoded, else pass one's |
| Worlds.AfterSetup | RubeLoader/src/com/mangecailloux/rube/loader/serializers/WorldSerializer.java:51-66 | everything after the world setup ends by returning the world |
| Worlds.WorldSpec | RubeLoader/src/com/mangecailloux/rube/loader/serializers/WorldSerializer.java:36-67 | a read that returns, returns the world it constructed |
| Worlds.ScenePhaseInOrder | RubeLoader/src/com/mangecailloux/rube/loader/serializers/WorldSerializer.java:54-64 | the store calls open with `setBodies`, then make the joint-pass calls, then `setJoints`, never going back to an earlier step |
| Worlds.AfterSetupInOrder | RubeLoader/src/com/mangecailloux/rube/loader/serializers/WorldSerializer.java:51-64 | the body reads come first, then the store calls in order |
| Worlds.WorldConfigured | RubeLoader/src/com/mangecailloux/rube/loader/serializers/WorldSerializer.java:38-48 | the first four calls construct the world and then set autoClearForces, continuousPhysics and warmStarting. Each flag and gravity comes from the document when present, else from `RubeDefaults.World`. No setup call comes later |
| Worlds.WorldCallOrder | RubeLoader/src/com/mangecailloux/rube/loader/serializers/WorldSerializer.java:45-66 | the calls run in this order, never going back: construct and configure the world, decode the bodies, `setBodies`, the joint passes, `setJoints` |
| Worlds.WorldShape | RubeLoader/src/com/mangecailloux/rube/loader/serializers/WorldSerializer.java:45-66 | a read's calls are: the setup, then the body list, then the store calls if the body list completed and a scene is attached. Otherwise the read fails there |
| Worlds.EarlyCalls | RubeLoader/src/com/mangecailloux/rube/loader/serializers/WorldSerializer.java:38-53 | neither the setup nor the body list makes a store call: no `setBodies`, joint `init`, joint decoding or `setJoints`. The body reads' `setCustom` calls on the scene are body-list calls |
| Worlds.SceneReceivesCreatedBodies | RubeLoader/src/com/mangecailloux/rube/loader/serializers/WorldSerializer.java:53-54 | every `setBodies` goes to the attached scene and carries exactly the bodies the read created, in order: one per record, with consecutive fresh handles. It carries null when the document has no `body` list |
| Worlds.WorldCreates | RubeLoader/src/com/mangecailloux/rube/loader/serializers/WorldSerializer.java:45-53 | the bodies a read creates are those of the body list loop, one per record read. The world setup and the store calls create none |
| Worlds.JointPassesChained | RubeLoader/src/com/mangecailloux/rube/loader/serializers/WorldSerializer.java:59-64 | a successful read ends with the following calls: `setBodies`; init(world, bodies, null); pass one on the `joint` records; init(world, bodies, pass one's list); pass two on the same records; `setJoints(pass two's list)`. Without a `joint` list it ends with `setBodies`, two inits with no joints, and `setJoints(null)` |
| Worlds.JointTail | RubeLoader/src/com/mangecailloux/rube/loader/serializers/WorldSerializer.java:59-64 | the same, for the store calls on their own |
| Worlds.WorldReadSucceeds | RubeLoader/src/com/mangecailloux/rube/loader/serializers/WorldSerializer.java:64-66 | a read returns iff it calls `setJoints`. That call is then its last call and its only `setJoints`, so pass one's list is never stored |
| Worlds.ScenePhaseEnds | RubeLoader/src/com/mangecailloux/rube/loader/serializers/WorldSerializer.java:59-66 | the same, for the store calls on their own |
| Worlds.WorldReadAborts | RubeLoader/src/com/mangecailloux/rube/loader/serializers/WorldSerializer.java:52-54 | with no scene attached, or with a body record whose custom properties fail, the read fails before any store call. Its calls are exactly the setup calls followed by the body list loop's calls, so the `setCustom` calls of the records read before the failure stay in the trace |
| Worlds.WorldSerializer.constructor | RubeLoader/src/com/mangecailloux/rube/loader/serializers/WorldSerializer.java:20-22 | a new assembler has a fresh body decoder with no world or scene, and no scene of its own |
| Worlds.WorldSerializer.SetScene | RubeLoader/src/com/mangecailloux/rube/loader/serializers/WorldSerializer.java:29-32 | attaches the scene |
| Worlds.WorldSerializer.Read | RubeLoader/src/com/mangecailloux/rube/loader/serializers/WorldSerializer.java:36-67 | appends exactly WorldSpec's calls to the trace and returns WorldSpec's result. It leaves the body decoder attached to the new world and to the assembler's scene. `Host` has then handed out one handle for the world and one per body the read created. The fixture decoder is bound to the last body the list handed back, and the reused definition is that of the last record read. The joint decoder is left in the context of the last joint pass that ran: ContextAfterScene when the store calls ran, and unchanged otherwise |
| Worlds.WorldSerializer.CreateConfiguredWorld | RubeLoader/src/com/mangecailloux/rube/loader/serializers/WorldSerializer.java:38-48 | constructs the world with the next handle and makes exactly the four setup calls |
| Worlds.WorldSerializer.Populate | RubeLoader/src/com/mangecailloux/rube/loader/serializers/WorldSerializer.java:50-66 | decodes the body list, then makes the store calls, exactly as AfterSetup does. It leaves the handle counter, the fixture binding, the reused definition and the joint context as Read states |
| Worlds.WorldSerializer.ReadBodies | RubeLoader/src/com/mangecailloux/rube/loader/serializers/WorldSerializer.java:53 | the `body` list: null when absent, else the body list loop, with its exception. One handle is taken per record read. The fixture decoder is left bound to the last body handed back and the definition is that of the last record read |
| Worlds.WorldSerializer.ReadBodyRecords | RubeLoader/src/com/mangecailloux/rube/loader/serializers/WorldSerializer.java:53 | the loop over the body records makes exactly BodiesPass's calls and returns its list or its exception. It takes one handle per record read and leaves the fixture binding and the reused definition as those of the last body and the last record read |
| Worlds.WorldSerializer.ReadNext | RubeLoader/src/com/mangecailloux/rube/loader/serializers/WorldSerializer.java:53 | one turn of that loop extends the list by the new body, or ends it with the read's exception and the list unchanged. It takes one handle, fills the definition from the record and binds the fixture decoder iff the read completes |
| Worlds.WorldSerializer.ReadStep | RubeLoader/src/com/mangecailloux/rube/loader/serializers/WorldSerializer.java:53 | the body decoder's read of one record, with its calls and outcome given in advance. It takes one handle, fills the definition from the record, and binds the fixture decoder to the body iff the read completes |
| Worlds.WorldSerializer.StoreBodiesAndJoints | RubeLoader/src/com/mangecailloux/rube/loader/serializers/WorldSerializer.java:54-66 | makes exactly ScenePhase's calls: `setBodies`, then the two init/decode passes, the second given the first's list, then `setJoints`. It leaves the joint decoder in ContextAfterScene's context |
| Worlds.WorldSerializer.ReadJointList | RubeLoader/src/com/mangecailloux/rube/loader/serializers/WorldSerializer.java:60-63 | one read of the `joint` list, exactly as JointPass does |

## Left out

- The libgdx `Json` reflection and conversions are not modelled. A present value of the wrong kind reads as absent. A JSON `null` is not a value of its own. A number where a `Vector2` is expected is present and stands for the vector `Document.NumberVec` gives it. The `Vector2Serializer` that converts it is not part of this model, so `NumberVec` is left unspecified and every property holds whatever it returns. A number as `massData-center` therefore makes an override exactly as a vector would, by the same rule.
- The JSON array loop of `json.readValue("body", Array.class, Body.class, ...)` runs inside libgdx. Here it is a `while` loop in `WorldSerializer.ReadBodyRecords` that stops at the first exception. `ReadNext` and `ReadStep` are that loop's body, split out as methods.
- `FixtureSerializer` and `JointSerializer` are not part of this model. Fixture reading is one recorded call that carries the bound body and never throws, so a body read fails only in its property loop. Joint decoding is an arbitrary function of the records and the init context. Gear-joint resolution itself is therefore not modelled. Joints that either pass creates in the Box2D world are not recorded and get no handles. That includes pass one's joints (WorldSerializer.java:59), which line 62 replaces with pass two's and which the scene never stores.
- Box2D is not modelled beyond recorded calls: world construction, `createBody`, `setMassData` and mass from fixtures. Engine calls never fail.
- The `RubeScene` storage is not modelled, for example what a repeated property name does. Only the calls are recorded.
- The constructors' serializer registration is not modelled (BodySerializer.java:26-34, WorldSerializer.java:20-27). The models only create the body decoder.
- The commented-out int/float/Vec2/bool branches of the property loop are dead code, so they are not modelled.
- `RubeDefaults.World` and `RubeDefaults.Body.definition` are not part of this model. Their values are the `defaults` fields of the two classes, so any values are allowed.
- Float semantics are not modelled. Mass, I, angles and the centre are `real`s. The non-zero test of BodySerializer.java:93 is made on reals. IEEE `-0.0` compares equal to zero there as `0.0` does here, but `NaN` and float rounding are not captured.
- Bodies.DefinitionOf: the `type` code is read by truncating the number toward zero, without Java's narrowing to 32 bits. A code stored as an integer literal is narrowed by wrap-around. For example 2 + 2^32 reads as 2, and so as dynamic, in Java, but as static here. A code stored as a floating number outside the `int` range saturates in Java, which is also not modelled.
- Bodies.MassOverride: compares reals, not 32-bit floats; `NaN != 0.0f` holds in Java and has no counterpart here.
- Concurrency is not modelled. Each read is a single sequential call.
- Both serializers read and update the modelled state in place, as the Java fields do. `Host` is one object, so aliasing among the collaborators does not arise.

## Notes on the source

- `setBodies` (WorldSerializer.java:54) runs before either joint pass, so a joint decoding failure leaves the bodies stored in the scene. The model follows the code: `Worlds.ScenePhase` records `setBodies` before the first joint pass, whatever that pass returns.
- A scene that was never attached is not a silent no-op in the code. A custom property with a `string` key dereferences the null scene inside the body read. Without one, `setBodies` does, so the read fails with `NullScene` (`Worlds.WorldReadAborts`). A world that was never attached, by contrast, does make the body read a no-op (`Bodies.BodySpec`).
- Java evaluates a call's arguments before it checks the call's target for null. An entry whose `string` value is not a string therefore throws the cast exception even when the scene is null (`Bodies.PropertyStep`).
