/**
 * WorldSerializer: assembles a RUBE scene. It reads the world flags and
 * gravity from the document or the defaults table, constructs and
 * configures the world, decodes every body record with BodySerializer,
 * stores the bodies in the scene, then decodes the joint list twice (gear
 * joints refer to other joints, so the second pass is given the first
 * pass's result) and stores the second pass's joints in the scene.
 *
 * WorldSpec says which calls one read makes and what it returns; the
 * class method does the same work step by step and is proved to make
 * exactly those calls.
 */
module Worlds {
  import opened Options
  import opened Physics
  import opened Document
  import opened Collaborators
  import opened Bodies

  /** The body records decoded so far, the bodies they produced and the exception that stopped them. */
  datatype BodiesRun = BodiesRun(events: seq<Event>, bodies: seq<BodyRef>, fault: Option<Fault>)

  /** The calls one joint-list read makes and the list it yields: null when the list is absent. */
  datatype JointRun = JointRun(events: seq<Event>, joints: Result<Option<JointList>, Fault>)

  /** The calls one world read makes, oldest first, and the world it returns. */
  datatype WorldRun = WorldRun(events: seq<Event>, result: Result<WorldRef, Fault>)

  // ---------------------------------------------------------------------
  // The body list

  /** What reading each body record on its own does; the k-th record gets the k-th fresh handle after `first`. */
  function BodySteps(w: WorldRef, scene: Option<SceneRef>, recs: seq<Doc>, bd: BodyDef, first: nat): (steps: seq<BodyStep>)
    ensures |steps| == |recs|
  {
    seq(|recs|, k requires 0 <= k < |recs| => BodySpec(Some(w), scene, recs[k], bd, BodyRef(first + k)))
  }

  /**
   * The body list loop over the reads `steps`, the k-th of which created
   * handle first + k: the calls of each read in turn, the bodies they
   * returned, and the first exception, which ends the list.
   */
  function BodiesPass(steps: seq<BodyStep>, first: nat): (r: BodiesRun)
    ensures r.fault.None? ==> |r.bodies| == |steps|
    ensures r.fault.Some? ==> |r.bodies| < |steps|
    ensures forall k | 0 <= k < |r.bodies| :: r.bodies[k] == BodyRef(first + k)
    decreases |steps|
  {
    if steps == [] then BodiesRun([], [], None)
    else
      var prior := BodiesPass(steps[..|steps| - 1], first);
      var step := steps[|steps| - 1];
      if prior.fault.Some? then prior
      else if step.outcome.Threw? then BodiesRun(prior.events + step.events, prior.bodies, Some(step.outcome.fault))
      else BodiesRun(prior.events + step.events, prior.bodies + [BodyRef(first + |steps| - 1)], None)
  }

  /** What every read with a world makes: createBody in world w first, with handle b, then only body-phase calls. */
  predicate WellFormedStep(step: BodyStep, w: WorldRef, scene: Option<SceneRef>, b: BodyRef) {
    && (step.outcome == Built(b) || step.outcome.Threw?)
    && |step.events| > 0 && step.events[0].BodyCreated? && step.events[0].world == w && step.events[0].body == b
    && (forall i | 0 < i < |step.events| :: !step.events[i].BodyCreated?)
    && (forall e | e in step.events :: BodyPhase(e))
    && (forall e | e in step.events && e.CustomSet? :: scene == Some(e.scene))
  }

  predicate WellFormedSteps(steps: seq<BodyStep>, w: WorldRef, scene: Option<SceneRef>, first: nat) {
    forall k | 0 <= k < |steps| :: WellFormedStep(steps[k], w, scene, BodyRef(first + k))
  }

  lemma BodyStepsWellFormed(w: WorldRef, scene: Option<SceneRef>, recs: seq<Doc>, bd: BodyDef, first: nat)
    ensures WellFormedSteps(BodySteps(w, scene, recs, bd, first), w, scene, first)
  {
    var steps := BodySteps(w, scene, recs, bd, first);
    forall k | 0 <= k < |steps| ensures WellFormedStep(steps[k], w, scene, BodyRef(first + k)) {
      var b := BodyRef(first + k);
      assert steps[k] == BodySpec(Some(w), scene, recs[k], bd, b);
      BodyCallsStayInPhase(Some(w), scene, recs[k], bd, b);
      BodyCreatedOnce(w, scene, recs[k], bd, b);
    }
  }

  /** When the reads are well formed, every body of the list is the one its read returned. */
  lemma {:induction false} BodiesPassReturns(steps: seq<BodyStep>, w: WorldRef, scene: Option<SceneRef>, first: nat)
    requires WellFormedSteps(steps, w, scene, first)
    ensures var r := BodiesPass(steps, first);
            forall k | 0 <= k < |r.bodies| :: steps[k].outcome == Built(r.bodies[k])
  {
    if steps != [] {
      var init, last := steps[..|steps| - 1], steps[|steps| - 1];
      assert forall k | 0 <= k < |init| :: init[k] == steps[k];
      assert WellFormedSteps(init, w, scene, first);
      BodiesPassReturns(init, w, scene, first);
      assert WellFormedStep(last, w, scene, BodyRef(first + |init|));
    }
  }

  /** How many records the loop read: every one it handed a body for, and the one that threw, if any. */
  function RecordsRead(r: BodiesRun): nat {
    |r.bodies| + if r.fault.Some? then 1 else 0
  }

  /** Whether every custom-property entry of a body record survives its casts and scene call. */
  predicate RecordAccepted(scene: Option<SceneRef>, rec: Doc) {
    forall i | 0 <= i < |PropertiesOf(rec)| :: PropertyAccepted(scene, PropertiesOf(rec)[i])
  }

  /** The bodies created by a sequence of calls, in creation order. */
  function CreatedBodies(es: seq<Event>): seq<BodyRef> {
    if es == [] then []
    else (if es[0].BodyCreated? then [es[0].body] else []) + CreatedBodies(es[1..])
  }

  lemma {:induction false} CreatedBodiesAppend(a: seq<Event>, c: seq<Event>)
    ensures CreatedBodies(a + c) == CreatedBodies(a) + CreatedBodies(c)
  {
    if a == [] {
      assert a + c == c;
    } else {
      var head := if a[0].BodyCreated? then [a[0].body] else [];
      assert (a + c)[0] == a[0] && (a + c)[1..] == a[1..] + c;
      assert CreatedBodies(a + c) == head + CreatedBodies(a[1..] + c);
      CreatedBodiesAppend(a[1..], c);
      assert head + (CreatedBodies(a[1..]) + CreatedBodies(c)) == (head + CreatedBodies(a[1..])) + CreatedBodies(c);
    }
  }

  lemma {:induction false} CreatedBodiesNone(es: seq<Event>)
    requires forall i | 0 <= i < |es| :: !es[i].BodyCreated?
    ensures CreatedBodies(es) == []
  {
    if es != [] {
      CreatedBodiesNone(es[1..]);
    }
  }

  /** The body list is complete exactly when no read throws. */
  lemma {:induction false} BodiesPassThrows(steps: seq<BodyStep>, first: nat)
    ensures BodiesPass(steps, first).fault.None? <==> forall k | 0 <= k < |steps| :: !steps[k].outcome.Threw?
  {
    if steps != [] {
      var init := steps[..|steps| - 1];
      BodiesPassThrows(init, first);
      assert forall k | 0 <= k < |init| :: init[k] == steps[k];
    }
  }

  /** One more read, the i-th: its calls follow the earlier ones, and it ends the list if it throws. */
  lemma BodiesPassNext(steps: seq<BodyStep>, i: nat, first: nat)
    requires i < |steps| && BodiesPass(steps[..i], first).fault.None?
    ensures var prior := BodiesPass(steps[..i], first);
            var r := BodiesPass(steps[..i + 1], first);
            && r.events == prior.events + steps[i].events
            && (steps[i].outcome.Threw? ==> r.fault == Some(steps[i].outcome.fault) && r.bodies == prior.bodies)
            && (!steps[i].outcome.Threw? ==> r.fault == None && r.bodies == prior.bodies + [BodyRef(first + i)])
  {
    var next := steps[..i + 1];
    assert next[..|next| - 1] == steps[..i] && next[|next| - 1] == steps[i];
  }

  /** Once a read has thrown, later records are not decoded. */
  lemma {:induction false} BodiesPassStops(steps: seq<BodyStep>, first: nat, k: nat)
    requires k <= |steps| && BodiesPass(steps[..k], first).fault.Some?
    ensures BodiesPass(steps, first) == BodiesPass(steps[..k], first)
    decreases |steps| - k
  {
    if k < |steps| {
      var init := steps[..|steps| - 1];
      assert init[..k] == steps[..k];
      BodiesPassStops(init, first, k);
    } else {
      assert steps[..k] == steps;
    }
  }

  /** Decoding the body list makes only body-phase calls, all in world w and scene `scene`. */
  lemma {:induction false} BodiesPassInPhase(steps: seq<BodyStep>, w: WorldRef, scene: Option<SceneRef>, first: nat)
    requires WellFormedSteps(steps, w, scene, first)
    ensures forall e | e in BodiesPass(steps, first).events :: BodyPhase(e)
    ensures forall e | e in BodiesPass(steps, first).events && e.BodyCreated? :: e.world == w
    ensures forall e | e in BodiesPass(steps, first).events && e.CustomSet? :: scene == Some(e.scene)
  {
    if steps != [] {
      var init, last := steps[..|steps| - 1], steps[|steps| - 1];
      assert WellFormedSteps(init, w, scene, first) by {
        assert forall k | 0 <= k < |init| :: init[k] == steps[k];
      }
      BodiesPassInPhase(init, w, scene, first);
      assert WellFormedStep(last, w, scene, BodyRef(first + |steps| - 1));
      assert forall e | e in last.events && e.BodyCreated? :: e.world == w by {
        forall e | e in last.events && e.BodyCreated? ensures e.world == w {
          var i :| 0 <= i < |last.events| && last.events[i] == e;
          assert i == 0;
        }
      }
    }
  }

  /**
   * The bodies created in the engine by the body list loop, in creation
   * order: the list it hands over, then the body of the read that threw, if
   * one did.
   */
  lemma {:induction false} BodiesPassCreates(steps: seq<BodyStep>, w: WorldRef, scene: Option<SceneRef>, first: nat)
    requires WellFormedSteps(steps, w, scene, first)
    ensures var r := BodiesPass(steps, first);
            CreatedBodies(r.events) == r.bodies + (if r.fault.Some? then [BodyRef(first + |r.bodies|)] else [])
  {
    if steps != [] {
      var init, last := steps[..|steps| - 1], steps[|steps| - 1];
      assert WellFormedSteps(init, w, scene, first) by {
        assert forall k | 0 <= k < |init| :: init[k] == steps[k];
      }
      BodiesPassCreates(init, w, scene, first);
      var prior := BodiesPass(init, first);
      if prior.fault.None? {
        assert WellFormedStep(last, w, scene, BodyRef(first + |init|));
        var es := last.events;
        CreatedBodiesNone(es[1..]);
        assert es == [es[0]] + es[1..];
        CreatedBodiesAppend([es[0]], es[1..]);
        CreatedBodiesAppend(prior.events, es);
      }
    }
  }

  // ---------------------------------------------------------------------
  // One world read

  /** new World(gravity, allowSleep), then the three setters, each from the document or the defaults. */
  function SetupCalls(w: WorldRef, doc: Doc, wd: WorldDefaults): (calls: seq<Event>)
    ensures |calls| == 4 && calls[0].WorldCreated? && calls[1].AutoClearForcesSet?
    ensures calls[2].ContinuousPhysicsSet? && calls[3].WarmStartingSet?
    ensures forall i | 0 <= i < 4 :: calls[i].world == w
  {
    [ WorldCreated(w, ReadVec(doc, Gravity, wd.gravity), ReadBool(doc, AllowSleep, wd.allowSleep)),
      AutoClearForcesSet(w, ReadBool(doc, AutoClearForces, wd.autoClearForces)),
      ContinuousPhysicsSet(w, ReadBool(doc, ContinuousPhysics, wd.continuousPhysics)),
      WarmStartingSet(w, ReadBool(doc, WarmStarting, wd.warmStarting)) ]
  }

  /** The body records of the document; an absent list is read as null and decodes nothing. */
  function BodyRecords(doc: Doc): seq<Doc> {
    match FindRecords(doc, BodyArray)
    case None => []
    case Some(recs) => recs
  }

  /** The body list stored in the scene: null when the document has none. */
  function SceneBodies(doc: Doc, pass: BodiesRun): (stored: Option<seq<BodyRef>>)
    ensures stored.None? <==> !HasRecords(doc, BodyArray)
    ensures stored.Some? ==> stored.value == pass.bodies
  {
    if HasRecords(doc, BodyArray) then Some(pass.bodies) else None
  }

  /** The body list loop of a read in world w: the records follow the world's own handle. */
  function BodyListPass(w: WorldRef, scene: Option<SceneRef>, doc: Doc, bd: BodyDef): (r: BodiesRun)
    ensures RecordsRead(r) <= |BodyRecords(doc)|
    ensures r.fault.None? ==> |r.bodies| == |BodyRecords(doc)|
    ensures forall k | 0 <= k < |r.bodies| :: r.bodies[k] == BodyRef(w.id + 1 + k)
  {
    BodiesPass(BodySteps(w, scene, BodyRecords(doc), bd, w.id + 1), w.id + 1)
  }

  /** The body list loop creates its bodies in world w and hands a complete list in creation order. */
  lemma BodyListFacts(w: WorldRef, scene: Option<SceneRef>, doc: Doc, bd: BodyDef)
    ensures var pass := BodyListPass(w, scene, doc, bd);
            && (forall e | e in pass.events :: BodyPhase(e))
            && (forall e | e in pass.events && e.BodyCreated? :: e.world == w)
            && (forall e | e in pass.events && e.CustomSet? :: scene == Some(e.scene))
            && (pass.fault.None? ==> CreatedBodies(pass.events) == pass.bodies)
            && |CreatedBodies(pass.events)| == RecordsRead(pass)
  {
    var steps := BodySteps(w, scene, BodyRecords(doc), bd, w.id + 1);
    BodyStepsWellFormed(w, scene, BodyRecords(doc), bd, w.id + 1);
    BodiesPassInPhase(steps, w, scene, w.id + 1);
    BodiesPassCreates(steps, w, scene, w.id + 1);
  }

  /** The body list loop completes exactly when every body record's custom properties are accepted. */
  lemma BodyListCompletes(w: WorldRef, scene: Option<SceneRef>, doc: Doc, bd: BodyDef)
    ensures BodyListPass(w, scene, doc, bd).fault.None? <==>
            forall k | 0 <= k < |BodyRecords(doc)| :: RecordAccepted(scene, BodyRecords(doc)[k])
  {
    var recs := BodyRecords(doc);
    var steps := BodySteps(w, scene, recs, bd, w.id + 1);
    BodiesPassThrows(steps, w.id + 1);
    forall k | 0 <= k < |recs|
      ensures RecordAccepted(scene, recs[k]) <==> !steps[k].outcome.Threw?
    {
      StepThrows(w, scene, recs, bd, w.id + 1, k);
    }
  }

  /** The k-th read of the body list throws exactly when its record's custom properties are not accepted. */
  lemma StepThrows(w: WorldRef, scene: Option<SceneRef>, recs: seq<Doc>, bd: BodyDef, first: nat, k: nat)
    requires k < |recs|
    ensures RecordAccepted(scene, recs[k]) <==> !BodySteps(w, scene, recs, bd, first)[k].outcome.Threw?
  {
    assert BodySteps(w, scene, recs, bd, first)[k] == BodySpec(Some(w), scene, recs[k], bd, BodyRef(first + k));
    BodyReadThrows(w, scene, recs[k], bd, BodyRef(first + k));
  }

  /** One read of the `joint` list in a decoder context: null, without decoding, when absent. */
  function JointPass(records: Option<seq<Doc>>, ctx: JointContext, decode: JointDecoder): JointRun {
    match records
    case None => JointRun([], Success(None))
    case Some(recs) =>
      var decoded := decode(recs, ctx);
      JointRun([JointsRead(recs, ctx, decoded)],
               if decoded.Success? then Success(Some(decoded.value)) else Failure(decoded.error))
  }

  /** setBodies, the two joint passes and setJoints, for a scene that is attached. */
  function ScenePhase(s: SceneRef, w: WorldRef, bodies: Option<seq<BodyRef>>, doc: Doc, decode: JointDecoder): (r: WorldRun)
    ensures r.result.Success? ==> r.result.value == w
  {
    var records := FindRecords(doc, JointArray);
    var ctx1 := JointContext(Some(w), bodies, None);
    var one := JointPass(records, ctx1, decode);
    var head := [BodiesSet(s, bodies), JointsInitialised(ctx1)] + one.events;
    if one.joints.Failure? then WorldRun(head, Failure(one.joints.error))
    else
      var ctx2 := JointContext(Some(w), bodies, one.joints.value);
      var two := JointPass(records, ctx2, decode);
      var upToTwo := head + [JointsInitialised(ctx2)] + two.events;
      if two.joints.Failure? then WorldRun(upToTwo, Failure(two.joints.error))
      else WorldRun(upToTwo + [JointsSet(s, two.joints.value)], Success(w))
  }

  /** The joint decoder's context once the store calls are over: pass two's if pass one decoded, else pass one's. */
  function ContextAfterScene(w: WorldRef, bodies: Option<seq<BodyRef>>, doc: Doc, decode: JointDecoder): JointContext {
    var ctx1 := JointContext(Some(w), bodies, None);
    var one := JointPass(FindRecords(doc, JointArray), ctx1, decode);
    if one.joints.Failure? then ctx1 else JointContext(Some(w), bodies, one.joints.value)
  }

  /** The context the store calls leave the joint decoder in is that of their last init. */
  lemma ContextIsLastInit(s: SceneRef, w: WorldRef, bodies: Option<seq<BodyRef>>, doc: Doc, decode: JointDecoder)
    ensures var es := ScenePhase(s, w, bodies, doc, decode).events;
            exists i | 0 <= i < |es| ::
              && es[i] == JointsInitialised(ContextAfterScene(w, bodies, doc, decode))
              && forall j | i < j < |es| :: !es[j].JointsInitialised?
  {
    var es := ScenePhase(s, w, bodies, doc, decode).events;
    var records := FindRecords(doc, JointArray);
    var ctx1 := JointContext(Some(w), bodies, None);
    var one := JointPass(records, ctx1, decode);
    assert |one.events| <= 1 && forall e | e in one.events :: e.JointsRead?;
    if one.joints.Failure? {
      assert es == [BodiesSet(s, bodies), JointsInitialised(ctx1)] + one.events;
      assert forall j | 1 < j < |es| :: es[j] == one.events[j - 2];
      assert es[1] == JointsInitialised(ContextAfterScene(w, bodies, doc, decode));
    } else {
      var ctx2 := JointContext(Some(w), bodies, one.joints.value);
      var two := JointPass(records, ctx2, decode);
      assert |two.events| <= 1 && forall e | e in two.events :: e.JointsRead?;
      var upToTwo := [BodiesSet(s, bodies), JointsInitialised(ctx1)] + one.events + [JointsInitialised(ctx2)] + two.events;
      var k := 2 + |one.events|;
      assert es[..|upToTwo|] == upToTwo;
      assert upToTwo[k] == JointsInitialised(ctx2);
      assert forall j | k < j < |upToTwo| :: upToTwo[j] == two.events[j - k - 1];
      assert forall j | k < j < |es| :: !es[j].JointsInitialised?;
      assert es[k] == JointsInitialised(ContextAfterScene(w, bodies, doc, decode));
    }
  }

  /** Everything after the world is configured: the body list, then the scene and the joints. */
  function AfterSetup(w: WorldRef, scene: Option<SceneRef>, doc: Doc, bd: BodyDef, decode: JointDecoder): (r: WorldRun)
    ensures r.result.Success? ==> r.result.value == w
  {
    var pass := BodyListPass(w, scene, doc, bd);
    if pass.fault.Some? then WorldRun(pass.events, Failure(pass.fault.value))
    else if scene.None? then WorldRun(pass.events, Failure(NullScene))  // mScene.setBodies on null
    else
      var rest := ScenePhase(scene.value, w, SceneBodies(doc, pass), doc, decode);
      WorldRun(pass.events + rest.events, rest.result)
  }

  /**
   * The calls one read of `doc` makes and what it returns, when the
   * engine's next handle is id0, the attached scene is `scene` and the
   * joint decoder is `decode`.
   */
  function WorldSpec(doc: Doc, wd: WorldDefaults, bd: BodyDef, scene: Option<SceneRef>, id0: nat, decode: JointDecoder): (r: WorldRun)
    ensures r.result.Success? ==> r.result.value == WorldRef(id0)
  {
    var w := WorldRef(id0);
    var after := AfterSetup(w, scene, doc, bd, decode);
    WorldRun(SetupCalls(w, doc, wd) + after.events, after.result)
  }

  // ---------------------------------------------------------------------
  // Properties of a world read

  /**
   * Which step of the read a call belongs to: 0 the world setup, 1 the body
   * reads (including their setCustom calls on the scene), 2 to 4 the store
   * calls. A read's calls never go back to an earlier step.
   */
  function Stage(e: Event): nat {
    match e
    case WorldCreated(_, _, _) => 0
    case AutoClearForcesSet(_, _) => 0
    case ContinuousPhysicsSet(_, _) => 0
    case WarmStartingSet(_, _) => 0
    case BodiesSet(_, _) => 2
    case JointsInitialised(_) => 3
    case JointsRead(_, _, _) => 3
    case JointsSet(_, _) => 4
    case _ => 1
  }

  predicate InOrder(es: seq<Event>) {
    forall i, j | 0 <= i < j < |es| :: Stage(es[i]) <= Stage(es[j])
  }

  lemma InOrderAppend(a: seq<Event>, c: seq<Event>, m: nat)
    requires InOrder(a) && InOrder(c)
    requires forall e | e in a :: Stage(e) <= m
    requires forall e | e in c :: m <= Stage(e)
    ensures InOrder(a + c)
  {
    forall i, j | 0 <= i < j < |a + c| ensures Stage((a + c)[i]) <= Stage((a + c)[j]) {
      if j < |a| {
      } else if i >= |a| {
        assert (a + c)[i] == c[i - |a|] && (a + c)[j] == c[j - |a|];
      } else {
        assert (a + c)[i] in a && (a + c)[j] in c;
      }
    }
  }

  lemma UniformInOrder(es: seq<Event>, m: nat)
    requires forall e | e in es :: Stage(e) == m
    ensures InOrder(es)
  {
    assert forall i | 0 <= i < |es| :: es[i] in es;
  }

  lemma ScenePhaseInOrder(s: SceneRef, w: WorldRef, bodies: Option<seq<BodyRef>>, doc: Doc, decode: JointDecoder)
    ensures InOrder(ScenePhase(s, w, bodies, doc, decode).events)
    ensures forall e | e in ScenePhase(s, w, bodies, doc, decode).events :: 2 <= Stage(e)
    ensures var es := ScenePhase(s, w, bodies, doc, decode).events;
            es[0] == BodiesSet(s, bodies) && forall i | 0 < i < |es| :: 3 <= Stage(es[i])
  {
    var mid, last := ScenePhaseSplit(s, w, bodies, doc, decode);
    StagedInOrder(BodiesSet(s, bodies), mid, last);
  }

  /** The store calls are setBodies, then the joint passes' calls, then at most the setJoints. */
  lemma ScenePhaseSplit(s: SceneRef, w: WorldRef, bodies: Option<seq<BodyRef>>, doc: Doc, decode: JointDecoder)
    returns (mid: seq<Event>, last: seq<Event>)
    ensures ScenePhase(s, w, bodies, doc, decode).events == [BodiesSet(s, bodies)] + mid + last
    ensures forall e | e in mid :: Stage(e) == 3
    ensures forall e | e in last :: Stage(e) == 4
  {
    var records := FindRecords(doc, JointArray);
    var ctx1 := JointContext(Some(w), bodies, None);
    var one := JointPass(records, ctx1, decode);
    mid := [JointsInitialised(ctx1)] + one.events;
    last := [];
    if one.joints.Success? {
      var ctx2 := JointContext(Some(w), bodies, one.joints.value);
      var two := JointPass(records, ctx2, decode);
      mid := mid + [JointsInitialised(ctx2)] + two.events;
      if two.joints.Success? {
        last := [JointsSet(s, two.joints.value)];
      }
    }
  }

  /** One stage-2 call, then stage-3 calls, then stage-4 calls: in order, and only the first below stage 3. */
  lemma StagedInOrder(head: Event, mid: seq<Event>, last: seq<Event>)
    requires Stage(head) == 2
    requires forall e | e in mid :: Stage(e) == 3
    requires forall e | e in last :: Stage(e) == 4
    ensures var es := [head] + mid + last;
            && InOrder(es) && (forall e | e in es :: 2 <= Stage(e))
            && es[0] == head && forall i | 0 < i < |es| :: 3 <= Stage(es[i])
  {
    var es := [head] + mid + last;
    UniformInOrder([head], 2);
    UniformInOrder(mid, 3);
    UniformInOrder(last, 4);
    InOrderAppend([head], mid, 2);
    InOrderAppend([head] + mid, last, 3);
    forall i | 0 < i < |es| ensures 3 <= Stage(es[i]) {
      if i <= |mid| {
        assert es[i] == mid[i - 1];
      } else {
        assert es[i] == last[i - 1 - |mid|];
      }
    }
  }

  lemma AfterSetupInOrder(w: WorldRef, scene: Option<SceneRef>, doc: Doc, bd: BodyDef, decode: JointDecoder)
    ensures InOrder(AfterSetup(w, scene, doc, bd, decode).events)
    ensures forall e | e in AfterSetup(w, scene, doc, bd, decode).events :: 1 <= Stage(e)
  {
    var pass := BodyListPass(w, scene, doc, bd);
    BodyListFacts(w, scene, doc, bd);
    assert forall e | e in pass.events :: Stage(e) == 1;
    UniformInOrder(pass.events, 1);
    if pass.fault.None? && scene.Some? {
      var rest := ScenePhase(scene.value, w, SceneBodies(doc, pass), doc, decode).events;
      ScenePhaseInOrder(scene.value, w, SceneBodies(doc, pass), doc, decode);
      InOrderAppend(pass.events, rest, 2);
      assert AfterSetup(w, scene, doc, bd, decode).events == pass.events + rest;
    } else {
      assert AfterSetup(w, scene, doc, bd, decode).events == pass.events;
    }
  }

  /** The world is constructed and configured first, once, from the document or the defaults. */
  lemma WorldConfigured(doc: Doc, wd: WorldDefaults, bd: BodyDef, scene: Option<SceneRef>, id0: nat, decode: JointDecoder)
    ensures var es := WorldSpec(doc, wd, bd, scene, id0, decode).events;
            var w := WorldRef(id0);
            && |es| >= 4
            && es[0] == WorldCreated(w, if HasVec(doc, Gravity) then VecOf(doc[Gravity]) else wd.gravity,
                                        if HasBool(doc, AllowSleep) then doc[AllowSleep].b else wd.allowSleep)
            && es[1] == AutoClearForcesSet(w, if HasBool(doc, AutoClearForces) then doc[AutoClearForces].b else wd.autoClearForces)
            && es[2] == ContinuousPhysicsSet(w, if HasBool(doc, ContinuousPhysics) then doc[ContinuousPhysics].b else wd.continuousPhysics)
            && es[3] == WarmStartingSet(w, if HasBool(doc, WarmStarting) then doc[WarmStarting].b else wd.warmStarting)
            && forall i | 4 <= i < |es| :: Stage(es[i]) != 0
  {
    var w := WorldRef(id0);
    var after := AfterSetup(w, scene, doc, bd, decode).events;
    var es := WorldSpec(doc, wd, bd, scene, id0, decode).events;
    AfterSetupInOrder(w, scene, doc, bd, decode);
    assert es == SetupCalls(w, doc, wd) + after;
    assert forall i | 4 <= i < |es| :: es[i] == after[i - 4];
  }

  /**
   * The calls of a read come in the order: construct and configure the
   * world, decode the bodies, setBodies, the joint passes, setJoints.
   */
  lemma WorldCallOrder(doc: Doc, wd: WorldDefaults, bd: BodyDef, scene: Option<SceneRef>, id0: nat, decode: JointDecoder)
    ensures InOrder(WorldSpec(doc, wd, bd, scene, id0, decode).events)
  {
    var w := WorldRef(id0);
    AfterSetupInOrder(w, scene, doc, bd, decode);
    InOrderAppend(SetupCalls(w, doc, wd), AfterSetup(w, scene, doc, bd, decode).events, 0);
  }

  /** A read's calls: the world setup, the body list loop, then the store calls if the read gets that far. */
  lemma WorldShape(doc: Doc, wd: WorldDefaults, bd: BodyDef, scene: Option<SceneRef>, id0: nat, decode: JointDecoder)
    returns (pass: BodiesRun, rest: seq<Event>)
    ensures pass == BodyListPass(WorldRef(id0), scene, doc, bd)
    ensures WorldSpec(doc, wd, bd, scene, id0, decode).events == SetupCalls(WorldRef(id0), doc, wd) + pass.events + rest
    ensures pass.fault.Some? || scene.None? ==> rest == [] && WorldSpec(doc, wd, bd, scene, id0, decode).result.Failure?
    ensures pass.fault.None? && scene.Some? ==>
              var phase := ScenePhase(scene.value, WorldRef(id0), SceneBodies(doc, pass), doc, decode);
              rest == phase.events && WorldSpec(doc, wd, bd, scene, id0, decode).result == phase.result
  {
    pass := BodyListPass(WorldRef(id0), scene, doc, bd);
    if pass.fault.None? && scene.Some? {
      rest := ScenePhase(scene.value, WorldRef(id0), SceneBodies(doc, pass), doc, decode).events;
    } else {
      rest := [];
    }
  }

  /**
   * The world setup and the body list loop make no store call: no setBodies,
   * no joint init, no joint decoding and no setJoints. (The body reads do
   * call setCustom on the scene.)
   */
  lemma EarlyCalls(w: WorldRef, doc: Doc, wd: WorldDefaults, scene: Option<SceneRef>, bd: BodyDef)
    ensures forall e | e in SetupCalls(w, doc, wd) + BodyListPass(w, scene, doc, bd).events :: Stage(e) <= 1
  {
    BodyListFacts(w, scene, doc, bd);
  }

  /** No body is created outside the body list loop. */
  lemma CreatedBetween(setup: seq<Event>, mid: seq<Event>, rest: seq<Event>)
    requires forall e | e in setup :: Stage(e) == 0
    requires forall e | e in rest :: 2 <= Stage(e)
    ensures CreatedBodies(setup + mid + rest) == CreatedBodies(mid)
  {
    assert forall i | 0 <= i < |setup| :: setup[i] in setup;
    assert forall i | 0 <= i < |rest| :: rest[i] in rest;
    CreatedBodiesNone(setup);
    CreatedBodiesNone(rest);
    CreatedBodiesAppend(setup + mid, rest);
    CreatedBodiesAppend(setup, mid);
  }

  /**
   * The scene is given the body list after the whole list is decoded: null
   * when the document has none, otherwise every body created, in order,
   * one per record, with consecutive fresh handles.
   */
  lemma SceneReceivesCreatedBodies(doc: Doc, wd: WorldDefaults, bd: BodyDef, scene: Option<SceneRef>, id0: nat, decode: JointDecoder)
    ensures var es := WorldSpec(doc, wd, bd, scene, id0, decode).events;
            forall e | e in es && e.BodiesSet? ::
              && scene == Some(e.scene)
              && e.bodies == (if HasRecords(doc, BodyArray) then Some(CreatedBodies(es)) else None)
              && |CreatedBodies(es)| == |BodyRecords(doc)|
              && forall k | 0 <= k < |CreatedBodies(es)| :: CreatedBodies(es)[k] == BodyRef(id0 + 1 + k)
  {
    var w := WorldRef(id0);
    var pass, rest := WorldShape(doc, wd, bd, scene, id0, decode);
    if pass.fault.None? && scene.Some? {
      StoredBodies(doc, wd, bd, scene.value, id0, decode);
    } else {
      EarlyCalls(w, doc, wd, scene, bd);
      NoSceneCalls(SetupCalls(w, doc, wd) + pass.events);
    }
  }

  /** SceneReceivesCreatedBodies for a read that reaches the store calls. */
  lemma StoredBodies(doc: Doc, wd: WorldDefaults, bd: BodyDef, s: SceneRef, id0: nat, decode: JointDecoder)
    requires BodyListPass(WorldRef(id0), Some(s), doc, bd).fault.None?
    ensures var es := WorldSpec(doc, wd, bd, Some(s), id0, decode).events;
            var pass := BodyListPass(WorldRef(id0), Some(s), doc, bd);
            && CreatedBodies(es) == pass.bodies
            && forall e | e in es && e.BodiesSet? :: e.scene == s && e.bodies == SceneBodies(doc, pass)
  {
    var w := WorldRef(id0);
    var pass, rest := WorldShape(doc, wd, bd, Some(s), id0, decode);
    var stored := SceneBodies(doc, pass);
    BodyListFacts(w, Some(s), doc, bd);
    ScenePhaseInOrder(s, w, stored, doc, decode);
    SetupStage(w, doc, wd);
    PhaseStage(pass.events);
    OneBodiesSet(WorldSpec(doc, wd, bd, Some(s), id0, decode).events, SetupCalls(w, doc, wd), pass.events, rest, s, stored);
  }

  lemma SetupStage(w: WorldRef, doc: Doc, wd: WorldDefaults)
    ensures forall e | e in SetupCalls(w, doc, wd) :: Stage(e) == 0
  {
  }

  lemma PhaseStage(es: seq<Event>)
    requires forall e | e in es :: BodyPhase(e)
    ensures forall e | e in es :: Stage(e) == 1
  {
  }

  /** In setup + loop + store calls, the bodies created are the loop's, and the one setBodies opens the store calls. */
  lemma OneBodiesSet(es: seq<Event>, setup: seq<Event>, loop: seq<Event>, rest: seq<Event>, s: SceneRef, stored: Option<seq<BodyRef>>)
    requires es == setup + loop + rest
    requires forall e | e in setup :: Stage(e) == 0
    requires forall e | e in loop :: Stage(e) == 1
    requires |rest| > 0 && rest[0] == BodiesSet(s, stored) && forall i | 0 < i < |rest| :: 3 <= Stage(rest[i])
    ensures CreatedBodies(es) == CreatedBodies(loop)
    ensures forall e | e in es && e.BodiesSet? :: e.scene == s && e.bodies == stored
  {
    assert forall e | e in rest :: 2 <= Stage(e);
    CreatedBetween(setup, loop, rest);
    forall e | e in es && e.BodiesSet? ensures e == rest[0] {
      assert e in rest;
      var i :| 0 <= i < |rest| && rest[i] == e;
    }
  }

  /** The bodies a read creates are those of its body list loop, one per record read. */
  lemma WorldCreates(doc: Doc, wd: WorldDefaults, bd: BodyDef, scene: Option<SceneRef>, id0: nat, decode: JointDecoder)
    ensures var pass := BodyListPass(WorldRef(id0), scene, doc, bd);
            var es := WorldSpec(doc, wd, bd, scene, id0, decode).events;
            CreatedBodies(es) == CreatedBodies(pass.events) && |CreatedBodies(es)| == RecordsRead(pass)
  {
    var w := WorldRef(id0);
    var pass, rest := WorldShape(doc, wd, bd, scene, id0, decode);
    SetupStage(w, doc, wd);
    BodyListFacts(w, scene, doc, bd);
    if pass.fault.None? && scene.Some? {
      ScenePhaseInOrder(scene.value, w, SceneBodies(doc, pass), doc, decode);
    }
    CreatedBetween(SetupCalls(w, doc, wd), pass.events, rest);
  }

  lemma NoSceneCalls(es: seq<Event>)
    requires forall e | e in es :: Stage(e) <= 1
    ensures forall e | e in es :: !e.BodiesSet? && !e.JointsSet? && !e.JointsRead? && !e.JointsInitialised?
  {
  }

  /**
   * Both joint passes decode the document's `joint` list: pass one with
   * no joint table, pass two with pass one's joints; the scene gets pass
   * two's output. These are the last calls of a read that succeeds.
   */
  predicate TwoJointPasses(calls: seq<Event>, s: SceneRef, w: WorldRef, records: seq<Doc>, decode: JointDecoder) {
    && |calls| == 6
    && calls[0].BodiesSet? && calls[0].scene == s
    && var one := JointContext(Some(w), calls[0].bodies, None);
    && calls[1] == JointsInitialised(one)
    && calls[2].JointsRead? && calls[2].records == records && calls[2].context == one
    && calls[2].result == decode(records, one) && calls[2].result.Success?
    && var two := JointContext(Some(w), calls[0].bodies, Some(calls[2].result.value));
    && calls[3] == JointsInitialised(two)
    && calls[4].JointsRead? && calls[4].records == records && calls[4].context == two
    && calls[4].result == decode(records, two) && calls[4].result.Success?
    && calls[5] == JointsSet(s, Some(calls[4].result.value))
  }

  /** Without a `joint` list nothing is decoded: both inits happen and the scene gets null. */
  predicate NoJointPasses(calls: seq<Event>, s: SceneRef, w: WorldRef) {
    && |calls| == 4
    && calls[0].BodiesSet? && calls[0].scene == s
    && var none := JointContext(Some(w), calls[0].bodies, None);
    && calls[1] == JointsInitialised(none)
    && calls[2] == JointsInitialised(none)
    && calls[3] == JointsSet(s, None)
  }

  /** How a read that succeeds ends, with and without a joint list in the document. */
  lemma JointPassesChained(doc: Doc, wd: WorldDefaults, bd: BodyDef, s: SceneRef, id0: nat, decode: JointDecoder)
    requires WorldSpec(doc, wd, bd, Some(s), id0, decode).result.Success?
    ensures var es := WorldSpec(doc, wd, bd, Some(s), id0, decode).events;
            && (HasRecords(doc, JointArray) ==>
                  |es| >= 6 && TwoJointPasses(es[|es| - 6..], s, WorldRef(id0), doc[JointArray].items, decode))
            && (!HasRecords(doc, JointArray) ==>
                  |es| >= 4 && NoJointPasses(es[|es| - 4..], s, WorldRef(id0)))
  {
    var w := WorldRef(id0);
    var pass := BodyListPass(w, Some(s), doc, bd);
    var rest := ScenePhase(s, w, SceneBodies(doc, pass), doc, decode).events;
    var es := WorldSpec(doc, wd, bd, Some(s), id0, decode).events;
    AppendAssoc(SetupCalls(w, doc, wd), pass.events, rest);
    assert es == SetupCalls(w, doc, wd) + pass.events + rest;
    JointTail(s, w, SceneBodies(doc, pass), doc, decode);
    assert es[|es| - |rest|..] == rest;
  }

  lemma JointTail(s: SceneRef, w: WorldRef, bodies: Option<seq<BodyRef>>, doc: Doc, decode: JointDecoder)
    requires ScenePhase(s, w, bodies, doc, decode).result.Success?
    ensures var rest := ScenePhase(s, w, bodies, doc, decode).events;
            && (HasRecords(doc, JointArray) ==> TwoJointPasses(rest, s, w, doc[JointArray].items, decode))
            && (!HasRecords(doc, JointArray) ==> NoJointPasses(rest, s, w))
  {
  }

  /** A read succeeds exactly when the scene receives its joints, which is then its last call and its only setJoints. */
  lemma WorldReadSucceeds(doc: Doc, wd: WorldDefaults, bd: BodyDef, scene: Option<SceneRef>, id0: nat, decode: JointDecoder)
    ensures var r := WorldSpec(doc, wd, bd, scene, id0, decode);
            && (r.result.Success? <==> exists e | e in r.events :: e.JointsSet?)
            && (r.result.Success? ==> r.events[|r.events| - 1].JointsSet?)
            && forall i | 0 <= i < |r.events| - 1 :: !r.events[i].JointsSet?
  {
    var w := WorldRef(id0);
    var r := WorldSpec(doc, wd, bd, scene, id0, decode);
    var pass, rest := WorldShape(doc, wd, bd, scene, id0, decode);
    EarlyCalls(w, doc, wd, scene, bd);
    var prefix := SetupCalls(w, doc, wd) + pass.events;
    if pass.fault.None? && scene.Some? {
      ScenePhaseEnds(scene.value, w, SceneBodies(doc, pass), doc, decode);
    }
    LateCalls(r.events, prefix, rest, r.result.Success?);
  }

  /**
   * A custom property that fails its cast or its scene call, or a scene
   * that was never attached, fails the read before any store call (setBodies,
   * joint init, joint decoding, setJoints). Custom-property calls made by
   * earlier records stay in the trace.
   */
  lemma WorldReadAborts(doc: Doc, wd: WorldDefaults, bd: BodyDef, scene: Option<SceneRef>, id0: nat, decode: JointDecoder)
    requires scene.None? || exists k | 0 <= k < |BodyRecords(doc)| :: !RecordAccepted(scene, BodyRecords(doc)[k])
    ensures var r := WorldSpec(doc, wd, bd, scene, id0, decode);
            r.result.Failure? && forall e | e in r.events :: Stage(e) <= 1
    ensures WorldSpec(doc, wd, bd, scene, id0, decode).events ==
            SetupCalls(WorldRef(id0), doc, wd) + BodyListPass(WorldRef(id0), scene, doc, bd).events
  {
    var w := WorldRef(id0);
    var pass, rest := WorldShape(doc, wd, bd, scene, id0, decode);
    EarlyCalls(w, doc, wd, scene, bd);
    BodyListCompletes(w, scene, doc, bd);
    assert rest == [];
    assert WorldSpec(doc, wd, bd, scene, id0, decode).events == SetupCalls(w, doc, wd) + pass.events;
  }

  /** Calls past the body phase are the store calls, so the store calls' setJoints and last call are the read's. */
  lemma LateCalls(es: seq<Event>, prefix: seq<Event>, rest: seq<Event>, ok: bool)
    requires es == prefix + rest
    requires forall e | e in prefix :: Stage(e) <= 1
    requires ok <==> exists e | e in rest :: e.JointsSet?
    requires ok ==> |rest| > 0 && rest[|rest| - 1].JointsSet?
    requires forall i | 0 <= i < |rest| - 1 :: !rest[i].JointsSet?
    ensures ok <==> exists e | e in es :: e.JointsSet?
    ensures ok ==> es[|es| - 1].JointsSet?
    ensures forall i | 0 <= i < |es| - 1 :: !es[i].JointsSet?
  {
    if e :| e in es && e.JointsSet? {
      assert e !in prefix;
    }
    forall i | 0 <= i < |es| - 1 ensures !es[i].JointsSet? {
      if i < |prefix| {
        assert es[i] == prefix[i] && prefix[i] in prefix;
      } else {
        assert es[i] == rest[i - |prefix|];
      }
    }
  }

  lemma ScenePhaseEnds(s: SceneRef, w: WorldRef, bodies: Option<seq<BodyRef>>, doc: Doc, decode: JointDecoder)
    ensures var r := ScenePhase(s, w, bodies, doc, decode);
            && (r.result.Success? <==> exists e | e in r.events :: e.JointsSet?)
            && (r.result.Success? ==> r.events[|r.events| - 1].JointsSet?)
            && forall i | 0 <= i < |r.events| - 1 :: !r.events[i].JointsSet?
  {
    var ctx1 := JointContext(Some(w), bodies, None);
    var one := JointPass(FindRecords(doc, JointArray), ctx1, decode);
    var es := ScenePhase(s, w, bodies, doc, decode).events;
    if one.joints.Failure? {
      assert es == [BodiesSet(s, bodies), JointsInitialised(ctx1)] + one.events;
      assert forall e | e in es :: !e.JointsSet?;
      assert forall i | 0 <= i < |es| :: es[i] in es;
    } else {
      var ctx2 := JointContext(Some(w), bodies, one.joints.value);
      var two := JointPass(FindRecords(doc, JointArray), ctx2, decode);
      var upToTwo := [BodiesSet(s, bodies), JointsInitialised(ctx1)] + one.events + [JointsInitialised(ctx2)] + two.events;
      assert forall e | e in upToTwo :: !e.JointsSet?;
      if two.joints.Failure? {
        assert es == upToTwo;
        assert forall i | 0 <= i < |es| :: es[i] in es;
      } else {
        assert es == upToTwo + [JointsSet(s, two.joints.value)];
        assert es[|es| - 1] in es;
        assert forall i | 0 <= i < |es| - 1 :: es[i] == upToTwo[i] && upToTwo[i] in upToTwo;
      }
    }
  }

  // ---------------------------------------------------------------------
  // The assembler object

  class WorldSerializer {
    /** The scene the bodies and joints are stored in; null until attached. */
    var scene: Option<SceneRef>
    /** The body decoder, which shares this assembler's engine and scene. */
    const bodySerializer: BodySerializer
    /** The engine, the scene and the joint decoder this assembler calls. */
    const host: Host
    /** RubeDefaults.World: the value of each absent world field. */
    const defaults: WorldDefaults

    predicate Valid() {
      bodySerializer.host == host
    }

    constructor (host: Host, worldDefaults: WorldDefaults, bodyDefaults: BodyDef)
      ensures Valid() && fresh(bodySerializer)
      ensures scene == None && this.host == host && defaults == worldDefaults
      ensures bodySerializer.world == None && bodySerializer.scene == None && bodySerializer.defaults == bodyDefaults
    {
      scene := None;
      bodySerializer := new BodySerializer(host, bodyDefaults);
      this.host := host;
      defaults := worldDefaults;
    }

    method SetScene(s: Option<SceneRef>)
      modifies this`scene
      ensures scene == s
    {
      scene := s;
    }

    /** Builds the world of `doc`; the calls it makes are those of WorldSpec. */
    method Read(doc: Doc) returns (result: Result<WorldRef, Fault>)
      requires Valid()
      modifies bodySerializer`world, bodySerializer`scene, bodySerializer`def
      modifies host`trace, host`nextId, host`fixtureBody, host`jointContext
      ensures var spec := WorldSpec(doc, defaults, bodySerializer.defaults, scene, old(host.nextId), host.decodeJoints);
              host.trace == old(host.trace) + spec.events && result == spec.result
      ensures bodySerializer.world == Some(WorldRef(old(host.nextId))) && bodySerializer.scene == scene
      ensures var spec := WorldSpec(doc, defaults, bodySerializer.defaults, scene, old(host.nextId), host.decodeJoints);
              host.nextId == old(host.nextId) + 1 + |CreatedBodies(spec.events)|
      ensures var pass := BodyListPass(WorldRef(old(host.nextId)), scene, doc, bodySerializer.defaults);
              && host.fixtureBody == (if pass.bodies == [] then old(host.fixtureBody) else Some(pass.bodies[|pass.bodies| - 1]))
              && bodySerializer.def == (if RecordsRead(pass) == 0 then old(bodySerializer.def)
                                        else DefinitionOf(BodyRecords(doc)[RecordsRead(pass) - 1], bodySerializer.defaults))
              && host.jointContext == (if pass.fault.None? && scene.Some?
                                       then ContextAfterScene(WorldRef(old(host.nextId)), SceneBodies(doc, pass), doc, host.decodeJoints)
                                       else old(host.jointContext))
    {
      ghost var t0 := host.trace;
      var world := CreateConfiguredWorld(doc);
      bodySerializer.SetWorld(Some(world));
      bodySerializer.SetScene(scene);
      ghost var t1 := host.trace;
      result := Populate(doc, world);
      AppendAssoc(t0, SetupCalls(world, doc, defaults), AfterSetup(world, scene, doc, bodySerializer.defaults, host.decodeJoints).events);
      WorldCreates(doc, defaults, bodySerializer.defaults, scene, world.id, host.decodeJoints);
    }

    /** The world constructor and the three flag setters, each value from the document or the defaults. */
    method CreateConfiguredWorld(doc: Doc) returns (world: WorldRef)
      modifies host`trace, host`nextId
      ensures world == WorldRef(old(host.nextId)) && host.nextId == old(host.nextId) + 1
      ensures host.trace == old(host.trace) + SetupCalls(world, doc, defaults)
    {
      var allowSleep := ReadBool(doc, AllowSleep, defaults.allowSleep);
      var autoClearForces := ReadBool(doc, AutoClearForces, defaults.autoClearForces);
      var continuousPhysics := ReadBool(doc, ContinuousPhysics, defaults.continuousPhysics);
      var warmStarting := ReadBool(doc, WarmStarting, defaults.warmStarting);
      var gravity := ReadVec(doc, Gravity, defaults.gravity);

      world := host.CreateWorld(gravity, allowSleep);
      host.SetAutoClearForces(world, autoClearForces);
      host.SetContinuousPhysics(world, continuousPhysics);
      host.SetWarmStarting(world, warmStarting);
    }

    /** Everything after the world's configuration: the body list, then the scene's bodies and joints. */
    method Populate(doc: Doc, world: WorldRef) returns (result: Result<WorldRef, Fault>)
      requires Valid() && bodySerializer.world == Some(world) && bodySerializer.scene == scene && host.nextId == world.id + 1
      modifies bodySerializer`def, host`trace, host`nextId, host`fixtureBody, host`jointContext
      ensures var after := AfterSetup(world, scene, doc, bodySerializer.defaults, host.decodeJoints);
              host.trace == old(host.trace) + after.events && result == after.result
      ensures var pass := BodyListPass(world, scene, doc, bodySerializer.defaults);
              && host.nextId == old(host.nextId) + RecordsRead(pass)
              && host.fixtureBody == (if pass.bodies == [] then old(host.fixtureBody) else Some(pass.bodies[|pass.bodies| - 1]))
              && bodySerializer.def == (if RecordsRead(pass) == 0 then old(bodySerializer.def)
                                        else DefinitionOf(BodyRecords(doc)[RecordsRead(pass) - 1], bodySerializer.defaults))
              && host.jointContext == (if pass.fault.None? && scene.Some?
                                       then ContextAfterScene(world, SceneBodies(doc, pass), doc, host.decodeJoints)
                                       else old(host.jointContext))
    {
      ghost var t0 := host.trace;
      ghost var pass := BodyListPass(world, scene, doc, bodySerializer.defaults);
      var bodies, fault := ReadBodies(doc, world, scene);
      if fault.Some? {
        return Failure(fault.value);
      }
      if scene.None? {
        return Failure(NullScene);
      }
      ghost var t1 := host.trace;
      result := StoreBodiesAndJoints(scene.value, world, bodies, doc);
      AppendAssoc(t0, pass.events, ScenePhase(scene.value, world, bodies, doc, host.decodeJoints).events);
    }

    /** Decodes the `body` list with the body decoder, stopping at the first exception. */
    method ReadBodies(doc: Doc, ghost w: WorldRef, ghost sc: Option<SceneRef>) returns (bodies: Option<seq<BodyRef>>, fault: Option<Fault>)
      requires Valid() && bodySerializer.world == Some(w) && bodySerializer.scene == sc && host.nextId == w.id + 1
      modifies bodySerializer`def, host`trace, host`nextId, host`fixtureBody
      ensures var pass := BodyListPass(w, sc, doc, bodySerializer.defaults);
              && host.trace == old(host.trace) + pass.events && fault == pass.fault
              && (fault.None? ==> bodies == SceneBodies(doc, pass))
              && host.nextId == old(host.nextId) + RecordsRead(pass)
              && host.fixtureBody == (if pass.bodies == [] then old(host.fixtureBody) else Some(pass.bodies[|pass.bodies| - 1]))
              && bodySerializer.def == (if RecordsRead(pass) == 0 then old(bodySerializer.def)
                                        else DefinitionOf(BodyRecords(doc)[RecordsRead(pass) - 1], bodySerializer.defaults))
    {
      var records := FindRecords(doc, BodyArray);
      if records.None? {
        assert BodyRecords(doc) == [];
        return None, None;
      }
      assert BodyRecords(doc) == records.value;
      var list, fault' := ReadBodyRecords(records.value, w, sc);
      return Some(list), fault';
    }

    /** The body array loop: each record in turn, until one throws. */
    method ReadBodyRecords(recs: seq<Doc>, ghost w: WorldRef, ghost sc: Option<SceneRef>) returns (list: seq<BodyRef>, fault: Option<Fault>)
      requires Valid() && bodySerializer.world == Some(w) && bodySerializer.scene == sc
      modifies bodySerializer`def, host`trace, host`nextId, host`fixtureBody
      ensures var pass := BodiesPass(BodySteps(w, sc, recs, bodySerializer.defaults, old(host.nextId)), old(host.nextId));
              && host.trace == old(host.trace) + pass.events && fault == pass.fault
              && (fault.None? ==> list == pass.bodies)
              && host.nextId == old(host.nextId) + RecordsRead(pass)
              && host.fixtureBody == (if pass.bodies == [] then old(host.fixtureBody) else Some(pass.bodies[|pass.bodies| - 1]))
              && bodySerializer.def == (if RecordsRead(pass) == 0 then old(bodySerializer.def)
                                        else DefinitionOf(recs[RecordsRead(pass) - 1], bodySerializer.defaults))
    {
      ghost var bd, first, t0 := bodySerializer.defaults, host.nextId, host.trace;
      ghost var steps := BodySteps(w, sc, recs, bd, first);
      list := [];
      var i := 0;
      ghost var pass := BodiesPass(steps[..0], first);
      while i < |recs|
        invariant 0 <= i <= |recs|
        invariant pass == BodiesPass(steps[..i], first) && pass.fault.None?
        invariant host.trace == t0 + pass.events && list == pass.bodies
        invariant host.nextId == first + i
        invariant bodySerializer.world == Some(w) && bodySerializer.scene == sc
        invariant host.fixtureBody == if i == 0 then old(host.fixtureBody) else Some(list[i - 1])
        invariant bodySerializer.def == if i == 0 then old(bodySerializer.def) else DefinitionOf(recs[i - 1], bd)
      {
        var outcome := ReadNext(recs, i, w, sc, first, t0);
        if outcome.Threw? {
          BodiesPassStops(steps, first, i + 1);
          return list, Some(outcome.fault);
        }
        list := list + [outcome.body];
        i := i + 1;
        pass := BodiesPass(steps[..i], first);
      }
      assert steps[..i] == steps;
      return list, None;
    }

    /** One turn of the body array loop: record i is read, which extends the list or ends it. */
    method ReadNext(recs: seq<Doc>, i: nat, ghost w: WorldRef, ghost sc: Option<SceneRef>, ghost first: nat, ghost t0: seq<Event>)
      returns (outcome: BodyOutcome)
      requires Valid() && bodySerializer.world == Some(w) && bodySerializer.scene == sc
      requires i < |recs| && host.nextId == first + i
      requires var prior := BodiesPass(BodySteps(w, sc, recs, bodySerializer.defaults, first)[..i], first);
               prior.fault.None? && host.trace == t0 + prior.events
      modifies bodySerializer`def, host`trace, host`nextId, host`fixtureBody
      ensures host.fixtureBody == if outcome.Built? then Some(outcome.body) else old(host.fixtureBody)
      ensures bodySerializer.def == DefinitionOf(recs[i], bodySerializer.defaults)
      ensures var steps := BodySteps(w, sc, recs, bodySerializer.defaults, first);
              var next := BodiesPass(steps[..i + 1], first);
              && host.trace == t0 + next.events && host.nextId == first + i + 1
              && (outcome.Threw? ==> next.fault == Some(outcome.fault) && next.bodies == BodiesPass(steps[..i], first).bodies)
              && (outcome.Threw? || outcome == Built(BodyRef(first + i)))
              && (outcome.Built? ==> next.fault == None && next.bodies == BodiesPass(steps[..i], first).bodies + [outcome.body])
    {
      ghost var steps := BodySteps(w, sc, recs, bodySerializer.defaults, first);
      ghost var prior := BodiesPass(steps[..i], first);
      assert steps[i] == BodySpec(Some(w), sc, recs[i], bodySerializer.defaults, BodyRef(first + i));
      outcome := ReadStep(recs[i], w, sc, steps[i]);
      BodiesPassNext(steps, i, first);
      AppendAssoc(t0, prior.events, steps[i].events);
    }

    /** The body decoder's read of one record, whose calls and outcome `step` gives. */
    method ReadStep(rec: Doc, ghost w: WorldRef, ghost sc: Option<SceneRef>, ghost step: BodyStep) returns (outcome: BodyOutcome)
      requires Valid() && bodySerializer.world == Some(w) && bodySerializer.scene == sc
      requires step == BodySpec(Some(w), sc, rec, bodySerializer.defaults, BodyRef(host.nextId))
      modifies bodySerializer`def, host`trace, host`nextId, host`fixtureBody
      ensures host.trace == old(host.trace) + step.events && outcome == step.outcome
      ensures outcome.Threw? || outcome == Built(BodyRef(old(host.nextId)))
      ensures host.nextId == old(host.nextId) + 1
      ensures host.fixtureBody == if outcome.Built? then Some(outcome.body) else old(host.fixtureBody)
      ensures bodySerializer.def == DefinitionOf(rec, bodySerializer.defaults)
    {
      outcome := bodySerializer.Read(rec);
    }

    /** setBodies, then the two joint passes, then setJoints with pass two's joints. */
    method StoreBodiesAndJoints(s: SceneRef, w: WorldRef, bodies: Option<seq<BodyRef>>, doc: Doc) returns (result: Result<WorldRef, Fault>)
      modifies host`trace, host`jointContext
      ensures var spec := ScenePhase(s, w, bodies, doc, host.decodeJoints);
              host.trace == old(host.trace) + spec.events && result == spec.result
      ensures host.jointContext == ContextAfterScene(w, bodies, doc, host.decodeJoints)
    {
      ghost var t0, records := host.trace, FindRecords(doc, JointArray);
      ghost var ctx1 := JointContext(Some(w), bodies, None);
      ghost var head := [BodiesSet(s, bodies), JointsInitialised(ctx1)] + JointPass(records, ctx1, host.decodeJoints).events;
      host.SetBodies(s, bodies);
      host.InitJoints(JointContext(Some(w), bodies, None));
      var joints := ReadJointList(doc);
      assert host.trace == t0 + head;
      if joints.Failure? {
        return Failure(joints.error);
      }
      ghost var ctx2 := JointContext(Some(w), bodies, joints.value);
      host.InitJoints(JointContext(Some(w), bodies, joints.value));
      joints := ReadJointList(doc);
      assert host.trace == t0 + (head + [JointsInitialised(ctx2)] + JointPass(records, ctx2, host.decodeJoints).events);
      if joints.Failure? {
        return Failure(joints.error);
      }
      host.SetJoints(s, joints.value);
      return Success(w);
    }

    /** One read of the `joint` list in the joint decoder's current context. */
    method ReadJointList(doc: Doc) returns (joints: Result<Option<JointList>, Fault>)
      modifies host`trace
      ensures var spec := JointPass(FindRecords(doc, JointArray), host.jointContext, host.decodeJoints);
              host.trace == old(host.trace) + spec.events && joints == spec.joints
    {
      var records := FindRecords(doc, JointArray);
      if records.None? {
        return Success(None);
      }
      var decoded := host.ReadJoints(records.value);
      if decoded.Failure? {
        return Failure(decoded.error);
      }
      return Success(Some(decoded.value));
    }
  }
}
