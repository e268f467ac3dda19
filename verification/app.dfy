/**
  The `App` component's session: one record holding everything the handlers
  and timer callbacks read and write, one pure step function per handler and
  per callback, and the queue of timeouts armed but not yet fired. Nothing ever
  removes a timeout from the queue except its own firing.
*/
module App {
  import opened Timers
  import opened Stages
  import opened Reactions
  import Layers
  import Elements

  datatype Animations = Animations(pain: bool, death: bool, drowning: bool)

  const NoAnimations: Animations := Animations(false, false, false)

  datatype Session = Session(
    layers: seq<Layers.Layer>,
    elements: seq<Elements.Element>,
    anims: Animations,
    reactions: seq<Reaction>,
    isDead: bool,
    stage: nat,        // 0 before the first stage callback, k once stage k was reached
    progress: real,    // percent
    pending: seq<Timer>)

  const Initial: Session :=
    Session(Layers.InitialLayers, Elements.InitialElements, NoAnimations, [], false, 0, 0.0, [])

  /** Delays, in milliseconds, of the timeouts other than the stage callbacks. */
  const DrowningLinger: nat := 1000
  const AutoStartDelay: nat := 1500
  const PainDuration: nat := 1000
  const DeathDuration: nat := 3000

  /** Progress once `k` of the N stages were reached, in percent. */
  function Progress(k: nat): real
  {
    (k as real / StageCount as real) * 100.0
  }

  lemma ProgressEnds()
    ensures Progress(0) == 0.0
    ensures Progress(StageCount) == 100.0
    ensures forall k :: 0 <= k < StageCount ==> Progress(k) < Progress(k + 1)
  {
  }

  /** Everything the session holds except the sequencer fields and the queue. */
  predicate SameScene(s: Session, r: Session)
  {
    r.layers == s.layers && r.elements == s.elements && r.reactions == s.reactions
  }

  // ---------------------------------------------------------------- sequencer

  /**
    `startDrowningSequence`: marks the sequence running, rewinds stage and
    progress, and arms all five stage callbacks at once at their cumulative
    offsets.
  */
  function StartDrowningSequence(s: Session, now: int): (r: Session)
    ensures r.anims == s.anims.(drowning := true)
    ensures r.stage == 0 && r.progress == 0.0
    ensures r.isDead == s.isDead && SameScene(s, r)
    ensures |r.pending| == |s.pending| + StageCount
    ensures r.pending[..|s.pending|] == s.pending
    ensures r.pending[|s.pending|..] ==
              [Timer(now, StageReached(0)), Timer(now + 600000, StageReached(1)),
               Timer(now + 1320000, StageReached(2)), Timer(now + 1920000, StageReached(3)),
               Timer(now + 2400000, StageReached(4))]
  {
    DrowningSchedule(now);
    var q := s.pending + StageTimers(Durations(DrowningStages), now);
    assert q[..|s.pending|] == s.pending && q[|s.pending|..] == StageTimers(Durations(DrowningStages), now);
    s.(anims := s.anims.(drowning := true), stage := 0, progress := 0.0, pending := q)
  }

  /**
    Stage callback `i` (0-based): stage i + 1 is reached. The last one also
    marks the subject dead and arms the clearing of `drowning`.
  */
  function StageCallback(s: Session, i: nat, now: int): (r: Session)
    ensures r.stage == i + 1 && r.progress == Progress(i + 1)
    ensures r.isDead <==> s.isDead || i == StageCount - 1
    ensures i == StageCount - 1 ==> r.pending == s.pending + [Timer(now + DrowningLinger, DrowningOver)]
    ensures i != StageCount - 1 ==> r.pending == s.pending
    ensures r.anims == s.anims && SameScene(s, r)
  {
    var r := s.(stage := i + 1, progress := Progress(i + 1));
    if i == StageCount - 1 then
      r.(isDead := true, pending := Arm(r.pending, now, DrowningLinger, DrowningOver))
    else r
  }

  // ---------------------------------------------------------------- handlers

  /** `toggleClothing`: first phase now, and the commit armed 500 ms later in every case. */
  function ToggleClothing(s: Session, id: string, now: int): (r: Session)
    ensures Layers.SameIds(s.layers, r.layers)
    ensures forall i :: 0 <= i < |s.layers| && s.layers[i].id != id ==> r.layers[i] == s.layers[i]
    ensures forall i :: 0 <= i < |s.layers| && s.layers[i].id == id ==>
              r.layers[i].visible && (r.layers[i].removing <==> s.layers[i].visible)
    ensures r.pending == s.pending + [Timer(now + Layers.CommitDelay, CommitHide(id))]
    ensures r.elements == s.elements && r.reactions == s.reactions && r.anims == s.anims
    ensures r.isDead == s.isDead && r.stage == s.stage && r.progress == s.progress
  {
    s.(layers := Layers.Toggle(s.layers, id), pending := Arm(s.pending, now, Layers.CommitDelay, CommitHide(id)))
  }

  /**
    The condition under which `toggleElement` arms the auto start, read from
    the state before the toggle: the id is water, the first water channel was
    off, `drowning` is false and the subject is alive. A start may already be
    armed: `drowning` only becomes true when it fires.
  */
  predicate ArmsAutoStart(s: Session, id: string)
  {
    var k := Elements.FindIndex(s.elements, "water");
    id == "water" && k >= 0 && !s.elements[k].active && !s.anims.drowning && !s.isDead
  }

  /** `toggleElement`: flips and empties the named channel, and may arm the auto start. */
  function ToggleElement(s: Session, id: string, now: int): (r: Session)
    ensures |r.elements| == |s.elements|
    ensures forall i :: 0 <= i < |s.elements| && s.elements[i].id != id ==> r.elements[i] == s.elements[i]
    ensures forall i :: 0 <= i < |s.elements| && s.elements[i].id == id ==>
              r.elements[i].id == id && r.elements[i].name == s.elements[i].name &&
              r.elements[i].active == !s.elements[i].active && r.elements[i].particles == []
    ensures |r.pending| > |s.pending| <==> ArmsAutoStart(s, id)
    ensures ArmsAutoStart(s, id) ==> r.pending == s.pending + [Timer(now + AutoStartDelay, StartSequence)]
    ensures !ArmsAutoStart(s, id) ==> r.pending == s.pending
    ensures r.layers == s.layers && r.reactions == s.reactions && r.anims == s.anims
    ensures r.isDead == s.isDead && r.stage == s.stage && r.progress == s.progress
  {
    var es := Elements.Toggle(s.elements, id);
    if ArmsAutoStart(s, id) then
      s.(elements := es, pending := Arm(s.pending, now, AutoStartDelay, StartSequence))
    else s.(elements := es)
  }

  /**
    `handleFigureClick`: ignored while dead; otherwise appends one reaction
    at the click position relative to the figure's box, classified by region.
  */
  function Click(s: Session, clientX: real, clientY: real, box: Rect, now: int, rand: real): (r: Session)
    ensures s.isDead ==> r == s
    ensures !s.isDead ==> r == s.(reactions := r.reactions)
    ensures !s.isDead ==> |r.reactions| == |s.reactions| + 1 && r.reactions[..|s.reactions|] == s.reactions
    ensures !s.isDead ==>
              var n := r.reactions[|s.reactions|];
              && n.x == clientX - box.left && n.y == clientY - box.top
              && n.id == now && n.timestamp == now
              && (InChest(n.x, n.y, box.width, box.height) ==> n.kind in {Blush, Pleasure})
              && (!InChest(n.x, n.y, box.width, box.height) && InFace(n.y, box.height) ==> n.kind == Shock)
              && (!InChest(n.x, n.y, box.width, box.height) && !InFace(n.y, box.height) ==> n.kind in {Blush, Heart})
  {
    if s.isDead then s
    else
      var x := clientX - box.left;
      var y := clientY - box.top;
      var n := Reaction(now, x, y, Classify(x, y, box.width, box.height, rand), now);
      assert (s.reactions + [n])[..|s.reactions|] == s.reactions;
      s.(reactions := s.reactions + [n])
  }

  /**
    `triggerAnimation`: the drowning button starts the sequence; pain and
    death raise their flag for 1000 ms and 3000 ms, and death also marks the
    subject dead.
  */
  function TriggerAnimation(s: Session, kind: AnimKind, now: int): (r: Session)
    ensures kind == Drowning ==> r == StartDrowningSequence(s, now)
    ensures kind == Pain ==>
              r == s.(anims := s.anims.(pain := true), pending := s.pending + [Timer(now + PainDuration, AnimationOver(Pain))])
    ensures kind == Death ==>
              r.anims == s.anims.(death := true) && r.isDead &&
              r.pending == s.pending + [Timer(now + DeathDuration, AnimationOver(Death))]
    ensures kind != Drowning ==> SameScene(s, r) && r.stage == s.stage && r.progress == s.progress
  {
    match kind
    case Drowning => StartDrowningSequence(s, now)
    case Pain => s.(anims := s.anims.(pain := true), pending := Arm(s.pending, now, PainDuration, AnimationOver(Pain)))
    case Death =>
      s.(anims := s.anims.(death := true), isDead := true,
         pending := Arm(s.pending, now, DeathDuration, AnimationOver(Death)))
  }

  /** `respawn`: alive again, sequencer rewound, reactions gone; armed timeouts stay armed. */
  function Respawn(s: Session): (r: Session)
    ensures !r.isDead && r.stage == 0 && r.progress == 0.0
    ensures r.anims == NoAnimations && r.reactions == []
    ensures r.layers == s.layers && r.elements == s.elements && r.pending == s.pending
  {
    s.(isDead := false, stage := 0, progress := 0.0, anims := NoAnimations, reactions := [])
  }

  /** `resetAll`: `respawn`'s effect plus every layer shown and every channel off and empty. */
  function ResetAll(s: Session): (r: Session)
    ensures !r.isDead && r.stage == 0 && r.progress == 0.0
    ensures r.anims == NoAnimations && r.reactions == []
    ensures Layers.SameIds(s.layers, r.layers)
    ensures forall i :: 0 <= i < |r.layers| ==> r.layers[i].visible && !r.layers[i].removing
    ensures |r.elements| == |s.elements|
    ensures forall i :: 0 <= i < |r.elements| ==>
              r.elements[i].id == s.elements[i].id && r.elements[i].name == s.elements[i].name &&
              !r.elements[i].active && r.elements[i].particles == []
    ensures r.pending == s.pending
  {
    s.(layers := Layers.ShowAll(s.layers), elements := Elements.DeactivateAll(s.elements),
       anims := NoAnimations, reactions := [], isDead := false, stage := 0, progress := 0.0)
  }

  /** Resetting twice is resetting once, and `resetAll` subsumes `respawn`. */
  lemma ResetsAreIdempotent(s: Session)
    ensures Respawn(Respawn(s)) == Respawn(s)
    ensures ResetAll(ResetAll(s)) == ResetAll(s)
    ensures ResetAll(Respawn(s)) == ResetAll(s)
  {
  }

  /** The 500 ms particle interval; `batches[i]` is channel i's random input. */
  function ParticleTick(s: Session, now: int, batches: seq<Elements.Batch>): (r: Session)
    requires |batches| == |s.elements|
    ensures |r.elements| == |s.elements|
    ensures forall i :: 0 <= i < |s.elements| && !s.elements[i].active ==> r.elements[i] == s.elements[i]
    ensures forall i :: 0 <= i < |s.elements| && s.elements[i].active ==>
              |r.elements[i].particles| == Elements.Min(|s.elements[i].particles|, Elements.Retained) + Elements.PerTick
    ensures forall i :: 0 <= i < |s.elements| && s.elements[i].active ==>
              |r.elements[i].particles| <= Elements.MaxParticles
    ensures forall i :: 0 <= i < |s.elements| ==>
              r.elements[i] == Elements.TickElement(s.elements[i], now, batches[i])
    ensures forall i :: 0 <= i < |s.elements| && s.elements[i].active ==>
              var ps := r.elements[i].particles;
              && |ps| >= Elements.PerTick
              && Elements.IsSuffix(ps[..|ps| - Elements.PerTick], s.elements[i].particles)
              && ps[|ps| - Elements.PerTick..] == Elements.NewParticles(now, batches[i])
    ensures Elements.Bounded(s.elements) ==> Elements.Bounded(r.elements)
    ensures r == s.(elements := r.elements)
  {
    Elements.TickBounds(s.elements, now, batches);
    s.(elements := Elements.Tick(s.elements, now, batches))
  }

  /** The 100 ms reaction cleanup. */
  function CleanupTick(s: Session, now: int): (r: Session)
    ensures forall i :: 0 <= i < |r.reactions| ==> Live(r.reactions[i], now)
    ensures forall x :: multiset(r.reactions)[x] == if Live(x, now) then multiset(s.reactions)[x] else 0
    ensures IsSubsequence(r.reactions, s.reactions)
    ensures r == s.(reactions := r.reactions)
  {
    CleanupKeepsExactlyLive(s.reactions, now);
    CleanupIsSubsequence(s.reactions, now);
    s.(reactions := Cleanup(s.reactions, now))
  }

  // ---------------------------------------------------------------- timeouts

  /**
    What a fired timeout does, at its deadline `now`. Every action only
    appends to the queue, and each touches only the fields its callback sets.
  */
  function Apply(s: Session, a: Action, now: int): (r: Session)
    ensures |r.pending| >= |s.pending| && r.pending[..|s.pending|] == s.pending
    ensures a.StageReached? ==> r == StageCallback(s, a.index, now)
    ensures a.DrowningOver? ==>
              !r.anims.drowning && r.anims.pain == s.anims.pain && r.anims.death == s.anims.death &&
              r == s.(anims := r.anims)
    ensures a.CommitHide? ==> r == s.(layers := r.layers) && Layers.SameIds(s.layers, r.layers)
    ensures a.CommitHide? ==>
              forall i :: 0 <= i < |s.layers| ==>
                if s.layers[i].id == a.layerId && s.layers[i].removing
                then !r.layers[i].visible && !r.layers[i].removing
                else r.layers[i] == s.layers[i]
    ensures a.StartSequence? ==> r == StartDrowningSequence(s, now)
    ensures a.AnimationOver? ==>
              && r == s.(anims := r.anims)
              && r.anims.pain == (s.anims.pain && a.kind != Pain)
              && r.anims.death == (s.anims.death && a.kind != Death)
              && r.anims.drowning == (s.anims.drowning && a.kind != Drowning)
  {
    match a
    case StageReached(i) => StageCallback(s, i, now)
    case DrowningOver => s.(anims := s.anims.(drowning := false))
    case CommitHide(id) => s.(layers := Layers.CommitHide(s.layers, id))
    case StartSequence => StartDrowningSequence(s, now)
    case AnimationOver(k) =>
      match k
      case Pain => s.(anims := s.anims.(pain := false))
      case Death => s.(anims := s.anims.(death := false))
      // Never armed by `TriggerAnimation`; kept so the match is total.
      case Drowning => s.(anims := s.anims.(drowning := false))
  }

  /**
    Fires the `i`-th armed timeout: it leaves the queue, the timeouts armed
    before and after it keep their order, and its action runs at its deadline.
  */
  function Fire(s: Session, i: nat): (r: Session)
    requires i < |s.pending|
    ensures |r.pending| >= |s.pending| - 1
    ensures forall j :: 0 <= j < i ==> r.pending[j] == s.pending[j]
    ensures forall j :: i < j < |s.pending| ==> r.pending[j - 1] == s.pending[j]
    ensures r == Apply(s.(pending := RemoveAt(s.pending, i)), s.pending[i].action, s.pending[i].fireAt)
  {
    Apply(s.(pending := RemoveAt(s.pending, i)), s.pending[i].action, s.pending[i].fireAt)
  }

  /** Fires the timeout due first (see `AdvanceFiresEarliest`); exactly one timeout leaves the queue. */
  function Advance(s: Session): (r: Session)
    requires |s.pending| > 0
    ensures |r.pending| >= |s.pending| - 1
  {
    Fire(s, Earliest(s.pending))
  }

  /**
    The order in which timeouts fire: advancing fires a timeout whose deadline
    no armed deadline undercuts, and every timeout armed before it has a
    strictly later deadline, so ties go to the one armed first.
  */
  lemma AdvanceFiresEarliest(s: Session)
    requires |s.pending| > 0
    ensures exists k :: DueFirst(s.pending, k) && Advance(s) == Fire(s, k)
  {
    var k := Earliest(s.pending);
    assert DueFirst(s.pending, k);
  }

  /** Fires up to `n` timeouts in deadline order, stopping early when none is armed. */
  function Run(s: Session, n: nat): Session
    decreases n
  {
    if n == 0 || |s.pending| == 0 then s else Run(Advance(s), n - 1)
  }

  // ---------------------------------------------------------------- events

  datatype Event =
    | ClothingToggled(layerId: string, at: int)
    | ElementToggled(elementId: string, at: int)
    | FigureClicked(clientX: real, clientY: real, box: Rect, at: int, rand: real)
    | AnimationTriggered(kind: AnimKind, at: int)
    | Respawned
    | AllReset
    | ParticleInterval(at: int, batches: seq<Elements.Batch>)
    | CleanupInterval(at: int)
    | TimerFired(index: nat)

  /** Events that can happen: the random input covers every channel, and a fired timeout was armed. */
  predicate Allowed(s: Session, e: Event)
  {
    match e
    case ParticleInterval(_, batches) => |batches| == |s.elements|
    case TimerFired(i) => i < |s.pending|
    case _ => true
  }

  function Step(s: Session, e: Event): Session
    requires Allowed(s, e)
  {
    match e
    case ClothingToggled(id, at) => ToggleClothing(s, id, at)
    case ElementToggled(id, at) => ToggleElement(s, id, at)
    case FigureClicked(cx, cy, box, at, rand) => Click(s, cx, cy, box, at, rand)
    case AnimationTriggered(kind, at) => TriggerAnimation(s, kind, at)
    case Respawned => Respawn(s)
    case AllReset => ResetAll(s)
    case ParticleInterval(at, batches) => ParticleTick(s, at, batches)
    case CleanupInterval(at) => CleanupTick(s, at)
    case TimerFired(i) => Fire(s, i)
  }

  // ---------------------------------------------------------------- invariant

  /** Every armed stage callback names one of the N stages. */
  predicate StageTimersInRange(q: seq<Timer>)
  {
    forall t :: t in q && t.action.StageReached? ==> t.action.index < StageCount
  }

  /**
    What holds in every reachable session: a layer being removed is still
    shown, no channel holds more than 23 particles, the stage is within the
    table and the progress matches it, and every armed stage callback is in
    range.
  */
  predicate Inv(s: Session)
  {
    && Layers.AllConsistent(s.layers)
    && Elements.Bounded(s.elements)
    && s.stage <= StageCount
    && s.progress == Progress(s.stage)
    && StageTimersInRange(s.pending)
  }

  /** The session the component mounts with. */
  lemma InitialInv()
    ensures Inv(Initial)
  {
  }

  /** Every timeout action keeps the invariant, given its stage index is in range. */
  lemma ApplyPreservesInv(s: Session, a: Action, now: int)
    requires Inv(s)
    requires a.StageReached? ==> a.index < StageCount
    ensures Inv(Apply(s, a, now))
  {
    match a
    case StageReached(i) =>
    case DrowningOver =>
    case CommitHide(id) =>
      Layers.TogglePreservesConsistency(s.layers, id);
    case StartSequence =>
      var r := StartDrowningSequence(s, now);
      forall t | t in r.pending && t.action.StageReached?
        ensures t.action.index < StageCount
      {
        var j :| 0 <= j < |r.pending| && r.pending[j] == t;
        if j < |s.pending| {
          assert r.pending[..|s.pending|][j] == t;
        } else {
          assert r.pending[|s.pending|..][j - |s.pending|] == t;
        }
      }
    case AnimationOver(k) =>
  }

  /** Firing any armed timeout keeps the invariant. */
  lemma FirePreservesInv(s: Session, i: nat)
    requires Inv(s) && i < |s.pending|
    ensures Inv(Fire(s, i))
  {
    var s' := s.(pending := RemoveAt(s.pending, i));
    forall t | t in s'.pending && t.action.StageReached?
      ensures t.action.index < StageCount
    {
      RemoveAtSubset(s.pending, i, t);
    }
    assert s.pending[i] in s.pending;
    ApplyPreservesInv(s', s.pending[i].action, s.pending[i].fireAt);
  }

  /** Every handler, interval and timeout keeps the invariant. */
  lemma StepPreservesInv(s: Session, e: Event)
    requires Inv(s) && Allowed(s, e)
    ensures Inv(Step(s, e))
  {
    if e.TimerFired? {
      FirePreservesInv(s, e.index);
    }
  }

  // ---------------------------------------------------------------- runs

  /** When no deadline is earlier than the head's, advancing fires the head. */
  lemma AdvanceFiresHead(s: Session)
    requires |s.pending| > 0
    requires forall k :: 0 <= k < |s.pending| ==> s.pending[0].fireAt <= s.pending[k].fireAt
    ensures Advance(s) == Apply(s.(pending := s.pending[1..]), s.pending[0].action, s.pending[0].fireAt)
  {
    Timers.EarliestOfHead(s.pending);
    assert RemoveAt(s.pending, 0) == s.pending[1..];
  }

  /** With a single timeout armed, advancing fires it and leaves the queue empty before its action. */
  lemma AdvanceSingle(s: Session)
    requires |s.pending| == 1
    ensures Advance(s) == Apply(s.(pending := []), s.pending[0].action, s.pending[0].fireAt)
  {
    AdvanceFiresHead(s);
    assert s.pending[1..] == [];
  }

  /** With the stage callbacks from `j` on armed, advancing runs callback `j` at its deadline. */
  lemma AdvanceRunsStage(s: Session, t: int, j: nat)
    requires j < StageCount
    requires s.pending == StageTimers(Durations(DrowningStages), t)[j..]
    ensures var q := StageTimers(Durations(DrowningStages), t);
            Advance(s) == StageCallback(s.(pending := q[j + 1..]), j, q[j].fireAt)
  {
    var q := StageTimers(Durations(DrowningStages), t);
    DrowningSchedule(t);
    AdvanceFiresHead(s);
    assert s.pending[1..] == q[j + 1..];
  }

  /**
    Once the stage callbacks from `j` on are all that is armed, firing them
    in deadline order reaches the last stage with progress 100 and the
    subject dead, leaving only the clearing of `drowning` armed, 1000 ms after
    the last stage.
  */
  lemma {:induction false} RunStages(s: Session, t: int, j: nat)
    requires j < StageCount
    requires s.pending == StageTimers(Durations(DrowningStages), t)[j..]
    ensures var r := Run(s, StageCount - j);
            && r.stage == StageCount && r.progress == 100.0 && r.isDead
            && r.pending == [Timer(t + 2400000 + DrowningLinger, DrowningOver)]
            && r.anims == s.anims && SameScene(s, r)
    decreases StageCount - j
  {
    var q := StageTimers(Durations(DrowningStages), t);
    DrowningSchedule(t);
    var s1 := StageCallback(s.(pending := q[j + 1..]), j, q[j].fireAt);
    AdvanceRunsStage(s, t, j);
    assert Run(s, StageCount - j) == Run(s1, StageCount - j - 1);
    if j < StageCount - 1 {
      RunStages(s1, t, j + 1);
    } else {
      assert q[j + 1..] == [];
    }
  }

  /** Switching water on in the initial session arms the sequence start 1500 ms later, and nothing else. */
  lemma WaterArmsStart(t0: int)
    ensures ToggleElement(Initial, "water", t0).elements[0].active
    ensures ToggleElement(Initial, "water", t0).pending == [Timer(t0 + 1500, StartSequence)]
  {
    assert Elements.FindIndex(Initial.elements, "water") == 0;
    assert ArmsAutoStart(Initial, "water");
  }

  /** The armed start, once fired, lays out all five stage callbacks from its own deadline. */
  lemma WaterStartsSequence(t0: int)
    ensures var s1 := ToggleElement(Initial, "water", t0);
            && |s1.pending| > 0
            && var s2 := Advance(s1);
            && s2.anims == NoAnimations.(drowning := true) && s2.stage == 0
            && s2.pending == StageTimers(Durations(DrowningStages), t0 + 1500)[0..]
  {
    var s1 := ToggleElement(Initial, "water", t0);
    WaterArmsStart(t0);
    AdvanceSingle(s1);
    DrowningSchedule(t0 + 1500);
  }

  /** Firing a lone `DrowningOver` clears the `drowning` flag and leaves nothing armed. */
  lemma DrowningOverClears(s: Session)
    requires |s.pending| == 1 && s.pending[0].action == DrowningOver
    ensures Advance(s) == s.(pending := [], anims := s.anims.(drowning := false))
  {
    AdvanceSingle(s);
  }

  /**
    Switching water on in the initial session: 1500 ms later the sequence
    starts, the five stages bring it to stage 5, progress 100 and death, the
    `drowning` flag clears 1000 ms after the last stage, and `respawn` brings
    the subject back at stage 0.
  */
  lemma WaterScenario(t0: int)
    ensures var s1 := ToggleElement(Initial, "water", t0);
            && s1.elements[0].active
            && s1.pending == [Timer(t0 + 1500, StartSequence)]
            && |s1.pending| > 0
            && var s2 := Advance(s1);
            && s2.anims.drowning && s2.stage == 0
            && var s3 := Run(s2, StageCount);
            && s3.stage == 5 && s3.progress == 100.0 && s3.isDead
            && s3.pending == [Timer(t0 + 2402500, DrowningOver)]
            && |s3.pending| > 0
            && var s4 := Advance(s3);
            && s4.anims == NoAnimations && s4.pending == []
            && var s5 := Respawn(s4);
            && !s5.isDead && s5.stage == 0 && s5.progress == 0.0
  {
    WaterArmsStart(t0);
    WaterStartsSequence(t0);
    var s2 := Advance(ToggleElement(Initial, "water", t0));
    RunStages(s2, t0 + 1500, 0);
    var s3 := Run(s2, StageCount);
    assert s3.anims == NoAnimations.(drowning := true);
    DrowningOverClears(s3);
    assert Advance(s3) == s3.(pending := [], anims := NoAnimations);
  }

  /**
    `respawn` and `resetAll` leave armed stage callbacks armed: the last one,
    firing later, still marks the subject dead at the final stage.
  */
  lemma ResetsKeepStaleStages(s: Session, i: nat)
    requires i < |s.pending| && s.pending[i].action == StageReached(StageCount - 1)
    ensures Fire(Respawn(s), i).isDead && Fire(Respawn(s), i).stage == StageCount
    ensures Fire(ResetAll(s), i).isDead && Fire(ResetAll(s), i).stage == StageCount
  {
  }

  /**
    A second clothing toggle inside the 500 ms window does not cancel the
    hide: both commits are armed and the first one hides the layer.
  */
  lemma DoubleToggleStillHides(s: Session, id: string, t1: int, t2: int, i: nat)
    requires i < |s.layers| && s.layers[i].id == id && s.layers[i].visible
    ensures var r := ToggleClothing(ToggleClothing(s, id, t1), id, t2);
            && |r.pending| == |s.pending| + 2
            && r.layers[i].visible && r.layers[i].removing
            && !Fire(r, |s.pending|).layers[i].visible
  {
  }

  /**
    A show's commit is not inert once a later toggle marks the layer
    `removing`: showing a hidden layer at `t1` and hiding it at `t2` arms
    commits at `t1 + 500` and `t2 + 500`, and the first of them already
    hides the layer, `t2 - t1` ms before the hide's own commit is due.
  */
  lemma ShowThenHideCommitsEarly(s: Session, id: string, t1: int, t2: int, i: nat)
    requires i < |s.layers| && s.layers[i].id == id && !s.layers[i].visible
    ensures var r := ToggleClothing(ToggleClothing(s, id, t1), id, t2);
            && |r.pending| == |s.pending| + 2
            && r.pending[|s.pending|] == Timer(t1 + Layers.CommitDelay, CommitHide(id))
            && r.pending[|s.pending| + 1] == Timer(t2 + Layers.CommitDelay, CommitHide(id))
            && r.layers[i].visible && r.layers[i].removing
            && !Fire(r, |s.pending|).layers[i].visible && !Fire(r, |s.pending|).layers[i].removing
  {
  }

  /** With no other timeout armed and the hide after the show, that early commit is the next to fire. */
  lemma ShowThenHideFiresEarlyCommitFirst(s: Session, id: string, t1: int, t2: int, i: nat)
    requires s.pending == [] && t1 <= t2
    requires i < |s.layers| && s.layers[i].id == id && !s.layers[i].visible
    ensures var r := ToggleClothing(ToggleClothing(s, id, t1), id, t2);
            && |r.pending| > 0
            && Advance(r) == Fire(r, 0)
            && !Advance(r).layers[i].visible
  {
    var r := ToggleClothing(ToggleClothing(s, id, t1), id, t2);
    ShowThenHideCommitsEarly(s, id, t1, t2, i);
    AdvanceFiresHead(r);
    assert RemoveAt(r.pending, 0) == r.pending[1..];
  }

  /**
    Switching water on, off and on again before the first start fires arms
    two starts: `drowning` is still false at the third toggle.
  */
  lemma DoubleAutoStart(t0: int)
    ensures var s := ToggleElement(ToggleElement(ToggleElement(Initial, "water", t0), "water", t0 + 100), "water", t0 + 200);
            s.pending == [Timer(t0 + 1500, StartSequence), Timer(t0 + 1700, StartSequence)]
  {
    WaterArmsStart(t0);
    var s1 := ToggleElement(Initial, "water", t0);
    assert Elements.FindIndex(s1.elements, "water") == 0;
    var s2 := ToggleElement(s1, "water", t0 + 100);
    assert Elements.FindIndex(s2.elements, "water") == 0;
  }

  /**
    A start that fires while an earlier run is under way puts the stage back
    to 0 and leaves every timeout already armed, including the earlier run's
    stage callbacks, in place.
  */
  lemma SecondStartRewindsStage(s: Session, now: int)
    requires s.stage > 0
    ensures Apply(s, StartSequence, now).stage == 0
    ensures Apply(s, StartSequence, now).pending[..|s.pending|] == s.pending
  {
  }
}
