/**
  The stage sequencer's schedule: the fixed table of five stages and the
  front-loaded arming of one timeout per stage at cumulative offsets.
*/
module Stages {
  import opened Timers

  datatype Stage = Stage(number: nat, name: string, description: string, duration: nat, effects: seq<string>)

  /** The source's `drowningStages` table; durations are milliseconds. */
  const DrowningStages: seq<Stage> := [
    Stage(1, "Initial Submersion", "Water begins to rise, initial panic response",
          600000, ["water-rise-20", "mild-struggle"]),
    Stage(2, "Breath Holding", "Attempting to hold breath, increased anxiety",
          720000, ["water-rise-40", "chest-tension", "eye-widening"]),
    Stage(3, "Involuntary Breathing", "Body forces breathing, water enters lungs",
          600000, ["water-rise-60", "violent-struggle", "color-change"]),
    Stage(4, "Hypoxia", "Oxygen deprivation, movements become weak",
          480000, ["water-rise-80", "weak-movements", "consciousness-fade"]),
    Stage(5, "Unconsciousness", "Loss of consciousness, body goes limp",
          300000, ["water-rise-100", "complete-stillness", "death-state"])
  ]

  /** Number of stages, N. */
  const StageCount: nat := |DrowningStages|

  function Durations(stages: seq<Stage>): (ds: seq<nat>)
    ensures |ds| == |stages|
    ensures forall i :: 0 <= i < |stages| ==> ds[i] == stages[i].duration
  {
    seq(|stages|, i requires 0 <= i < |stages| => stages[i].duration)
  }

  /** Total of a list of durations. */
  function Sum(ds: seq<nat>): nat
  {
    if |ds| == 0 then 0 else Sum(ds[..|ds| - 1]) + ds[|ds| - 1]
  }

  /**
    The timeouts `startDrowningSequence` arms at `now`: callback i fires after
    the durations of the stages before it, so the first fires at once.
  */
  function StageTimers(ds: seq<nat>, now: int): seq<Timer>
  {
    seq(|ds|, i requires 0 <= i < |ds| => Timer(now + Sum(ds[..i]), StageReached(i)))
  }

  /**
    The source's `forEach` over the table: each timeout is armed at the running
    total taken before that stage's own duration is added. Returns the armed
    timers and the final total.
  */
  method ArmStages(ds: seq<nat>, now: int) returns (q: seq<Timer>, totalTime: nat)
    ensures q == StageTimers(ds, now)
    ensures totalTime == Sum(ds)
  {
    q := [];
    totalTime := 0;
    var i := 0;
    while i < |ds|
      invariant 0 <= i <= |ds|
      invariant totalTime == Sum(ds[..i])
      invariant |q| == i
      invariant forall j :: 0 <= j < i ==> q[j] == Timer(now + Sum(ds[..j]), StageReached(j))
    {
      q := q + [Timer(now + totalTime, StageReached(i))];
      assert ds[..i + 1][..i] == ds[..i];
      totalTime := totalTime + ds[i];
      i := i + 1;
    }
    assert ds[..|ds|] == ds;
  }

  /** Sums of longer prefixes are never smaller. */
  lemma {:induction false} SumPrefixMonotone(ds: seq<nat>, i: nat, j: nat)
    requires i <= j <= |ds|
    ensures Sum(ds[..i]) <= Sum(ds[..j])
    decreases j - i
  {
    if i < j {
      SumPrefixMonotone(ds, i, j - 1);
      assert ds[..j][..j - 1] == ds[..j - 1];
    }
  }

  /**
    Stage offsets are non-decreasing, the first stage fires at the start, and
    consecutive stages are exactly one stage duration apart.
  */
  lemma StageTimersSchedule(ds: seq<nat>, now: int)
    ensures |StageTimers(ds, now)| == |ds|
    ensures forall i :: 0 <= i < |ds| ==> StageTimers(ds, now)[i].action == StageReached(i)
    ensures |ds| > 0 ==> StageTimers(ds, now)[0].fireAt == now
    ensures forall i, j :: 0 <= i <= j < |ds| ==> StageTimers(ds, now)[i].fireAt <= StageTimers(ds, now)[j].fireAt
    ensures forall i :: 0 <= i < |ds| - 1 ==>
              StageTimers(ds, now)[i + 1].fireAt - StageTimers(ds, now)[i].fireAt == ds[i]
  {
    var q := StageTimers(ds, now);
    forall i, j | 0 <= i <= j < |ds|
      ensures q[i].fireAt <= q[j].fireAt
    {
      SumPrefixMonotone(ds, i, j);
    }
    forall i | 0 <= i < |ds| - 1
      ensures q[i + 1].fireAt - q[i].fireAt == ds[i]
    {
      assert ds[..i + 1][..i] == ds[..i];
    }
  }

  /** The last stage's own duration never influences the schedule. */
  lemma LastDurationUnused(ds: seq<nat>, d: nat, now: int)
    requires |ds| > 0
    ensures StageTimers(ds[..|ds| - 1] + [d], now) == StageTimers(ds, now)
  {
    var ds' := ds[..|ds| - 1] + [d];
    forall i | 0 <= i < |ds|
      ensures ds'[..i] == ds[..i]
    {
      assert forall k :: 0 <= k < i ==> ds'[k] == ds[k];
    }
  }

  /** The concrete schedule: the stages fire 0, 10, 22, 32 and 40 minutes after the start. */
  lemma DrowningSchedule(now: int)
    ensures StageCount == 5
    ensures Durations(DrowningStages) == [600000, 720000, 600000, 480000, 300000]
    ensures StageTimers(Durations(DrowningStages), now) ==
              [Timer(now, StageReached(0)), Timer(now + 600000, StageReached(1)),
               Timer(now + 1320000, StageReached(2)), Timer(now + 1920000, StageReached(3)),
               Timer(now + 2400000, StageReached(4))]
  {
    var ds := Durations(DrowningStages);
    assert ds == [600000, 720000, 600000, 480000, 300000];
    assert ds[..0] == [];
    assert ds[..1] == [600000];
    assert ds[..2] == [600000, 720000];
    assert ds[..3] == [600000, 720000, 600000];
    assert ds[..4] == [600000, 720000, 600000, 480000];
    assert ds[..1][..0] == ds[..0] && ds[..2][..1] == ds[..1];
    assert ds[..3][..2] == ds[..2] && ds[..4][..3] == ds[..3];
    assert Sum(ds[..1]) == 600000;
    assert Sum(ds[..2]) == 1320000;
    assert Sum(ds[..3]) == 1920000;
    assert Sum(ds[..4]) == 2400000;
  }
}
