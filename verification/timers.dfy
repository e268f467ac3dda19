/**
  The one-shot timeouts the application arms with `setTimeout`, made explicit:
  a pending timer is a deadline (absolute milliseconds) and the action that runs
  when it fires. The browser's timer facility becomes a plain queue, so that every
  callback the source can still run is visible in the state.
*/
module Timers {

  /** The three entries of the source's `animations` record. */
  datatype AnimKind = Pain | Death | Drowning

  /** What a pending timeout does when it fires. */
  datatype Action =
    | StageReached(index: nat)      // callback `index` (0-based) of the stage sequence
    | DrowningOver                  // clears `drowning` 1000 ms after the last stage
    | CommitHide(layerId: string)   // second phase of a clothing toggle, 500 ms later
    | StartSequence                 // auto start, 1500 ms after water is switched on
    // End of the pain (1000 ms) or death (3000 ms) effect. Only `Pain` and
    // `Death` are ever armed: the drowning button starts the stage sequence.
    | AnimationOver(kind: AnimKind)

  datatype Timer = Timer(fireAt: int, action: Action)

  /** Arms `a` to fire `delay` milliseconds after `now`, behind every timer already armed. */
  function Arm(queue: seq<Timer>, now: int, delay: nat, a: Action): (q: seq<Timer>)
    ensures |q| == |queue| + 1
    ensures q[..|queue|] == queue
    ensures q[|queue|].fireAt - now == delay && q[|queue|].action == a
  {
    queue + [Timer(now + delay, a)]
  }

  /**
    Timer `k` is due first: no deadline is earlier than its own, and every
    timer armed before it has a strictly later deadline.
  */
  predicate DueFirst(q: seq<Timer>, k: nat)
  {
    && k < |q|
    && (forall j :: 0 <= j < |q| ==> q[k].fireAt <= q[j].fireAt)
    && (forall j :: 0 <= j < k ==> q[k].fireAt < q[j].fireAt)
  }

  /**
    Index of the timer that fires next: the smallest deadline, and among equal
    deadlines the one armed first (timeouts with equal deadlines run in the order
    they were set).
  */
  function Earliest(q: seq<Timer>): (k: nat)
    requires |q| > 0
    ensures k < |q|
    ensures forall j :: 0 <= j < |q| ==> q[k].fireAt <= q[j].fireAt
    ensures forall j :: 0 <= j < k ==> q[k].fireAt < q[j].fireAt
    decreases |q|
  {
    if |q| == 1 then 0
    else
      var k := Earliest(q[..|q| - 1]);
      if q[|q| - 1].fireAt < q[k].fireAt then |q| - 1 else k
  }

  /** If no deadline is earlier than the head's, the head fires next. */
  lemma EarliestOfHead(q: seq<Timer>)
    requires |q| > 0
    requires forall j :: 0 <= j < |q| ==> q[0].fireAt <= q[j].fireAt
    ensures Earliest(q) == 0
  {
  }

  /** The queue once timer `i` has fired: every other timer, in the same order. */
  function RemoveAt(q: seq<Timer>, i: nat): (r: seq<Timer>)
    requires i < |q|
    ensures |r| == |q| - 1
    ensures forall j :: 0 <= j < i ==> r[j] == q[j]
    ensures forall j :: i <= j < |r| ==> r[j] == q[j + 1]
  {
    q[..i] + q[i + 1..]
  }

  /** Removing a timer never introduces one. */
  lemma RemoveAtSubset(q: seq<Timer>, i: nat, t: Timer)
    requires i < |q|
    requires t in RemoveAt(q, i)
    ensures t in q
  {
    var r := RemoveAt(q, i);
    var j :| 0 <= j < |r| && r[j] == t;
    if j < i {
      assert q[j] == t;
    } else {
      assert q[j + 1] == t;
    }
  }
}
