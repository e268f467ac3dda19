/**
  Elemental effect channels and their particles. Every 500 ms each active
  channel keeps at most its last 20 particles and gains 3 new ones; inactive
  channels are left as they are. Switching a channel clears its particles.
*/
module Elements {

  datatype Particle = Particle(id: int, x: real, y: real, size: real)

  /** Three `Math.random()` values, for one particle's x, y and size. */
  datatype Draw = Draw(rx: real, ry: real, rs: real)

  /** The random values one channel consumes in one tick: one draw per new particle. */
  datatype Batch = Batch(first: Draw, second: Draw, third: Draw)

  datatype Element = Element(id: string, name: string, active: bool, particles: seq<Particle>)

  /** The four channels the application starts with, all off. */
  const InitialElements: seq<Element> := [
    Element("water", "Water", false, []),
    Element("fire", "Fire", false, []),
    Element("earth", "Earth", false, []),
    Element("air", "Air", false, [])
  ]

  /** Old particles a tick keeps, particles a tick adds, and the resulting bound. */
  const Retained: nat := 20
  const PerTick: nat := 3
  const MaxParticles: nat := 23

  function Min(a: nat, b: nat): nat
  {
    if a <= b then a else b
  }

  /** `xs` ends with `ys`. */
  predicate IsSuffix(ys: seq<Particle>, xs: seq<Particle>)
  {
    |ys| <= |xs| && ys == xs[|xs| - |ys|..]
  }

  /**
    The `slice(-n)` of the source for a positive `n`: the last `n` entries, or
    all of them when there are fewer. (`slice(-0)` would return everything.)
  */
  function LastN(xs: seq<Particle>, n: nat): (r: seq<Particle>)
    requires n > 0
    ensures |r| == Min(|xs|, n)
    ensures IsSuffix(r, xs)
  {
    if |xs| <= n then xs else xs[|xs| - n..]
  }

  /** Particle `i` of a batch: id `now + i`, position in the 300 x 400 canvas, size 4 to 12. */
  function Spawn(now: int, i: nat, d: Draw): Particle
  {
    Particle(now + i, d.rx * 300.0, d.ry * 400.0, d.rs * 8.0 + 4.0)
  }

  function NewParticles(now: int, b: Batch): (ps: seq<Particle>)
    ensures |ps| == PerTick
    ensures forall i :: 0 <= i < |ps| ==> ps[i].id == now + i
  {
    [Spawn(now, 0, b.first), Spawn(now, 1, b.second), Spawn(now, 2, b.third)]
  }

  /** One channel's share of the 500 ms interval body. */
  function TickElement(e: Element, now: int, b: Batch): (r: Element)
    ensures !e.active ==> r == e
    ensures r.id == e.id && r.name == e.name && r.active == e.active
    ensures e.active ==> |r.particles| == Min(|e.particles|, Retained) + PerTick
    ensures e.active ==> |r.particles| <= MaxParticles
    ensures e.active ==> IsSuffix(r.particles[..|r.particles| - PerTick], e.particles)
    ensures e.active ==> r.particles[|r.particles| - PerTick..] == NewParticles(now, b)
  {
    if !e.active then e
    else e.(particles := LastN(e.particles, Retained) + NewParticles(now, b))
  }

  /** The interval body over all channels; `batches[i]` is channel i's random input. */
  function Tick(es: seq<Element>, now: int, batches: seq<Batch>): (r: seq<Element>)
    requires |batches| == |es|
    ensures |r| == |es|
    ensures forall i :: 0 <= i < |es| ==> r[i] == TickElement(es[i], now, batches[i])
  {
    seq(|es|, i requires 0 <= i < |es| => TickElement(es[i], now, batches[i]))
  }

  /** No channel holds more than 23 particles. */
  predicate Bounded(es: seq<Element>)
  {
    forall i :: 0 <= i < |es| ==> |es[i].particles| <= MaxParticles
  }

  /**
    After a tick every active channel is within the bound whatever it held
    before, and inactive channels keep what they had.
  */
  lemma TickBounds(es: seq<Element>, now: int, batches: seq<Batch>)
    requires |batches| == |es|
    ensures forall i :: 0 <= i < |es| && es[i].active ==> |Tick(es, now, batches)[i].particles| <= MaxParticles
    ensures forall i :: 0 <= i < |es| && !es[i].active ==> Tick(es, now, batches)[i] == es[i]
    ensures Bounded(es) ==> Bounded(Tick(es, now, batches))
  {
  }

  /** `toggleElement` on the channel list: flips and empties the named channels only. */
  function Toggle(es: seq<Element>, id: string): (r: seq<Element>)
    ensures |r| == |es|
    ensures forall i :: 0 <= i < |es| && es[i].id != id ==> r[i] == es[i]
    ensures forall i :: 0 <= i < |es| && es[i].id == id ==>
              r[i].id == es[i].id && r[i].name == es[i].name &&
              r[i].active == !es[i].active && r[i].particles == []
  {
    seq(|es|, i requires 0 <= i < |es| =>
      if es[i].id == id then es[i].(active := !es[i].active, particles := []) else es[i])
  }

  /** Toggling a channel twice restores its on/off state and leaves it empty. */
  lemma ToggleTwice(es: seq<Element>, id: string)
    ensures |Toggle(Toggle(es, id), id)| == |es|
    ensures forall i :: 0 <= i < |es| ==> Toggle(Toggle(es, id), id)[i].active == es[i].active
    ensures forall i :: 0 <= i < |es| && es[i].id == id ==> Toggle(Toggle(es, id), id)[i].particles == []
    ensures forall i :: 0 <= i < |es| && es[i].id != id ==> Toggle(Toggle(es, id), id)[i] == es[i]
  {
  }

  /** `resetAll` on the channel list: every channel off and empty. */
  function DeactivateAll(es: seq<Element>): (r: seq<Element>)
    ensures |r| == |es|
    ensures forall i :: 0 <= i < |es| ==>
              r[i].id == es[i].id && r[i].name == es[i].name && !r[i].active && r[i].particles == []
  {
    seq(|es|, i requires 0 <= i < |es| => es[i].(active := false, particles := []))
  }

  /** Index of the first channel with the given id, as `Array.prototype.find` picks it. */
  function FindIndex(es: seq<Element>, id: string): (k: int)
    ensures -1 <= k < |es|
    ensures 0 <= k ==> es[k].id == id && forall j :: 0 <= j < k ==> es[j].id != id
    ensures k == -1 <==> forall j :: 0 <= j < |es| ==> es[j].id != id
  {
    if |es| == 0 then -1
    else if es[0].id == id then 0
    else
      var k := FindIndex(es[1..], id);
      if k == -1 then -1 else k + 1
  }
}
