/**
  Touch reactions: a click on the figure is classified by where it lands in
  the figure's bounding box, and reactions older than two seconds are dropped
  by a periodic cleanup.
*/
module Reactions {

  datatype Kind = Heart | Blush | Shock | Pleasure

  datatype Reaction = Reaction(id: int, x: real, y: real, kind: Kind, timestamp: int)

  /** A bounding client rectangle. */
  datatype Rect = Rect(left: real, top: real, width: real, height: real)

  /** Reactions live for strictly less than this many milliseconds. */
  const Lifetime: int := 2000

  /** The upper-torso box, with strict bounds on all four sides. */
  predicate InChest(x: real, y: real, w: real, h: real)
  {
    y > h * 0.25 && y < h * 0.45 && x > w * 0.3 && x < w * 0.7
  }

  /** Above the first quarter of the height. */
  predicate InFace(y: real, h: real)
  {
    y < h * 0.25
  }

  /**
    Reaction kind for a click at (x, y) relative to a w x h box; `rand` is the
    `Math.random()` value the chest and body branches draw.
  */
  function Classify(x: real, y: real, w: real, h: real, rand: real): (k: Kind)
    ensures InChest(x, y, w, h) ==> (k == Blush <==> rand > 0.5) && (k == Pleasure <==> rand <= 0.5)
    ensures !InChest(x, y, w, h) && InFace(y, h) ==> k == Shock
    ensures !InChest(x, y, w, h) && !InFace(y, h) ==> (k == Blush <==> rand > 0.7) && (k == Heart <==> rand <= 0.7)
  {
    if InChest(x, y, w, h) then (if rand > 0.5 then Blush else Pleasure)
    else if InFace(y, h) then Shock
    else if rand > 0.7 then Blush else Heart
  }

  /** Reading a kind back to the region it can come from. */
  lemma ClassifyRegions(x: real, y: real, w: real, h: real, rand: real)
    ensures Classify(x, y, w, h, rand) == Pleasure ==> InChest(x, y, w, h)
    ensures Classify(x, y, w, h, rand) == Shock <==> InFace(y, h)
    ensures Classify(x, y, w, h, rand) == Heart ==> !InChest(x, y, w, h) && !InFace(y, h)
    ensures InChest(x, y, w, h) ==> Classify(x, y, w, h, rand) in {Blush, Pleasure}
    ensures !InChest(x, y, w, h) && !InFace(y, h) ==> Classify(x, y, w, h, rand) in {Blush, Heart}
  {
  }

  /** The two sample points: the top-left tenth is always the face; the box centre is always the chest. */
  lemma ClassifySamples(w: real, h: real, rand: real)
    requires w > 0.0 && h > 0.0
    ensures Classify(0.1 * w, 0.1 * h, w, h, rand) == Shock
    ensures Classify(0.5 * w, 0.35 * h, w, h, rand) in {Blush, Pleasure}
  {
  }

  predicate Live(r: Reaction, now: int)
  {
    now - r.timestamp < Lifetime
  }

  /** The 100 ms cleanup: keeps the live reactions, in order. */
  function Cleanup(rs: seq<Reaction>, now: int): (r: seq<Reaction>)
    ensures |r| <= |rs|
    ensures forall i :: 0 <= i < |r| ==> Live(r[i], now)
    ensures forall i :: 0 <= i < |r| ==> r[i] in rs
  {
    if |rs| == 0 then []
    else if Live(rs[0], now) then [rs[0]] + Cleanup(rs[1..], now)
    else Cleanup(rs[1..], now)
  }

  /** `ys` is obtained from `xs` by deleting entries. */
  predicate IsSubsequence(ys: seq<Reaction>, xs: seq<Reaction>)
    decreases |xs|
  {
    if |ys| == 0 then true
    else if |xs| == 0 then false
    else if ys[0] == xs[0] then IsSubsequence(ys[1..], xs[1..])
    else IsSubsequence(ys, xs[1..])
  }

  /** Cleanup only deletes: the survivors keep their relative order. */
  lemma {:induction false} CleanupIsSubsequence(rs: seq<Reaction>, now: int)
    ensures IsSubsequence(Cleanup(rs, now), rs)
    decreases |rs|
  {
    if |rs| > 0 {
      CleanupIsSubsequence(rs[1..], now);
      var c := Cleanup(rs[1..], now);
      if Live(rs[0], now) {
        assert ([rs[0]] + c)[1..] == c;
      }
    }
  }

  /** Cleanup keeps exactly the live reactions, each as often as it occurred. */
  lemma {:induction false} CleanupKeepsExactlyLive(rs: seq<Reaction>, now: int)
    ensures forall x :: multiset(Cleanup(rs, now))[x] == if Live(x, now) then multiset(rs)[x] else 0
    decreases |rs|
  {
    if |rs| > 0 {
      CleanupKeepsExactlyLive(rs[1..], now);
      assert rs == [rs[0]] + rs[1..];
      assert multiset(rs) == multiset{rs[0]} + multiset(rs[1..]);
    }
  }

  /** A list of live reactions survives cleanup unchanged. */
  lemma {:induction false} CleanupOfLive(rs: seq<Reaction>, now: int)
    requires forall i :: 0 <= i < |rs| ==> Live(rs[i], now)
    ensures Cleanup(rs, now) == rs
    decreases |rs|
  {
    if |rs| > 0 {
      CleanupOfLive(rs[1..], now);
      assert [rs[0]] + rs[1..] == rs;
    }
  }

  /** Cleaning twice at the same instant is cleaning once. */
  lemma CleanupIdempotent(rs: seq<Reaction>, now: int)
    ensures Cleanup(Cleanup(rs, now), now) == Cleanup(rs, now)
  {
  }
}
