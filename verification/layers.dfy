/**
  Clothing layers and their two-phase hide: a toggle on a visible layer only
  marks it `removing`, and a commit armed 500 ms later hides it if it is still
  marked. Showing a hidden layer is immediate.
*/
module Layers {

  datatype Layer = Layer(id: string, name: string, visible: bool, removing: bool)

  /** The three layers the application starts with, all shown. */
  const InitialLayers: seq<Layer> := [
    Layer("outer", "Outer Clothing", true, false),
    Layer("inner", "Inner Clothing", true, false),
    Layer("base", "Base Layer", true, false)
  ]

  /** Delay between a toggle and its commit, in milliseconds. */
  const CommitDelay: nat := 500

  /** A layer being removed is still on screen. */
  predicate Consistent(l: Layer)
  {
    l.removing ==> l.visible
  }

  predicate AllConsistent(ls: seq<Layer>)
  {
    forall i :: 0 <= i < |ls| ==> Consistent(ls[i])
  }

  /** Same identities and names, position by position. */
  predicate SameIds(ls: seq<Layer>, ls': seq<Layer>)
  {
    && |ls'| == |ls|
    && forall i :: 0 <= i < |ls| ==> ls'[i].id == ls[i].id && ls'[i].name == ls[i].name
  }

  /** First phase of `toggleClothing` on the named layers. */
  function Toggle(ls: seq<Layer>, id: string): (r: seq<Layer>)
    ensures SameIds(ls, r)
    ensures forall i :: 0 <= i < |ls| && ls[i].id != id ==> r[i] == ls[i]
    ensures forall i :: 0 <= i < |ls| && ls[i].id == id && ls[i].visible ==>
              r[i].visible && r[i].removing
    ensures forall i :: 0 <= i < |ls| && ls[i].id == id && !ls[i].visible ==>
              r[i].visible && !r[i].removing
  {
    seq(|ls|, i requires 0 <= i < |ls| =>
      if ls[i].id == id then
        (if ls[i].visible then ls[i].(removing := true) else ls[i].(visible := true, removing := false))
      else ls[i])
  }

  /** Second phase, the 500 ms callback: hides the named layers still being removed. */
  function CommitHide(ls: seq<Layer>, id: string): (r: seq<Layer>)
    ensures SameIds(ls, r)
    ensures forall i :: 0 <= i < |ls| && ls[i].id == id && ls[i].removing ==>
              !r[i].visible && !r[i].removing
    ensures forall i :: 0 <= i < |ls| && !(ls[i].id == id && ls[i].removing) ==> r[i] == ls[i]
  {
    seq(|ls|, i requires 0 <= i < |ls| =>
      if ls[i].id == id && ls[i].removing then ls[i].(visible := false, removing := false) else ls[i])
  }

  /** Both phases keep every layer that is being removed on screen. */
  lemma TogglePreservesConsistency(ls: seq<Layer>, id: string)
    requires AllConsistent(ls)
    ensures AllConsistent(Toggle(ls, id))
    ensures AllConsistent(CommitHide(ls, id))
  {
  }

  /**
    A second toggle inside the removal window takes the hide branch again
    (the layer is still visible), so it cannot bring the layer back: the
    pending commit hides it.
  */
  lemma SecondToggleDoesNotCancelHide(ls: seq<Layer>, id: string, i: nat)
    requires i < |ls| && ls[i].id == id && ls[i].visible
    ensures Toggle(Toggle(ls, id), id)[i].removing
    ensures !CommitHide(Toggle(Toggle(ls, id), id), id)[i].visible
  {
  }

  /**
    After showing a hidden layer, the commit armed by that same toggle
    changes nothing, provided it fires before any other toggle of that layer.
  */
  lemma CommitAfterShowIsInert(ls: seq<Layer>, id: string)
    requires forall i :: 0 <= i < |ls| && ls[i].id == id ==> !ls[i].visible
    ensures CommitHide(Toggle(ls, id), id) == Toggle(ls, id)
  {
  }

  /** Every layer shown and none being removed, as `resetAll` leaves them. */
  function ShowAll(ls: seq<Layer>): (r: seq<Layer>)
    ensures SameIds(ls, r)
    ensures forall i :: 0 <= i < |r| ==> r[i].visible && !r[i].removing
  {
    seq(|ls|, i requires 0 <= i < |ls| => ls[i].(visible := true, removing := false))
  }
}
