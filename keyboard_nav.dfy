/**
 * The arrow-key handler of the page (identical in js/main.js and
 * backup-20260123-152753/main.js): it locates the "current" section as the
 * first whose top edge is at or below a line near the viewport top, and
 * scrolls to its neighbour. Sections are given by their top edge, in
 * pixels relative to the viewport.
 */
module KeyboardNav {
  import opened Common

  datatype Key = ArrowDown | ArrowRight | ArrowUp | ArrowLeft | Escape | OtherKey

  /** Array.prototype.findIndex(s => s.top >= bound): the first such index, or -1. */
  function FindIndex(tops: seq<int>, bound: int): (r: int)
    ensures -1 <= r < |tops|
    ensures r >= 0 ==> tops[r] >= bound && forall j :: 0 <= j < r ==> tops[j] < bound
    ensures r == -1 <==> forall j :: 0 <= j < |tops| ==> tops[j] < bound
  {
    if tops == [] then -1
    else if tops[0] >= bound then 0
    else
      var k := FindIndex(tops[1..], bound);
      if k == -1 then -1 else k + 1
  }

  /**
   * The section the key scrolls to, if any. Down/Right: the one after the
   * first section whose top is not above the viewport (the first section
   * when every one is above it); nothing when that section is the last.
   * Up/Left: the one before the first whose top is at most 10 px above the
   * viewport; nothing when that is the first or there is none.
   */
  function ScrollTarget(key: Key, tops: seq<int>): (r: Option<nat>)
    ensures r.Some? ==> r.value < |tops|
    ensures key in {Escape, OtherKey} ==> r.None?
    ensures key in {ArrowDown, ArrowRight} ==>
      (r.None? <==> |tops| == 0 || (tops[|tops| - 1] >= 0 && forall j :: 0 <= j < |tops| - 1 ==> tops[j] < 0))
    ensures key in {ArrowDown, ArrowRight} && r.Some? ==>
      (forall j :: 0 <= j < r.value - 1 ==> tops[j] < 0)
      && (r.value > 0 ==> tops[r.value - 1] >= 0)
      && (r.value == 0 ==> forall j :: 0 <= j < |tops| ==> tops[j] < 0)
    ensures key in {ArrowUp, ArrowLeft} ==>
      (r.None? <==> |tops| == 0 || tops[0] >= -10 || forall j :: 0 <= j < |tops| ==> tops[j] < -10)
    ensures key in {ArrowUp, ArrowLeft} && r.Some? ==>
      r.value + 1 < |tops| && tops[r.value + 1] >= -10 && forall j :: 0 <= j <= r.value ==> tops[j] < -10
  {
    match key
    case ArrowDown | ArrowRight =>
      var currentIndex := FindIndex(tops, 0);
      if currentIndex < |tops| - 1 then Some(currentIndex + 1) else None
    case ArrowUp | ArrowLeft =>
      var currentIndex := FindIndex(tops, -10);
      if currentIndex > 0 then Some(currentIndex - 1) else None
    case _ => None
  }
}
