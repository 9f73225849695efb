/** The four fixed tile layers (`LAYER_PARAMS`) and the choice of one from the
    requested range. */
module Layers {

  /** One row of the layer table: grid cell side in metres, tile size in pixels
      and the provider's layer code. */
  datatype LayerParam = LayerParam(scale: nat, w: nat, h: nat, layers: nat)

  const LayerParams: seq<LayerParam> := [
    LayerParam(250, 250, 250, 1),
    LayerParam(1000, 200, 200, 5),
    LayerParam(5000, 200, 200, 25),
    LayerParam(20000, 200, 200, 100)
  ]

  /** The range thresholds, in metres, that separate consecutive layers. */
  const Thresholds: seq<real> := [2000.0, 10000.0, 45000.0]

  /** `SIZES`: the tile widths the layer table uses; fallback images exist for these. */
  function Sizes(): (r: set<int>)
    ensures forall k :: 0 <= k < |LayerParams| ==> LayerParams[k].w in r
    ensures forall x :: x in r ==> exists k :: 0 <= k < |LayerParams| && LayerParams[k].w == x
  {
    set k | 0 <= k < |LayerParams| :: LayerParams[k].w
  }

  lemma SizesAreTwoHundredAndTwoFifty()
    ensures Sizes() == {200, 250}
  {
    assert LayerParams[0].w == 250 && LayerParams[1].w == 200;
  }

  /** The threshold ladder: the coarsest layer whose threshold the range strictly exceeds. */
  function SelectLayer(range: real): (k: nat)
    ensures k < |LayerParams|
    ensures k == 3 <==> range > 45000.0
    ensures k == 2 <==> 10000.0 < range <= 45000.0
    ensures k == 1 <==> 2000.0 < range <= 10000.0
    ensures k == 0 <==> range <= 2000.0
  {
    if range > 45000.0 then 3
    else if range > 10000.0 then 2
    else if range > 2000.0 then 1
    else 0
  }

  /** How many of the thresholds `ts` the range strictly exceeds. */
  function CountExceeded(ts: seq<real>, range: real): nat
  {
    if |ts| == 0 then 0
    else (if range > ts[0] then 1 else 0) + CountExceeded(ts[1..], range)
  }

  /** The ladder picks the layer whose index is the number of thresholds exceeded. */
  lemma {:induction false} SelectLayerCountsThresholds(range: real)
    ensures SelectLayer(range) == CountExceeded(Thresholds, range)
  {
    var t3: seq<real> := [45000.0];
    var t2 := [10000.0] + t3;
    assert Thresholds == [2000.0] + t2;
    assert t3[1..] == [];
    assert CountExceeded(t3, range) == if range > 45000.0 then 1 else 0;
    assert CountExceeded(t2, range) == (if range > 10000.0 then 1 else 0) + CountExceeded(t3, range);
    assert CountExceeded(Thresholds, range) == (if range > 2000.0 then 1 else 0) + CountExceeded(t2, range);
  }

  /** A wider range never selects a finer layer, nor a smaller grid unit. */
  lemma SelectLayerMonotonic(r1: real, r2: real)
    requires r1 <= r2
    ensures SelectLayer(r1) <= SelectLayer(r2)
    ensures LayerParams[SelectLayer(r1)].scale <= LayerParams[SelectLayer(r2)].scale
  {
  }

  /** The exact threshold values fall to the finer layer. */
  lemma ThresholdsFallToFinerLayer()
    ensures SelectLayer(2000.0) == 0 && SelectLayer(10000.0) == 1 && SelectLayer(45000.0) == 2
    ensures SelectLayer(2000.01) == 1 && SelectLayer(10000.01) == 2 && SelectLayer(45000.01) == 3
    ensures SelectLayer(5744.95) == 1
  {
  }
}
