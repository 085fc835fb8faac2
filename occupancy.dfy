/**
 * The occupancy ratio `get_total_occupancy` derives from an availability answer:
 * the share of the pool that is not available. The request itself is not modelled;
 * the available listings are an input.
 */
module Occupancy {
  import opened Common

  /**
   * zed_smartpr.py: `(len(ids) - len(available)) / len(ids)`, which raises
   * ZeroDivisionError (`None` here) for an empty pool.
   */
  function ZedRatio(apartments: seq<int>, available: seq<int>): (r: Option<real>)
    ensures r.None? <==> |apartments| == 0
    ensures r.Some? && |available| <= |apartments| ==> 0.0 <= r.value <= 1.0
    ensures r.Some? ==> (r.value == 0.0 <==> |available| == |apartments|)
    ensures r.Some? ==> (r.value == 1.0 <==> |available| == 0)
  {
    if |apartments| == 0 then None
    else
      var q := (|apartments| - |available|) as real / |apartments| as real;
      assert q * |apartments| as real == (|apartments| - |available|) as real;
      Some(q)
  }

  /** finikas_smartpr.py: the same ratio, guarded to 0 for an empty pool. */
  function FinikasRatio(apartments: seq<int>, available: seq<int>): (r: real)
    ensures |apartments| == 0 ==> r == 0.0
    ensures |apartments| > 0 ==> ZedRatio(apartments, available) == Some(r)
    ensures |available| <= |apartments| ==> 0.0 <= r <= 1.0
  {
    if |apartments| > 0 then (|apartments| - |available|) as real / |apartments| as real else 0.0
  }
}
