/**
 * Zone classification (calculateHeartRateZone and calculatePaceZone in both
 * renderers): the zone is one more than the index of the first upper bound that
 * is at least the value; when no bound qualifies the renderer falls back to zone 1.
 */
module Zones {
  import opened WorkoutTypes

  /** Index of the first bound `>= v`, or `|bounds|` when there is none. */
  function FirstAtLeast(v: real, bounds: seq<real>): (i: nat)
    ensures i <= |bounds|
    ensures forall j :: 0 <= j < i ==> bounds[j] < v
    ensures i < |bounds| ==> v <= bounds[i]
  {
    if |bounds| == 0 then 0
    else if v <= bounds[0] then 0
    else 1 + FirstAtLeast(v, bounds[1..])
  }

  /** The 1-based zone of `v`; 1 when `v` exceeds every bound or the table is empty. */
  function ZoneOf(v: real, bounds: seq<real>): (zone: int)
    ensures 1 <= zone && (zone == 1 || zone <= |bounds|)
  {
    var i := FirstAtLeast(v, bounds);
    if i < |bounds| then i + 1 else 1
  }

  /** The scan with early return that the renderer runs. */
  method FindZone(v: real, bounds: seq<real>) returns (zone: int)
    ensures (exists j :: 0 <= j < |bounds| && v <= bounds[j]) ==>
      1 <= zone <= |bounds| && v <= bounds[zone - 1] &&
      forall j :: 0 <= j < zone - 1 ==> bounds[j] < v
    ensures (forall j :: 0 <= j < |bounds| ==> bounds[j] < v) ==> zone == 1
    ensures zone == ZoneOf(v, bounds)
  {
    for i := 0 to |bounds|
      invariant forall j :: 0 <= j < i ==> bounds[j] < v
    {
      if v <= bounds[i] {
        return i + 1;
      }
    }
    return 1;
  }

  /** The heart-rate table holds whole beats per minute; the renderer compares them as floats. */
  function HeartRateBounds(zones: seq<int>): seq<real> {
    seq(|zones|, k requires 0 <= k < |zones| => zones[k] as real)
  }

  /** A heart rate falls in zone 1 up to the number of configured zones. */
  function HeartRateZone(bpm: real, settings: AthleteSportSettings): (zone: int)
    ensures 1 <= zone && (zone == 1 || zone <= |settings.heartRateZones|)
  {
    ZoneOf(bpm, HeartRateBounds(settings.heartRateZones))
  }

  /**
   * Pace zones classify the percentage of threshold pace, not the converted
   * pace; the zone is 1 up to the number of configured zones.
   */
  function PaceZone(percent: real, settings: AthleteSportSettings): (zone: int)
    ensures 1 <= zone && (zone == 1 || zone <= |settings.paceZones|)
  {
    ZoneOf(percent, settings.paceZones)
  }

  predicate Ascending(bounds: seq<real>) {
    forall i, j :: 0 <= i < j < |bounds| ==> bounds[i] < bounds[j]
  }

  /** Zone `k` of an ascending table covers `(bounds[k-2], bounds[k-1]]`; zone 1 also takes what lies above the last bound. */
  predicate InZone(v: real, bounds: seq<real>, k: int)
    requires 1 <= k <= |bounds|
  {
    ((k == 1 || bounds[k - 2] < v) && v <= bounds[k - 1]) ||
    (k == 1 && bounds[|bounds| - 1] < v)
  }

  /** Whenever some bound is at least the larger value, a larger value never gets a lower zone. */
  lemma ZoneMonotone(v1: real, v2: real, bounds: seq<real>)
    requires v1 <= v2
    requires exists j :: 0 <= j < |bounds| && v2 <= bounds[j]
    ensures ZoneOf(v1, bounds) <= ZoneOf(v2, bounds)
  {
    var i2 := FirstAtLeast(v2, bounds);
    assert i2 < |bounds|;
  }

  /** For ascending tables: monotone for values up to the last bound. */
  lemma ZoneMonotoneAscending(v1: real, v2: real, bounds: seq<real>)
    requires Ascending(bounds) && |bounds| > 0
    requires v1 <= v2 <= bounds[|bounds| - 1]
    ensures ZoneOf(v1, bounds) <= ZoneOf(v2, bounds)
  {
    ZoneMonotone(v1, v2, bounds);
  }

  /** With an ascending table, the zone is `k` exactly when the value lies in zone `k`'s band. */
  lemma ZoneBand(v: real, bounds: seq<real>, k: int)
    requires Ascending(bounds)
    requires 1 <= k <= |bounds|
    ensures ZoneOf(v, bounds) == k <==> InZone(v, bounds, k)
  {
    var i := FirstAtLeast(v, bounds);
    if i < |bounds| {
      if k - 1 < i {
        assert bounds[k - 1] < v;
        assert v <= bounds[i] <= bounds[|bounds| - 1];
      } else if k - 1 > i {
        assert bounds[i] <= bounds[k - 2];
      } else if k == 1 {
        assert InZone(v, bounds, k);
      }
    } else {
      assert bounds[|bounds| - 1] < v;
      if k > 1 {
        assert bounds[k - 1] < v;
      }
    }
  }

  /** The fallback is zone 1, so a value just above the last bound drops from the top zone to zone 1. */
  lemma FallbackBreaksMonotonicity()
    ensures ZoneOf(20.0, [10.0, 20.0]) == 2
    ensures ZoneOf(21.0, [10.0, 20.0]) == 1
  {
    assert FirstAtLeast(20.0, [10.0, 20.0]) == 1 by {
      assert [10.0, 20.0][1..] == [20.0];
    }
    assert FirstAtLeast(21.0, [10.0, 20.0]) == 2 by {
      assert [10.0, 20.0][1..] == [20.0];
      assert [20.0][1..] == [];
    }
  }
}
