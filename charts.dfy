/** The three pie charts (`updateCharts`, `applyPieChart`): minutes per
    category on the active-learning-process, interaction-type and
    key-application axes, turned into cumulative slice angles and a
    decision, per slice, whether and where its label is drawn. Angles are
    exact reals here. */
module Charts {
  import opened JsText
  import opened Activities
  import DesignMap

  datatype Axis = AlpAxis | InteractionAxis | KeyAppAxis

  /** The categories of an axis in the order their slices are drawn. */
  function Keys(axis: Axis): (keys: seq<string>)
    ensures Distinct(keys)
  {
    match axis
    case AlpAxis => AlpStrategies
    case InteractionAxis => InteractionTypes
    case KeyAppAxis => KeyApplications
  }

  function CategoryOf(a: Activity, axis: Axis): string {
    match axis
    case AlpAxis => a.alp
    case InteractionAxis => a.interaction
    case KeyAppAxis => a.keyApp
  }

  /** What one activity contributes to a chart: its category on the
      chart's axis and its minutes. */
  datatype Entry = Entry(category: string, minutes: nat)

  function Entries(acts: seq<Activity>, axis: Axis): (es: seq<Entry>)
    ensures |es| == |acts|
  {
    if acts == [] then []
    else
      var last := acts[|acts| - 1];
      Entries(acts[..|acts| - 1], axis) + [Entry(CategoryOf(last, axis), Minutes(last.time))]
  }

  lemma EntriesStep(acts: seq<Activity>, a: Activity, axis: Axis)
    ensures Entries(acts + [a], axis) == Entries(acts, axis) + [Entry(CategoryOf(a, axis), Minutes(a.time))]
  {
    assert (acts + [a])[..|acts|] == acts;
  }

  /** Each entry carries the category of its activity. */
  lemma {:induction false} EntriesRecognized(acts: seq<Activity>, axis: Axis)
    requires forall i :: 0 <= i < |acts| ==> CategoryOf(acts[i], axis) in Keys(axis)
    ensures forall i :: 0 <= i < |acts| ==> Entries(acts, axis)[i].category in Keys(axis)
  {
    if acts != [] {
      var init := acts[..|acts| - 1];
      assert forall i :: 0 <= i < |init| ==> init[i] == acts[i];
      EntriesRecognized(init, axis);
    }
  }

  /** The minutes of the entries whose category is `key`. */
  function BucketTotal(es: seq<Entry>, key: string): nat {
    if es == [] then 0
    else
      var last := es[|es| - 1];
      BucketTotal(es[..|es| - 1], key) + (if last.category == key then last.minutes else 0)
  }

  /** The totals of the categories `keys`, in key order. */
  function BucketsOf(es: seq<Entry>, keys: seq<string>): seq<nat> {
    seq(|keys|, j requires 0 <= j < |keys| => BucketTotal(es, keys[j]))
  }

  /** The totals dictionary of one axis, in key order. */
  function Buckets(acts: seq<Activity>, axis: Axis): seq<nat> {
    BucketsOf(Entries(acts, axis), Keys(axis))
  }

  /** `if (totals[key] !== undefined) totals[key] += time`. */
  function AddTo(totals: seq<nat>, slot: Option<nat>, time: nat): (r: seq<nat>)
    requires slot.Some? ==> slot.value < |totals|
    ensures |r| == |totals|
  {
    if slot.Some? then totals[slot.value := totals[slot.value] + time] else totals
  }

  lemma BucketsOfStep(es: seq<Entry>, e: Entry, keys: seq<string>)
    requires Distinct(keys)
    ensures BucketsOf(es + [e], keys) == AddTo(BucketsOf(es, keys), IndexOf(keys, e.category), e.minutes)
  {
    assert (es + [e])[..|es|] == es;
    var slot := IndexOf(keys, e.category);
    var before, after := BucketsOf(es, keys), BucketsOf(es + [e], keys);
    forall j | 0 <= j < |keys|
      ensures after[j] == AddTo(before, slot, e.minutes)[j]
    {
      if slot.Some? && slot.value != j {
        assert keys[slot.value] != keys[j];
      }
    }
  }

  /** One more activity adds its minutes to the bucket of its category and
      to no other, and to none when the category is not one of the keys. */
  lemma BucketsStep(acts: seq<Activity>, a: Activity, axis: Axis)
    ensures Buckets(acts + [a], axis) == AddTo(Buckets(acts, axis), IndexOf(Keys(axis), CategoryOf(a, axis)), Minutes(a.time))
  {
    EntriesStep(acts, a, axis);
    BucketsOfStep(Entries(acts, axis), Entry(CategoryOf(a, axis), Minutes(a.time)), Keys(axis));
  }

  function Sum(values: seq<nat>): nat {
    if values == [] then 0 else Sum(values[..|values| - 1]) + values[|values| - 1]
  }

  lemma {:induction false} SumAddTo(values: seq<nat>, j: nat, time: nat)
    requires j < |values|
    ensures Sum(values[j := values[j] + time]) == Sum(values) + time
  {
    var n := |values|;
    var updated := values[j := values[j] + time];
    if j < n - 1 {
      SumAddTo(values[..n - 1], j, time);
      assert updated[..n - 1] == values[..n - 1][j := values[j] + time];
    } else {
      assert updated[..n - 1] == values[..n - 1];
    }
  }

  lemma {:induction false} ZeroSum(values: seq<nat>)
    requires forall j :: 0 <= j < |values| ==> values[j] == 0
    ensures Sum(values) == 0
  {
    if values != [] {
      ZeroSum(values[..|values| - 1]);
    }
  }

  /** The minutes of the entries whose category is one of `keys`. */
  function RecognizedTimeOf(es: seq<Entry>, keys: seq<string>): nat {
    if es == [] then 0
    else
      var last := es[|es| - 1];
      RecognizedTimeOf(es[..|es| - 1], keys) + (if last.category in keys then last.minutes else 0)
  }

  /** The minutes of the activities whose category is one of the axis's. */
  function RecognizedTime(acts: seq<Activity>, axis: Axis): nat {
    RecognizedTimeOf(Entries(acts, axis), Keys(axis))
  }

  function TotalMinutes(es: seq<Entry>): nat {
    if es == [] then 0 else TotalMinutes(es[..|es| - 1]) + es[|es| - 1].minutes
  }

  lemma {:induction false} BucketsOfSum(es: seq<Entry>, keys: seq<string>)
    requires Distinct(keys)
    ensures Sum(BucketsOf(es, keys)) == RecognizedTimeOf(es, keys)
  {
    if es == [] {
      ZeroSum(BucketsOf(es, keys));
    } else {
      var init, last := es[..|es| - 1], es[|es| - 1];
      assert init + [last] == es;
      BucketsOfSum(init, keys);
      BucketsOfStep(init, last, keys);
      var slot := IndexOf(keys, last.category);
      if slot.Some? {
        SumAddTo(BucketsOf(init, keys), slot.value, last.minutes);
      }
    }
  }

  /** Every activity lands in exactly one bucket of an axis, or in none
      when its category is not recognised: the buckets add up to the
      minutes of the recognised activities. */
  lemma BucketsSum(acts: seq<Activity>, axis: Axis)
    ensures Sum(Buckets(acts, axis)) == RecognizedTime(acts, axis)
  {
    BucketsOfSum(Entries(acts, axis), Keys(axis));
  }

  lemma {:induction false} RecognizedAllOf(es: seq<Entry>, keys: seq<string>)
    requires forall i :: 0 <= i < |es| ==> es[i].category in keys
    ensures RecognizedTimeOf(es, keys) == TotalMinutes(es)
  {
    if es != [] {
      var init := es[..|es| - 1];
      assert forall i :: 0 <= i < |init| ==> init[i] == es[i];
      RecognizedAllOf(init, keys);
    }
  }

  lemma {:induction false} TotalTimeAppend(acts: seq<Activity>, a: Activity)
    ensures DesignMap.TotalTime(acts + [a]) == DesignMap.TotalTime(acts) + Minutes(a.time)
  {
    if acts != [] {
      assert (acts + [a])[1..] == acts[1..] + [a];
      TotalTimeAppend(acts[1..], a);
    } else {
      assert DesignMap.TotalTime([a]) == Minutes(a.time) + DesignMap.TotalTime([]);
    }
  }

  /** The entries of the activities carry the map's total time. */
  lemma {:induction false} EntriesTotal(acts: seq<Activity>, axis: Axis)
    ensures TotalMinutes(Entries(acts, axis)) == DesignMap.TotalTime(acts)
  {
    if acts != [] {
      var init, last := acts[..|acts| - 1], acts[|acts| - 1];
      assert init + [last] == acts;
      EntriesTotal(init, axis);
      EntriesStep(init, last, axis);
      TotalTimeAppend(init, last);
      var es := Entries(acts, axis);
      assert es[..|es| - 1] == Entries(init, axis);
    }
  }

  /** When every entry's category is one of `keys`, the buckets account
      for every minute of the entries. */
  lemma BucketsOfTotal(es: seq<Entry>, keys: seq<string>)
    requires Distinct(keys)
    requires forall i :: 0 <= i < |es| ==> es[i].category in keys
    ensures Sum(BucketsOf(es, keys)) == TotalMinutes(es)
  {
    BucketsOfSum(es, keys);
    RecognizedAllOf(es, keys);
  }

  /** With every category recognised, the chart of an axis accounts for
      every minute of its entries. */
  lemma ChartTotalOfEntries(acts: seq<Activity>, axis: Axis)
    requires forall i :: 0 <= i < |acts| ==> CategoryOf(acts[i], axis) in Keys(axis)
    ensures Sum(Buckets(acts, axis)) == TotalMinutes(Entries(acts, axis))
  {
    var keys := Keys(axis);
    var es := Entries(acts, axis);
    EntriesRecognized(acts, axis);
    BucketsOfTotal(es, keys);
    assert Buckets(acts, axis) == BucketsOf(es, keys);
  }

  /** When every drawn activity has a recognised category on an axis, that
      chart's slices add up to the total the design map shows. */
  lemma ChartTotalMatchesMap(acts: seq<Activity>, axis: Axis)
    requires forall i :: 0 <= i < |acts| ==> CategoryOf(acts[i], axis) in Keys(axis)
    ensures Sum(Buckets(acts, axis)) == DesignMap.TotalTime(acts)
  {
    ChartTotalOfEntries(acts, axis);
    EntriesTotal(acts, axis);
  }

  /** `(value / total) * 360`, or 0 when the total is 0. */
  function Angle(value: nat, total: nat): real {
    if total > 0 then (value as real / total as real) * 360.0 else 0.0
  }

  /** Where slice `k` starts: the angles of the slices before it, added up
      from 0 in declared order. */
  function StartAngle(values: seq<nat>, k: nat, total: nat): real
    requires k <= |values|
  {
    if k == 0 then 0.0 else StartAngle(values, k - 1, total) + Angle(values[k - 1], total)
  }

  datatype Stop = Stop(start: real, end: real)

  datatype SliceLabel = Hidden | Shown(radius: nat)

  /** The label rule: no label when the chart is empty, the slice is
      empty or the slice is under 18 degrees; otherwise radius 28 for a
      slice under 40 degrees and 36 for a wider one. */
  function LabelFor(value: nat, total: nat): SliceLabel {
    if total == 0 || value == 0 then Hidden
    else
      var angle := Angle(value, total);
      if angle < 18.0 then Hidden
      else Shown(if angle < 40.0 then 28 else 36)
  }

  /** The label rule in whole numbers: a slice is labelled iff the total
      and the value are positive and the value is at least a twentieth of
      the total; the label sits closer in iff the value is less than a
      ninth of the total. */
  lemma LabelRule(value: nat, total: nat)
    ensures LabelFor(value, total).Hidden? <==> total == 0 || value == 0 || 20 * value < total
    ensures LabelFor(value, total).Shown? ==>
      LabelFor(value, total).radius == if 9 * value < total then 28 else 36
  {
    if total > 0 && value > 0 {
      var angle := Angle(value, total);
      var t := total as real;
      AngleTimesTotal(value, total);
      LessTimesPositive(angle, 18.0, t);
      LessTimesPositive(angle, 40.0, t);
      assert angle < 18.0 <==> 20 * value < total;
      assert angle < 40.0 <==> 9 * value < total;
    }
  }

  /** A slice's angle is its value's share of 360. */
  lemma AngleTimesTotal(value: nat, total: nat)
    requires total > 0
    ensures Angle(value, total) * total as real == value as real * 360.0
    ensures Angle(value, total) >= 0.0
  {
    var t := total as real;
    var q := value as real / t;
    assert q * t == value as real;
    assert q >= 0.0;
  }

  lemma LessTimesPositive(x: real, c: real, t: real)
    requires t > 0.0
    ensures x < c <==> x * t < c * t
  {
    if x < c {
      assert (c - x) * t > 0.0;
    } else {
      assert (x - c) * t >= 0.0;
    }
  }

  datatype PieChart = PieChart(values: seq<nat>, stops: seq<Stop>, labels: seq<SliceLabel>)

  /** What `applyPieChart` draws for the slice values. */
  function PieOf(values: seq<nat>): PieChart {
    var total := Sum(values);
    PieChart(
      values,
      seq(|values|, i requires 0 <= i < |values| => Stop(StartAngle(values, i, total), StartAngle(values, i + 1, total))),
      seq(|values|, i requires 0 <= i < |values| => LabelFor(values[i], total)))
  }

  /** `applyPieChart`: `currentAngle` runs from 0 over the slices, each
      stop spanning the slice's angle; then the label of each slice. */
  method ApplyPieChart(values: seq<nat>) returns (chart: PieChart)
    ensures chart == PieOf(values)
  {
    var total := Sum(values);
    var currentAngle := 0.0;
    var stops: seq<Stop> := [];
    var i := 0;
    while i < |values|
      invariant 0 <= i <= |values|
      invariant currentAngle == StartAngle(values, i, total)
      invariant |stops| == i
      invariant forall k :: 0 <= k < i ==> stops[k] == Stop(StartAngle(values, k, total), StartAngle(values, k + 1, total))
    {
      var angle := if total > 0 then (values[i] as real / total as real) * 360.0 else 0.0;
      var start := currentAngle;
      var end := currentAngle + angle;
      currentAngle := end;
      stops := stops + [Stop(start, end)];
      i := i + 1;
    }
    var labels := seq(|values|, k requires 0 <= k < |values| => LabelFor(values[k], total));
    chart := PieChart(values, stops, labels);
  }

  /** The share of the first `k` slices: where slice `k` starts, times
      the total, is the values before it times 360. */
  lemma {:induction false} StartAngleShare(values: seq<nat>, k: nat)
    requires k <= |values| && Sum(values) > 0
    ensures StartAngle(values, k, Sum(values)) * Sum(values) as real == Sum(values[..k]) as real * 360.0
  {
    if k > 0 {
      var total := Sum(values);
      StartAngleShare(values, k - 1);
      assert values[..k][..k - 1] == values[..k - 1];
      assert Sum(values[..k]) == Sum(values[..k - 1]) + values[k - 1];
      AngleTimesTotal(values[k - 1], total);
      Distribute(StartAngle(values, k - 1, total), Angle(values[k - 1], total), total as real);
    }
  }

  lemma Distribute(a: real, b: real, t: real)
    ensures (a + b) * t == a * t + b * t
  {
  }

  /** A share whose part equals the whole is the full turn. */
  lemma WholeShare(x: real, part: real, whole: real)
    requires whole > 0.0 && part == whole && x * whole == part * 360.0
    ensures x == 360.0
  {
    CancelPositive(x, 360.0, whole);
  }

  lemma CancelPositive(x: real, y: real, t: real)
    requires t > 0.0 && x * t == y * t
    ensures x == y
  {
    assert (x - y) * t == 0.0;
  }

  lemma {:induction false} StartAngleMonotone(values: seq<nat>, k: nat)
    requires k < |values| && Sum(values) > 0
    ensures StartAngle(values, k, Sum(values)) <= StartAngle(values, k + 1, Sum(values))
  {
    AngleTimesTotal(values[k], Sum(values));
  }

  /** All the slices together span the whole circle. */
  lemma FullTurn(values: seq<nat>)
    requires Sum(values) > 0
    ensures StartAngle(values, |values|, Sum(values)) == 360.0
  {
    StartAngleShare(values, |values|);
    assert values[..|values|] == values;
    WholeShare(StartAngle(values, |values|, Sum(values)), Sum(values[..|values|]) as real, Sum(values) as real);
  }

  /** The slices of a non-empty chart start at 0, follow each other without
      gap or overlap, never run backwards, and close the circle at 360. */
  lemma PieClosesCircle(values: seq<nat>)
    requires Sum(values) > 0
    ensures var stops := PieOf(values).stops;
      && |stops| == |values|
      && (|stops| > 0 ==> stops[0].start == 0.0 && stops[|stops| - 1].end == 360.0)
      && (forall i :: 0 <= i < |stops| - 1 ==> stops[i].end == stops[i + 1].start)
      && (forall i :: 0 <= i < |stops| ==> stops[i].start <= stops[i].end)
  {
    FullTurn(values);
    forall i | 0 <= i < |values|
      ensures StartAngle(values, i, Sum(values)) <= StartAngle(values, i + 1, Sum(values))
    {
      StartAngleMonotone(values, i);
    }
  }

  /** An empty chart (total 0) has every stop at 0 and no label. */
  lemma {:induction false} EmptyPie(values: seq<nat>)
    requires Sum(values) == 0
    ensures forall i :: 0 <= i < |values| ==> PieOf(values).stops[i] == Stop(0.0, 0.0)
    ensures forall i :: 0 <= i < |values| ==> PieOf(values).labels[i] == Hidden
  {
    forall k | 0 <= k <= |values| ensures StartAngle(values, k, 0) == 0.0 {
      StartAngleZero(values, k);
    }
  }

  lemma {:induction false} StartAngleZero(values: seq<nat>, k: nat)
    requires k <= |values|
    ensures StartAngle(values, k, 0) == 0.0
  {
    if k > 0 {
      StartAngleZero(values, k - 1);
    }
  }

  /** `updateCharts`: one pass over the drawn activities adds each one's
      minutes to its bucket on each axis, and each axis becomes a pie. */
  method UpdateCharts(filled: seq<Activity>) returns (alp: PieChart, interaction: PieChart, keyApp: PieChart)
    ensures alp == PieOf(Buckets(filled, AlpAxis))
    ensures interaction == PieOf(Buckets(filled, InteractionAxis))
    ensures keyApp == PieOf(Buckets(filled, KeyAppAxis))
  {
    var alpTotals: seq<nat> := [0, 0, 0, 0];
    var interactionTotals: seq<nat> := [0, 0, 0, 0];
    var keyAppTotals: seq<nat> := seq(|KeyApplications|, _ => 0);
    assert filled[..0] == [];
    var i := 0;
    while i < |filled|
      invariant 0 <= i <= |filled|
      invariant alpTotals == Buckets(filled[..i], AlpAxis)
      invariant interactionTotals == Buckets(filled[..i], InteractionAxis)
      invariant keyAppTotals == Buckets(filled[..i], KeyAppAxis)
    {
      var activity := filled[i];
      var time := Minutes(activity.time);
      assert filled[..i + 1] == filled[..i] + [activity];
      BucketsStep(filled[..i], activity, AlpAxis);
      BucketsStep(filled[..i], activity, InteractionAxis);
      BucketsStep(filled[..i], activity, KeyAppAxis);
      alpTotals := AddTo(alpTotals, IndexOf(AlpStrategies, activity.alp), time);
      interactionTotals := AddTo(interactionTotals, IndexOf(InteractionTypes, activity.interaction), time);
      keyAppTotals := AddTo(keyAppTotals, IndexOf(KeyApplications, activity.keyApp), time);
      i := i + 1;
    }
    assert filled[..i] == filled;
    alp := ApplyPieChart(alpTotals);
    interaction := ApplyPieChart(interactionTotals);
    keyApp := ApplyPieChart(keyAppTotals);
  }
}
