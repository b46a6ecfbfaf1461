/** `generateMap`: draw the complete activities as a design map and as
    three pie charts, or refuse when no activity is complete. */
module Generate {
  import opened JsText
  import opened Activities
  import opened DesignMap
  import opened Charts

  datatype Output = Output(layout: MapLayout, alp: PieChart, interaction: PieChart, keyApp: PieChart)

  /** With every drawn interaction type known, the interaction chart adds
      up to the map's total time. */
  lemma InteractionChartMatchesMap(filled: seq<Activity>)
    requires forall a :: a in filled ==> a.interaction in InteractionTypes
    ensures Sum(Buckets(filled, InteractionAxis)) == TotalTime(filled)
  {
    forall i | 0 <= i < |filled|
      ensures CategoryOf(filled[i], InteractionAxis) in Keys(InteractionAxis)
    {
      assert filled[i] in filled;
    }
    ChartTotalMatchesMap(filled, InteractionAxis);
  }

  /** Nothing is drawn (the alert path) iff no activity is complete;
      otherwise the map and the three charts are drawn from the complete
      activities, and when every one of them has a known interaction
      type, the interaction chart adds up to the map's total time. */
  method GenerateMap(acts: seq<Activity>, meta: Meta) returns (r: Option<Output>)
    ensures r.None? <==> forall i :: 0 <= i < |acts| ==> !IsComplete(acts[i])
    ensures r.Some? ==>
      && r.value.layout == RenderMap(Filled(acts), meta)
      && r.value.alp == PieOf(Buckets(Filled(acts), AlpAxis))
      && r.value.interaction == PieOf(Buckets(Filled(acts), InteractionAxis))
      && r.value.keyApp == PieOf(Buckets(Filled(acts), KeyAppAxis))
    ensures r.Some? && (forall a :: a in Filled(acts) ==> a.interaction in InteractionTypes) ==>
      Sum(r.value.interaction.values) == r.value.layout.totalTime
  {
    var filled := Filled(acts);
    FilledEmptyIff(acts);
    if |filled| == 0 {
      return None;
    }
    var layout := RenderMap(filled, meta);
    var alp, interaction, keyApp := UpdateCharts(filled);
    if forall a :: a in filled ==> a.interaction in InteractionTypes {
      InteractionChartMatchesMap(filled);
    }
    r := Some(Output(layout, alp, interaction, keyApp));
  }
}
