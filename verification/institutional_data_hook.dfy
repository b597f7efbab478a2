/**
 * The institutional-view hook: each chart's parallel `labels` and `data`
 * arrays zipped into name/value points. The fetch and the React state are
 * not part of this model.
 */
module InstitutionalDataHook {
  import opened JsValues

  datatype ChartPoint = ChartPoint(name: Js, value: Js)

  /** `data[i] || 0`: a missing, zero or NaN entry becomes 0. */
  function ValueAt(data: seq<Js>, i: nat): (v: Js)
    ensures i < |data| && JsTruthy(data[i]) ==> v == data[i]
    ensures !(i < |data| && JsTruthy(data[i])) ==> v == JsNum(0.0, "0")
  {
    if i < |data| && JsTruthy(data[i]) then data[i] else JsNum(0.0, "0")
  }

  /** `mapChartData`: one point per label, in label order. */
  function MapChartData(labels: seq<Js>, data: seq<Js>): (ps: seq<ChartPoint>)
    ensures |ps| == |labels|
    ensures forall i :: 0 <= i < |labels| ==> ps[i].name == labels[i] && ps[i].value == ValueAt(data, i)
  {
    seq(|labels|, i requires 0 <= i < |labels| => ChartPoint(labels[i], ValueAt(data, i)))
  }

  /** Every point has a defined value: the data entry when it is truthy, otherwise the number 0. */
  lemma ChartValuesDefined(labels: seq<Js>, data: seq<Js>)
    ensures forall p :: p in MapChartData(labels, data) ==> JsTruthy(p.value) || p.value == JsNum(0.0, "0")
  {
  }

  /** Data entries beyond the labels are ignored, and missing ones read as 0. */
  lemma ExtraDataIgnored(labels: seq<Js>, data: seq<Js>, extra: seq<Js>)
    ensures MapChartData(labels, data) == MapChartData(labels, data + extra) || |data| < |labels|
    ensures |data| >= |labels| ==> MapChartData(labels, data) == MapChartData(labels, data[..|labels|])
    ensures MapChartData(labels, []) == seq(|labels|, i requires 0 <= i < |labels| => ChartPoint(labels[i], JsNum(0.0, "0")))
  {
  }

  datatype Series = Series(labels: seq<Js>, data: seq<Js>)

  datatype StatsResponse = StatsResponse(topBarriers: Series, laptopImpact: Series, parentEducationImpact: Series)

  datatype InstitutionalStats = InstitutionalStats(topBarriers: seq<ChartPoint>, laptopImpact: seq<ChartPoint>,
                                                   parentEducationImpact: seq<ChartPoint>)

  /** The `formattedData` assembly: each chart is built from its own labels and data only. */
  function FormattedData(r: StatsResponse): (st: InstitutionalStats)
    ensures |st.topBarriers| == |r.topBarriers.labels|
    ensures |st.laptopImpact| == |r.laptopImpact.labels|
    ensures |st.parentEducationImpact| == |r.parentEducationImpact.labels|
    ensures forall i :: 0 <= i < |r.topBarriers.labels| ==>
      st.topBarriers[i] == ChartPoint(r.topBarriers.labels[i], ValueAt(r.topBarriers.data, i))
    ensures forall i :: 0 <= i < |r.laptopImpact.labels| ==>
      st.laptopImpact[i] == ChartPoint(r.laptopImpact.labels[i], ValueAt(r.laptopImpact.data, i))
    ensures forall i :: 0 <= i < |r.parentEducationImpact.labels| ==>
      st.parentEducationImpact[i] == ChartPoint(r.parentEducationImpact.labels[i], ValueAt(r.parentEducationImpact.data, i))
  {
    InstitutionalStats(MapChartData(r.topBarriers.labels, r.topBarriers.data),
                       MapChartData(r.laptopImpact.labels, r.laptopImpact.data),
                       MapChartData(r.parentEducationImpact.labels, r.parentEducationImpact.data))
  }

  /** Changing one chart's series changes no other chart. */
  lemma SeriesIndependent(r: StatsResponse, s: Series)
    ensures FormattedData(r.(topBarriers := s)).laptopImpact == FormattedData(r).laptopImpact
    ensures FormattedData(r.(topBarriers := s)).parentEducationImpact == FormattedData(r).parentEducationImpact
    ensures FormattedData(r.(laptopImpact := s)).topBarriers == FormattedData(r).topBarriers
    ensures FormattedData(r.(laptopImpact := s)).parentEducationImpact == FormattedData(r).parentEducationImpact
    ensures FormattedData(r.(parentEducationImpact := s)).topBarriers == FormattedData(r).topBarriers
    ensures FormattedData(r.(parentEducationImpact := s)).laptopImpact == FormattedData(r).laptopImpact
  {
  }
}
