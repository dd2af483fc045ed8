/** The protocol comparison page of src/components/ProtocolComparison.js:
    the fixed metrics table, the selection of up to three protocols that
    the buttons toggle, and the radar and scalability chart datasets, one
    per selected protocol. Math.log is a parameter. */
module Comparison {
  import opened Protocols

  /** A protocol's published scores. */
  datatype Metrics = Metrics(
    energyEfficiency: real,
    deliveryRatio: real,
    delay: real,
    scalability: real,
    controlOverhead: real,
    networkLifetime: real)

  function MetricsOf(p: Protocol): Metrics {
    match p
    case VBF => Metrics(75.0, 93.2, 156.0, 72.0, 84.0, 80.0)
    case DBR => Metrics(70.0, 91.7, 187.0, 80.0, 63.0, 65.0)
    case EEDBR => Metrics(83.0, 89.5, 201.0, 75.0, 58.0, 75.0)
    case OLSR => Metrics(60.0, 95.8, 143.0, 65.0, 90.0, 55.0)
    case HHVBF => Metrics(78.0, 91.8, 168.0, 68.0, 80.0, 72.0)
  }

  /** The most protocols that can be compared at once. */
  const MaxSelected: nat := 3

  predicate Distinct(sel: seq<Protocol>) {
    forall i, j :: 0 <= i < j < |sel| ==> sel[i] != sel[j]
  }

  predicate ValidSelection(sel: seq<Protocol>) {
    |sel| <= MaxSelected && Distinct(sel)
  }

  // ---------------------------------------------------------------------
  // Toggling
  // ---------------------------------------------------------------------

  /** selectedProtocols.filter(q => q !== p) */
  function Without(sel: seq<Protocol>, p: Protocol): (r: seq<Protocol>)
    ensures p !in r
    ensures forall q :: q != p ==> (q in r <==> q in sel)
    ensures |r| <= |sel|
  {
    if sel == [] then []
    else if sel[0] == p then Without(sel[1..], p)
    else [sel[0]] + Without(sel[1..], p)
  }

  /** toggleProtocol: a selected protocol is removed; an unselected one is
      appended when there is room and ignored otherwise. */
  function Toggled(sel: seq<Protocol>, p: Protocol): seq<Protocol> {
    if p in sel then Without(sel, p)
    else if |sel| < MaxSelected then sel + [p]
    else sel
  }

  /** Removing a protocol that occurs once at index k closes the gap and
      keeps the others in their order. */
  lemma {:induction false} WithoutAt(sel: seq<Protocol>, p: Protocol, k: nat)
    requires Distinct(sel) && k < |sel| && sel[k] == p
    ensures Without(sel, p) == sel[..k] + sel[k + 1..]
  {
    if k == 0 {
      WithoutAbsent(sel[1..], p);
    } else {
      WithoutAt(sel[1..], p, k - 1);
      assert sel[1..][..k - 1] == sel[1..k];
      assert sel[1..][k..] == sel[k + 1..];
      assert sel[..k] == [sel[0]] + sel[1..k];
    }
  }

  lemma {:induction false} WithoutAbsent(sel: seq<Protocol>, p: Protocol)
    requires p !in sel
    ensures Without(sel, p) == sel
  {
    if sel != [] {
      WithoutAbsent(sel[1..], p);
      assert [sel[0]] + sel[1..] == sel;
    }
  }

  lemma ToggleRemoves(sel: seq<Protocol>, p: Protocol, k: nat)
    requires Distinct(sel) && k < |sel| && sel[k] == p
    ensures Toggled(sel, p) == sel[..k] + sel[k + 1..]
  {
    WithoutAt(sel, p, k);
  }

  lemma ToggleAppends(sel: seq<Protocol>, p: Protocol)
    requires p !in sel && |sel| < MaxSelected
    ensures Toggled(sel, p) == sel + [p]
  {
  }

  lemma ToggleWhenFull(sel: seq<Protocol>, p: Protocol)
    requires p !in sel && |sel| >= MaxSelected
    ensures Toggled(sel, p) == sel
  {
  }

  /** A protocol is selected after the toggle exactly when it was not
      selected before and there was room; no other protocol changes. */
  lemma ToggleMembership(sel: seq<Protocol>, p: Protocol, q: Protocol)
    ensures p in Toggled(sel, p) <==> p !in sel && |sel| < MaxSelected
    ensures q != p ==> (q in Toggled(sel, p) <==> q in sel)
  {
  }

  lemma {:induction false} WithoutDistinct(sel: seq<Protocol>, p: Protocol)
    requires Distinct(sel)
    ensures Distinct(Without(sel, p))
  {
    if sel != [] {
      WithoutDistinct(sel[1..], p);
      if sel[0] != p {
        var rest := Without(sel[1..], p);
        assert sel[0] !in sel[1..];
        assert sel[0] !in rest;
        assert Without(sel, p) == [sel[0]] + rest;
      }
    }
  }

  /** At most three, no duplicates: true initially and kept by every toggle. */
  lemma TogglePreservesValid(sel: seq<Protocol>, p: Protocol)
    requires ValidSelection(sel)
    ensures ValidSelection(Toggled(sel, p))
  {
    if p in sel {
      WithoutDistinct(sel, p);
    }
  }

  /** Toggling an unselected protocol twice, when there is room, restores
      the selection. */
  lemma ToggleTwice(sel: seq<Protocol>, p: Protocol)
    requires Distinct(sel) && p !in sel && |sel| < MaxSelected
    ensures Toggled(Toggled(sel, p), p) == sel
  {
    var added := sel + [p];
    assert Distinct(added);
    ToggleRemoves(added, p, |sel|);
    assert added[..|sel|] == sel;
  }

  // ---------------------------------------------------------------------
  // Chart datasets
  // ---------------------------------------------------------------------

  /** The three dataset colours, by position in the selection. */
  const Colours: seq<string> := ["rgba(0, 255, 0, 0.8)", "rgba(136, 255, 136, 0.8)", "rgba(0, 170, 0, 0.8)"]

  /** The scalability lines' colours, by position in the selection. */
  const LineColours: seq<string> := ["#00ff00", "#88ff88", "#00aa00"]

  datatype Dataset = Dataset(protocol: Protocol, data: seq<real>, colour: string)

  /** The six radar axes; delay is turned into "low delay" as 100 - delay/4. */
  function RadarValues(m: Metrics): (v: seq<real>)
    ensures |v| == 6
  {
    [m.energyEfficiency, m.deliveryRatio, 100.0 - m.delay / 4.0,
     m.scalability, m.controlOverhead, m.networkLifetime]
  }

  /** One radar dataset per selected protocol, in selection order. The colour
      table has three entries, so the selection may hold at most three. */
  function RadarDatasets(sel: seq<Protocol>): (r: seq<Dataset>)
    requires |sel| <= MaxSelected
    ensures |r| == |sel|
    ensures forall i :: 0 <= i < |sel| ==>
      r[i].protocol == sel[i] && r[i].colour == Colours[i] &&
      r[i].data == RadarValues(MetricsOf(sel[i]))
  {
    seq(|sel|, i requires 0 <= i < |sel| => Dataset(sel[i], RadarValues(MetricsOf(sel[i])), Colours[i]))
  }

  /** Every radar value lies on the chart's 0-100 scale. */
  lemma RadarValuesOnScale(sel: seq<Protocol>)
    requires |sel| <= MaxSelected
    ensures forall i, k :: 0 <= i < |sel| && 0 <= k < 6 ==>
      0.0 <= RadarDatasets(sel)[i].data[k] <= 100.0
  {
    forall i, k | 0 <= i < |sel| && 0 <= k < 6
      ensures 0.0 <= RadarDatasets(sel)[i].data[k] <= 100.0
    {
      MetricsOnScale(sel[i]);
    }
  }

  lemma MetricsOnScale(p: Protocol)
    ensures var v := RadarValues(MetricsOf(p));
      forall k :: 0 <= k < 6 ==> 0.0 <= v[k] <= 100.0
    ensures 50.0 <= MetricsOf(p).deliveryRatio <= 100.0
    ensures 0.0 <= MetricsOf(p).scalability <= 100.0
  {
  }

  /** The network sizes on the scalability chart's x axis. */
  const NodeSteps: seq<real> := [20.0, 40.0, 60.0, 80.0, 100.0, 120.0, 140.0]

  /** baseDeliveryRatio * (1 - decay), floored at 50, with decay
      (1 - scalability/100) * ln(nodes/20) * 0.1. */
  function ScalabilityPoint(m: Metrics, nodes: real, ln: real -> real): real {
    var decay := (1.0 - m.scalability / 100.0) * ln(nodes / 20.0) * 0.1;
    var v := m.deliveryRatio * (1.0 - decay);
    if v > 50.0 then v else 50.0
  }

  function ScalabilityPoints(p: Protocol, ln: real -> real): (v: seq<real>)
    ensures |v| == |NodeSteps| == 7
    ensures forall k :: 0 <= k < 7 ==> v[k] == ScalabilityPoint(MetricsOf(p), NodeSteps[k], ln)
  {
    seq(7, k requires 0 <= k < 7 => ScalabilityPoint(MetricsOf(p), NodeSteps[k], ln))
  }

  function ScalabilityDatasets(sel: seq<Protocol>, ln: real -> real): (r: seq<Dataset>)
    requires |sel| <= MaxSelected
    ensures |r| == |sel|
    ensures forall i :: 0 <= i < |sel| ==>
      r[i].protocol == sel[i] && r[i].colour == LineColours[i] && r[i].data == ScalabilityPoints(sel[i], ln)
  {
    seq(|sel|, i requires 0 <= i < |sel| => Dataset(sel[i], ScalabilityPoints(sel[i], ln), LineColours[i]))
  }

  /** Every scalability point is at least 50. Where the logarithm is not
      negative, no point exceeds the base delivery ratio, and where
      ln(1) = 0 the first point is the base delivery ratio itself. */
  lemma ScalabilityBounds(p: Protocol, ln: real -> real, k: nat)
    requires k < 7
    ensures 50.0 <= ScalabilityPoints(p, ln)[k]
    ensures ln(NodeSteps[k] / 20.0) >= 0.0 ==> ScalabilityPoints(p, ln)[k] <= MetricsOf(p).deliveryRatio
    ensures ln(1.0) == 0.0 ==> ScalabilityPoints(p, ln)[0] == MetricsOf(p).deliveryRatio
  {
    var m := MetricsOf(p);
    MetricsOnScale(p);
    var l := ln(NodeSteps[k] / 20.0);
    if l >= 0.0 {
      var f := 1.0 - m.scalability / 100.0;
      assert 0.0 <= f * l * 0.1;
      assert m.deliveryRatio * (1.0 - f * l * 0.1) <= m.deliveryRatio;
    }
    assert NodeSteps[0] / 20.0 == 1.0;
  }

  // ---------------------------------------------------------------------
  // The component
  // ---------------------------------------------------------------------

  class Selection {
    var selected: seq<Protocol>

    predicate Valid()
      reads this
    {
      ValidSelection(selected)
    }

    /** The page opens comparing VBF, DBR and OLSR. */
    constructor()
      ensures selected == [VBF, DBR, OLSR]
      ensures Valid()
    {
      selected := [VBF, DBR, OLSR];
    }

    /** toggleProtocol. */
    method Toggle(p: Protocol)
      requires Valid()
      modifies this
      ensures selected == Toggled(old(selected), p)
      ensures Valid()
    {
      if p in selected {
        selected := Without(selected, p);
      } else if |selected| < MaxSelected {
        selected := selected + [p];
      }
      TogglePreservesValid(old(selected), p);
    }
  }
}
