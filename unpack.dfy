/** The series part of `unpackJSON` (static/script.js): pull
    `[timestamps, values]` pairs out of the server's per-table row arrays,
    scale reliability and cost, and staircase-fill the step-valued series. */
module Unpack {
  import opened JsValues
  import opened Staircase
  import opened CostPerGpu
  import opened Seqs

  /** One row of each `*_ts` table, with the fields the script reads. */
  datatype ReliabilityRow = ReliabilityRow(timestamp: int, reliability: real)
  datatype RentRow = RentRow(timestamp: int, numGpusRented: real)
  datatype CostRow = CostRow(timestamp: int, dphBase: real)
  datatype HardwareRow = HardwareRow(timestamp: int, numGpus: real)

  /** The parsed JSON object, restricted to the four tables read here. */
  datatype Payload = Payload(reliabilityTs: seq<ReliabilityRow>, rentTs: seq<RentRow>,
                             costTs: seq<CostRow>, hardwareTs: seq<HardwareRow>)

  /** Reliability is stored in percent; the chart wants a fraction. */
  function ReliabilitySeries(rows: seq<ReliabilityRow>): (s: Series)
    ensures |s.ts| == |s.vals| == |rows|
    ensures forall i :: 0 <= i < |rows| ==>
      s.ts[i] == Ts(rows[i].timestamp) && s.vals[i] == Finite(rows[i].reliability / 100.0)
  {
    Series(seq(|rows|, i requires 0 <= i < |rows| => Ts(rows[i].timestamp)),
           seq(|rows|, i requires 0 <= i < |rows| => Finite(rows[i].reliability / 100.0)))
  }

  function RentRaw(rows: seq<RentRow>): (d: RawSeries)
    ensures |d.ts| == |d.vals| == |rows|
    ensures forall i :: 0 <= i < |rows| ==>
      d.ts[i] == rows[i].timestamp && d.vals[i] == rows[i].numGpusRented
  {
    RawSeries(seq(|rows|, i requires 0 <= i < |rows| => rows[i].timestamp),
              seq(|rows|, i requires 0 <= i < |rows| => rows[i].numGpusRented))
  }

  /** The base price per hour is stored in thousandths. */
  function CostRaw(rows: seq<CostRow>): (d: RawSeries)
    ensures |d.ts| == |d.vals| == |rows|
    ensures forall i :: 0 <= i < |rows| ==>
      d.ts[i] == rows[i].timestamp && d.vals[i] == rows[i].dphBase / 1000.0
  {
    RawSeries(seq(|rows|, i requires 0 <= i < |rows| => rows[i].timestamp),
              seq(|rows|, i requires 0 <= i < |rows| => rows[i].dphBase / 1000.0))
  }

  function GpusRaw(rows: seq<HardwareRow>): (d: RawSeries)
    ensures |d.ts| == |d.vals| == |rows|
    ensures forall i :: 0 <= i < |rows| ==>
      d.ts[i] == rows[i].timestamp && d.vals[i] == rows[i].numGpus
  {
    RawSeries(seq(|rows|, i requires 0 <= i < |rows| => rows[i].timestamp),
              seq(|rows|, i requires 0 <= i < |rows| => rows[i].numGpus))
  }

  /** `ts` after the four assignments and the three staircase fills: a
      property keeps its place when it is reassigned. */
  function UnpackSeries(p: Payload): (t: Table)
    ensures Keys(t) == ["reliability", "rent", "cost", "num_gpus"]
    ensures forall i :: 0 <= i < |t| ==> |t[i].series.ts| == |t[i].series.vals|
  {
    [Entry("reliability", ReliabilitySeries(p.reliabilityTs)),
     Entry("rent", Staircase.Staircase(RentRaw(p.rentTs))),
     Entry("cost", Staircase.Staircase(CostRaw(p.costTs))),
     Entry("num_gpus", Staircase.Staircase(GpusRaw(p.hardwareTs)))]
  }

  /** Four properties, once each, in assignment order. */
  lemma UnpackKeys(p: Payload)
    ensures Keys(UnpackSeries(p)) == ["reliability", "rent", "cost", "num_gpus"]
    ensures WellKeyed(UnpackSeries(p))
  {
    var t := UnpackSeries(p);
    assert Keys(t) == [t[0].key, t[1].key, t[2].key, t[3].key];
  }

  /** Reliability is not staircased: one point per row, scaled to a fraction. */
  lemma UnpackReliability(p: Payload)
    ensures var s := UnpackSeries(p)[0].series; var rows := p.reliabilityTs;
      && |s.ts| == |s.vals| == |rows|
      && forall i :: 0 <= i < |rows| ==>
           s.ts[i] == Ts(rows[i].timestamp) && s.vals[i] == Finite(rows[i].reliability / 100.0)
  {
  }

  /** With n >= 1 cost rows the cost series has 2n-1 points; each row gives a
      point at its timestamp and one just before the next row's, both at the
      row's price divided by 1000. */
  lemma UnpackCost(p: Payload)
    requires |p.costTs| >= 1
    ensures var s := UnpackSeries(p)[2].series; var rows := p.costTs; var n := |rows|;
      && |s.ts| == |s.vals| == 2 * n - 1
      && (forall i :: 0 <= i < n - 1 ==>
            && s.ts[2 * i] == Ts(rows[i].timestamp)
            && s.ts[2 * i + 1] == Ts(rows[i + 1].timestamp - 1)
            && s.vals[2 * i] == s.vals[2 * i + 1] == Finite(rows[i].dphBase / 1000.0))
      && s.ts[2 * n - 2] == Ts(rows[n - 1].timestamp)
      && s.vals[2 * n - 2] == Finite(rows[n - 1].dphBase / 1000.0)
  {
    CostStairs(p.costTs);
  }

  lemma CostStairs(rows: seq<CostRow>)
    requires |rows| >= 1
    ensures var s := Staircase.Staircase(CostRaw(rows)); var n := |rows|;
      && |s.ts| == |s.vals| == 2 * n - 1
      && (forall i :: 0 <= i < n - 1 ==>
            && s.ts[2 * i] == Ts(rows[i].timestamp)
            && s.ts[2 * i + 1] == Ts(rows[i + 1].timestamp - 1)
            && s.vals[2 * i] == s.vals[2 * i + 1] == Finite(rows[i].dphBase / 1000.0))
      && s.ts[2 * n - 2] == Ts(rows[n - 1].timestamp)
      && s.vals[2 * n - 2] == Finite(rows[n - 1].dphBase / 1000.0)
  {
    StaircaseShape(CostRaw(rows));
  }

  /** The rent series is staircased without scaling. */
  lemma UnpackRent(p: Payload)
    requires |p.rentTs| >= 1
    ensures var s := UnpackSeries(p)[1].series; var rows := p.rentTs; var n := |rows|;
      && |s.ts| == |s.vals| == 2 * n - 1
      && (forall i :: 0 <= i < n - 1 ==>
            && s.ts[2 * i] == Ts(rows[i].timestamp)
            && s.ts[2 * i + 1] == Ts(rows[i + 1].timestamp - 1)
            && s.vals[2 * i] == s.vals[2 * i + 1] == Finite(rows[i].numGpusRented))
      && s.ts[2 * n - 2] == Ts(rows[n - 1].timestamp)
      && s.vals[2 * n - 2] == Finite(rows[n - 1].numGpusRented)
  {
    RentStairs(p.rentTs);
  }

  lemma RentStairs(rows: seq<RentRow>)
    requires |rows| >= 1
    ensures var s := Staircase.Staircase(RentRaw(rows)); var n := |rows|;
      && |s.ts| == |s.vals| == 2 * n - 1
      && (forall i :: 0 <= i < n - 1 ==>
            && s.ts[2 * i] == Ts(rows[i].timestamp)
            && s.ts[2 * i + 1] == Ts(rows[i + 1].timestamp - 1)
            && s.vals[2 * i] == s.vals[2 * i + 1] == Finite(rows[i].numGpusRented))
      && s.ts[2 * n - 2] == Ts(rows[n - 1].timestamp)
      && s.vals[2 * n - 2] == Finite(rows[n - 1].numGpusRented)
  {
    StaircaseShape(RentRaw(rows));
  }

  /** The GPU-count series is staircased without scaling. */
  lemma UnpackGpus(p: Payload)
    requires |p.hardwareTs| >= 1
    ensures var s := UnpackSeries(p)[3].series; var rows := p.hardwareTs; var n := |rows|;
      && |s.ts| == |s.vals| == 2 * n - 1
      && (forall i :: 0 <= i < n - 1 ==>
            && s.ts[2 * i] == Ts(rows[i].timestamp)
            && s.ts[2 * i + 1] == Ts(rows[i + 1].timestamp - 1)
            && s.vals[2 * i] == s.vals[2 * i + 1] == Finite(rows[i].numGpus))
      && s.ts[2 * n - 2] == Ts(rows[n - 1].timestamp)
      && s.vals[2 * n - 2] == Finite(rows[n - 1].numGpus)
  {
    GpusStairs(p.hardwareTs);
  }

  lemma GpusStairs(rows: seq<HardwareRow>)
    requires |rows| >= 1
    ensures var s := Staircase.Staircase(GpusRaw(rows)); var n := |rows|;
      && |s.ts| == |s.vals| == 2 * n - 1
      && (forall i :: 0 <= i < n - 1 ==>
            && s.ts[2 * i] == Ts(rows[i].timestamp)
            && s.ts[2 * i + 1] == Ts(rows[i + 1].timestamp - 1)
            && s.vals[2 * i] == s.vals[2 * i + 1] == Finite(rows[i].numGpus))
      && s.ts[2 * n - 2] == Ts(rows[n - 1].timestamp)
      && s.vals[2 * n - 2] == Finite(rows[n - 1].numGpus)
  {
    StaircaseShape(GpusRaw(rows));
  }

  /** An empty table still yields a one-point series of undefined values. */
  lemma UnpackEmptyCost(p: Payload)
    requires |p.costTs| == 0
    ensures UnpackSeries(p)[2].series == Series([NoStamp], [Undefined])
  {
    assert CostRaw(p.costTs) == RawSeries([], []);
    StaircaseEmpty();
  }

  /** A reliability of 9950 becomes 99.5 and a base price of 1234 becomes 1.234. */
  lemma UnpackScalingExample()
    ensures UnpackSeries(Payload([ReliabilityRow(7, 9950.0)], [], [CostRow(7, 1234.0)], []))[0].series
         == Series([Ts(7)], [Finite(99.5)])
    ensures UnpackSeries(Payload([ReliabilityRow(7, 9950.0)], [], [CostRow(7, 1234.0)], []))[2].series
         == Series([Ts(7)], [Finite(1.234)])
  {
    var p := Payload([ReliabilityRow(7, 9950.0)], [], [CostRow(7, 1234.0)], []);
    ReliabilityExample();
    CostExample();
    assert UnpackSeries(p)[0].series == ReliabilitySeries(p.reliabilityTs);
    assert UnpackSeries(p)[2].series == Staircase.Staircase(CostRaw(p.costTs));
  }

  lemma ReliabilityExample()
    ensures ReliabilitySeries([ReliabilityRow(7, 9950.0)]) == Series([Ts(7)], [Finite(99.5)])
  {
  }

  lemma CostExample()
    ensures Staircase.Staircase(CostRaw([CostRow(7, 1234.0)])) == Series([Ts(7)], [Finite(1.234)])
  {
    assert CostRaw([CostRow(7, 1234.0)]) == RawSeries([7], [1.234]);
    StaircaseSinglePoint(7, 1.234);
  }

  /** The unpacked object always has both properties `costPerGPU` reads, so
      it does not throw there, and leaves reliability, rent and cost. */
  lemma UnpackThenCostPerGpu(p: Payload)
    ensures CostPerGpuSpec(UnpackSeries(p)).Ok?
    ensures Keys(CostPerGpuSpec(UnpackSeries(p)).value) == ["reliability", "rent", "cost"]
  {
    var t := UnpackSeries(p);
    UnpackKeys(p);
    assert t[2].key == Keys(t)[2] && t[3].key == Keys(t)[3];
    CostPerGpuDropsLast(t);
    KeyNamesPrefix();
  }

  lemma KeyNamesPrefix()
    ensures ["reliability", "rent", "cost", "num_gpus"][..3] == ["reliability", "rent", "cost"]
  {
  }
}
