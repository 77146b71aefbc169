/** `staircaseFill` (static/script.js:41-60): turns a step-valued series into
    the points of a staircase line by repeating each value just before the
    next sample's timestamp. */
module Staircase {
  import opened JsValues

  /** A series as it is unpacked from the payload: integer timestamps and
      the numbers of the JSON records. */
  datatype RawSeries = RawSeries(ts: seq<int>, vals: seq<real>)

  /** `vals[i]` on the unpacked value array. */
  function RawAt(vals: seq<real>, i: int): (v: Value)
    ensures 0 <= i < |vals| ==> v == Finite(vals[i])
    ensures !(0 <= i < |vals|) ==> v == Undefined
  {
    if 0 <= i < |vals| then Finite(vals[i]) else Undefined
  }

  /** `ts.at(-1)` on the unpacked timestamp array. */
  function LastStamp(ts: seq<int>): (s: Stamp)
    ensures |ts| > 0 ==> s == Ts(ts[|ts| - 1])
    ensures |ts| == 0 ==> s == NoStamp
  {
    if |ts| > 0 then Ts(ts[|ts| - 1]) else NoStamp
  }

  /** How often the loop body runs: `ts.length - 1` times, never negative. */
  function Pairs(d: RawSeries): nat {
    if |d.ts| == 0 then 0 else |d.ts| - 1
  }

  /** The timestamps pushed by the first `i` loop iterations. */
  function StairTs(ts: seq<int>, i: nat): (r: seq<Stamp>)
    requires i < |ts| || i == 0
    ensures |r| == 2 * i
  {
    if i == 0 then [] else StairTs(ts, i - 1) + [Ts(ts[i - 1]), Ts(ts[i] - 1)]
  }

  /** The values pushed by the first `i` loop iterations. */
  function StairVals(vals: seq<real>, i: nat): (r: seq<Value>)
    ensures |r| == 2 * i
  {
    if i == 0 then [] else StairVals(vals, i - 1) + [RawAt(vals, i - 1), RawAt(vals, i - 1)]
  }

  /** What `staircaseFill(data)` returns. */
  function Staircase(d: RawSeries): (r: Series)
    ensures |r.ts| == |r.vals| == 2 * Pairs(d) + 1
    ensures r.ts[2 * Pairs(d)] == LastStamp(d.ts)
    ensures r.vals[2 * Pairs(d)] == RawAt(d.vals, |d.vals| - 1)
  {
    Series(StairTs(d.ts, Pairs(d)) + [LastStamp(d.ts)],
           StairVals(d.vals, Pairs(d)) + [RawAt(d.vals, |d.vals| - 1)])
  }

  /** The loop of the source, pushing into fresh arrays. */
  method StaircaseFill(data: RawSeries) returns (filled: Series)
    ensures filled == Staircase(data)
    ensures |filled.ts| == |filled.vals| == 2 * Pairs(data) + 1
  {
    var ts, vals := data.ts, data.vals;
    var tsFilled: seq<Stamp> := [];
    var valsFilled: seq<Value> := [];
    var i := 0;
    while i < |ts| - 1
      invariant 0 <= i <= Pairs(data)
      invariant tsFilled == StairTs(ts, i)
      invariant valsFilled == StairVals(vals, i)
    {
      tsFilled := tsFilled + [Ts(ts[i])];
      tsFilled := tsFilled + [Ts(ts[i + 1] - 1)];
      valsFilled := valsFilled + [RawAt(vals, i)];
      valsFilled := valsFilled + [RawAt(vals, i)];
      i := i + 1;
    }
    tsFilled := tsFilled + [LastStamp(ts)];
    valsFilled := valsFilled + [RawAt(vals, |vals| - 1)];
    filled := Series(tsFilled, valsFilled);
  }

  lemma {:induction false} StairTsAt(ts: seq<int>, i: nat, k: nat)
    requires i < |ts| && k < i
    ensures StairTs(ts, i)[2 * k] == Ts(ts[k])
    ensures StairTs(ts, i)[2 * k + 1] == Ts(ts[k + 1] - 1)
  {
    if k < i - 1 {
      StairTsAt(ts, i - 1, k);
    }
  }

  lemma {:induction false} StairValsAt(vals: seq<real>, i: nat, k: nat)
    requires k < i
    ensures StairVals(vals, i)[2 * k] == RawAt(vals, k)
    ensures StairVals(vals, i)[2 * k + 1] == RawAt(vals, k)
  {
    if k < i - 1 {
      StairValsAt(vals, i - 1, k);
    }
  }

  /** For n >= 1 input points: 2n-1 output points; positions 2i and 2i+1 hold
      `(ts[i], vals[i])` and `(ts[i+1]-1, vals[i])`; the last position holds
      the final input point. */
  lemma StaircaseShape(d: RawSeries)
    requires |d.ts| == |d.vals| >= 1
    ensures var r := Staircase(d); var n := |d.ts|;
      && |r.ts| == 2 * n - 1 && |r.vals| == 2 * n - 1
      && (forall i :: 0 <= i < n - 1 ==>
            && r.ts[2 * i] == Ts(d.ts[i]) && r.vals[2 * i] == Finite(d.vals[i])
            && r.ts[2 * i + 1] == Ts(d.ts[i + 1] - 1) && r.vals[2 * i + 1] == Finite(d.vals[i]))
      && r.ts[2 * n - 2] == Ts(d.ts[n - 1]) && r.vals[2 * n - 2] == Finite(d.vals[n - 1])
  {
    var r := Staircase(d);
    var n := |d.ts|;
    forall i | 0 <= i < n - 1
      ensures r.ts[2 * i] == Ts(d.ts[i]) && r.vals[2 * i] == Finite(d.vals[i])
      ensures r.ts[2 * i + 1] == Ts(d.ts[i + 1] - 1) && r.vals[2 * i + 1] == Finite(d.vals[i])
    {
      StairTsAt(d.ts, n - 1, i);
      StairValsAt(d.vals, n - 1, i);
    }
  }

  /** A one-point series comes back unchanged. */
  lemma StaircaseSinglePoint(t: int, v: real)
    ensures Staircase(RawSeries([t], [v])) == Series([Ts(t)], [Finite(v)])
  {
  }

  /** An empty series becomes one undefined point (`[].at(-1)`), not an error. */
  lemma StaircaseEmpty()
    ensures Staircase(RawSeries([], [])) == Series([NoStamp], [Undefined])
  {
  }

  /** Strictly increasing input timestamps give non-decreasing output
      timestamps: each inserted point lies between the two samples around it. */
  lemma StaircaseMonotone(d: RawSeries)
    requires |d.ts| == |d.vals| >= 1
    requires forall i :: 0 <= i < |d.ts| - 1 ==> d.ts[i] < d.ts[i + 1]
    ensures var r := Staircase(d);
      forall i :: 0 <= i < |d.ts| - 1 ==>
        && r.ts[2 * i].Ts? && r.ts[2 * i + 1].Ts? && r.ts[2 * i + 2].Ts?
        && r.ts[2 * i].t <= r.ts[2 * i + 1].t <= r.ts[2 * i + 2].t
  {
    var r := Staircase(d);
    var n := |d.ts|;
    forall i | 0 <= i < n - 1
      ensures && r.ts[2 * i].Ts? && r.ts[2 * i + 1].Ts? && r.ts[2 * i + 2].Ts?
              && r.ts[2 * i].t <= r.ts[2 * i + 1].t <= r.ts[2 * i + 2].t
    {
      StairTsAt(d.ts, n - 1, i);
      if i < n - 2 {
        StairTsAt(d.ts, n - 1, i + 1);
      }
    }
  }

  lemma StaircaseExample()
    ensures Staircase(RawSeries([0, 10, 20], [5.0, 5.0, 7.0]))
         == Series([Ts(0), Ts(9), Ts(10), Ts(19), Ts(20)],
                   [Finite(5.0), Finite(5.0), Finite(5.0), Finite(5.0), Finite(7.0)])
  {
    var d := RawSeries([0, 10, 20], [5.0, 5.0, 7.0]);
    assert StairTs(d.ts, 2) == [Ts(0), Ts(9), Ts(10), Ts(19)];
    assert StairVals(d.vals, 2) == [Finite(5.0), Finite(5.0), Finite(5.0), Finite(5.0)];
  }
}
