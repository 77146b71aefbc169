/** `fillMissingValues` (static/script.js:138-182): puts every series of the
    object onto one shared timestamp axis and forward-fills the gaps. */
module Align {
  import opened Decimal
  import opened Seqs
  import opened JsValues
  import opened JsCompare

  /** No element sorts before an element to its left. */
  predicate SortedStamps(s: seq<Stamp>) {
    forall i, j :: 0 <= i < j < |s| ==> !StampLess(s[j], s[i])
  }

  /** Inserts `x` in front of the first element that does not sort before it. */
  function Insert(x: Stamp, s: seq<Stamp>): (r: seq<Stamp>)
    ensures |r| == |s| + 1
    ensures multiset(r) == multiset(s) + multiset{x}
  {
    if |s| == 0 then [x]
    else if StampLess(s[0], x) then
      assert s == [s[0]] + s[1..];
      [s[0]] + Insert(x, s[1..])
    else [x] + s
  }

  lemma {:induction false} InsertDistinct(x: Stamp, s: seq<Stamp>)
    requires Distinct(s) && x !in s
    ensures Distinct(Insert(x, s))
  {
    if |s| > 0 {
      if StampLess(s[0], x) {
        assert s == [s[0]] + s[1..];
        InsertDistinct(x, s[1..]);
        var r' := Insert(x, s[1..]);
        assert s[0] !in multiset(s[1..]) + multiset{x};
        DistinctCons(s[0], r');
      } else {
        DistinctCons(x, s);
      }
    }
  }

  lemma {:induction false} InsertSorted(x: Stamp, s: seq<Stamp>)
    requires SortedStamps(s)
    ensures SortedStamps(Insert(x, s))
  {
    var r := Insert(x, s);
    if |s| > 0 {
      if StampLess(s[0], x) {
        InsertSorted(x, s[1..]);
        var r' := Insert(x, s[1..]);
        forall k | 0 <= k < |r'|
          ensures !StampLess(r'[k], s[0])
        {
          assert r'[k] in multiset(r');
          if r'[k] == x {
            StampLessAsymmetric(s[0], x);
          } else {
            assert r'[k] in multiset(s[1..]);
            var m :| 0 <= m < |s[1..]| && s[1..][m] == r'[k];
            assert s[m + 1] == r'[k];
          }
        }
        assert r == [s[0]] + r';
      } else {
        forall k | 0 <= k < |s|
          ensures !StampLess(s[k], x)
        {
          if k > 0 {
            StampNotLessTransitive(s[k], s[0], x);
          }
        }
      }
    }
  }

  /** `arr.sort()` with no comparator, on an array of distinct timestamps.
      Elements that differ never compare equal under this order, so every
      correct sorting algorithm gives this same arrangement. */
  function Sort(s: seq<Stamp>): (r: seq<Stamp>)
    ensures |r| == |s|
    ensures multiset(r) == multiset(s)
    ensures SortedStamps(r)
    ensures Distinct(s) ==> Distinct(r)
  {
    if |s| == 0 then []
    else
      var rest := Sort(s[1..]);
      assert s == [s[0]] + s[1..];
      InsertSorted(s[0], rest);
      if Distinct(s) then
        assert s[0] !in multiset(rest);
        InsertDistinct(s[0], rest);
        Insert(s[0], rest)
      else Insert(s[0], rest)
  }

  lemma {:induction false} SortOfSorted(s: seq<Stamp>)
    requires SortedStamps(s)
    ensures Sort(s) == s
  {
    if |s| > 0 {
      SortOfSorted(s[1..]);
    }
  }

  /** `timestamps` of the source: the first array of every series, in key order. */
  function TimestampsOf(t: Table): (r: seq<seq<Stamp>>)
    ensures |r| == |t|
    ensures forall i :: 0 <= i < |t| ==> r[i] == t[i].series.ts
  {
    seq(|t|, i requires 0 <= i < |t| => t[i].series.ts)
  }

  function ValuesOf(t: Table): (r: seq<seq<Value>>)
    ensures |r| == |t|
    ensures forall i :: 0 <= i < |t| ==> r[i] == t[i].series.vals
  {
    seq(|t|, i requires 0 <= i < |t| => t[i].series.vals)
  }

  /** `[...new Set(timestamps.flat())].sort()`. */
  function Axis(t: Table): (axis: seq<Stamp>)
    ensures Distinct(axis) && SortedStamps(axis)
  {
    Sort(Dedup(Flat(TimestampsOf(t))))
  }

  /** The values one series gets on `axis`: at each axis timestamp the value
      at the first index where the series has that timestamp, otherwise the
      value filled just before (undefined at the start). */
  function Filled(ts: seq<Stamp>, vals: seq<Value>, axis: seq<Stamp>): (r: seq<Value>)
    ensures |r| == |axis|
    decreases |axis|
  {
    if |axis| == 0 then []
    else
      var prev := Filled(ts, vals, axis[..|axis| - 1]);
      var index := IndexOf(ts, axis[|axis| - 1]);
      prev + [if index != -1 then ValueAt(vals, index) else ValueAt(prev, |prev| - 1)]
  }

  lemma FilledStep(ts: seq<Stamp>, vals: seq<Value>, axis: seq<Stamp>, i: nat)
    requires i < |axis|
    ensures var prev := Filled(ts, vals, axis[..i]);
      var index := IndexOf(ts, axis[i]);
      Filled(ts, vals, axis[..i + 1])
        == prev + [if index != -1 then ValueAt(vals, index) else ValueAt(prev, |prev| - 1)]
  {
    assert axis[..i + 1][..i] == axis[..i];
  }

  /** What `fillMissingValues(timeseries)` returns. */
  function FillSpec(t: Table): (r: Table)
    ensures |r| == |t|
    ensures forall i :: 0 <= i < |t| ==>
      && r[i].key == t[i].key
      && r[i].series.ts == Axis(t)
      && |r[i].series.vals| == |Axis(t)|
  {
    FillWith(t, Axis(t))
  }

  /** Every property of `t` filled onto `axis`. */
  function FillWith(t: Table, axis: seq<Stamp>): (r: Table)
    ensures |r| == |t|
    ensures forall i :: 0 <= i < |t| ==> r[i] == FillEntry(t[i], axis)
  {
    seq(|t|, i requires 0 <= i < |t| => FillEntry(t[i], axis))
  }

  /** One property of the returned object: `[allTimestamps, filledValues[i]]`. */
  function FillEntry(e: Entry, axis: seq<Stamp>): Entry {
    Entry(e.key, Series(axis, Filled(e.series.ts, e.series.vals, axis)))
  }

  /** The nested loops of the source: for each axis timestamp, in order, push
      one value onto every series' filled array. */
  method FillAlongAxis(timestamps: seq<seq<Stamp>>, values: seq<seq<Value>>,
                       allTimestamps: seq<Stamp>, start: seq<seq<Value>>)
    returns (filledValues: seq<seq<Value>>)
    requires |values| == |timestamps| == |start|
    requires forall j :: 0 <= j < |start| ==> start[j] == []
    ensures |filledValues| == |timestamps|
    ensures forall j :: 0 <= j < |timestamps| ==>
      filledValues[j] == Filled(timestamps[j], values[j], allTimestamps)
  {
    var n := |timestamps|;
    filledValues := start;
    var i := 0;
    while i < |allTimestamps|
      invariant 0 <= i <= |allTimestamps|
      invariant |filledValues| == n
      invariant forall j :: 0 <= j < n ==>
        filledValues[j] == Filled(timestamps[j], values[j], allTimestamps[..i])
    {
      var j := 0;
      while j < n
        invariant 0 <= j <= n
        invariant |filledValues| == n
        invariant forall k :: 0 <= k < j ==>
          filledValues[k] == Filled(timestamps[k], values[k], allTimestamps[..i + 1])
        invariant forall k :: j <= k < n ==>
          filledValues[k] == Filled(timestamps[k], values[k], allTimestamps[..i])
      {
        var index := IndexOf(timestamps[j], allTimestamps[i]);
        FilledStep(timestamps[j], values[j], allTimestamps, i);
        if index != -1 {
          filledValues := filledValues[j := filledValues[j] + [ValueAt(values[j], index)]];
        } else {
          var last := ValueAt(filledValues[j], |filledValues[j]| - 1);
          filledValues := filledValues[j := filledValues[j] + [last]];
        }
        j := j + 1;
      }
      i := i + 1;
    }
    assert allTimestamps[..i] == allTimestamps;
  }

  lemma FillSpecFromParts(t: Table, axis: seq<Stamp>, filledValues: seq<seq<Value>>, filledData: Table)
    requires |filledValues| == |t| == |filledData|
    requires forall j :: 0 <= j < |t| ==>
      filledValues[j] == Filled(TimestampsOf(t)[j], ValuesOf(t)[j], axis)
    requires forall k :: 0 <= k < |t| ==>
      filledData[k] == Entry(Keys(t)[k], Series(axis, filledValues[k]))
    ensures filledData == FillWith(t, axis)
  {
    var f := FillWith(t, axis);
    forall k | 0 <= k < |t|
      ensures filledData[k] == f[k]
    {
      assert TimestampsOf(t)[k] == t[k].series.ts && ValuesOf(t)[k] == t[k].series.vals;
    }
  }

  /** The source's loops: collect the arrays, build the axis, then fill
      every series one axis timestamp at a time. */
  method FillMissingValues(timeseries: Table) returns (filledData: Table)
    ensures filledData == FillSpec(timeseries)
  {
    var keys := Keys(timeseries);
    var n := |keys|;
    var filledValues: seq<seq<Value>> := [];
    var i := 0;
    while i < n
      invariant 0 <= i <= n
      invariant |filledValues| == i
      invariant forall j :: 0 <= j < i ==> filledValues[j] == []
    {
      filledValues := filledValues + [[]];
      i := i + 1;
    }

    // keys[i] names entry i of the object
    var timestamps: seq<seq<Stamp>> := [];
    var values: seq<seq<Value>> := [];
    i := 0;
    while i < n
      invariant 0 <= i <= n
      invariant |timestamps| == i && |values| == i
      invariant forall k :: 0 <= k < i ==> timestamps[k] == timeseries[k].series.ts
      invariant forall k :: 0 <= k < i ==> values[k] == timeseries[k].series.vals
    {
      timestamps := timestamps + [timeseries[i].series.ts];
      values := values + [timeseries[i].series.vals];
      i := i + 1;
    }
    assert timestamps == TimestampsOf(timeseries);
    assert values == ValuesOf(timeseries);

    var allTimestamps := Sort(Dedup(Flat(timestamps)));
    filledValues := FillAlongAxis(timestamps, values, allTimestamps, filledValues);

    assert allTimestamps == Axis(timeseries);
    filledData := [];
    i := 0;
    while i < n
      invariant 0 <= i <= n
      invariant |filledData| == i
      invariant forall k :: 0 <= k < i ==>
        filledData[k] == Entry(keys[k], Series(allTimestamps, filledValues[k]))
    {
      filledData := filledData + [Entry(keys[i], Series(allTimestamps, filledValues[i]))];
      i := i + 1;
    }
    FillSpecFromParts(timeseries, allTimestamps, filledValues, filledData);
  }

  lemma {:induction false} FilledPrefix(ts: seq<Stamp>, vals: seq<Value>, axis: seq<Stamp>, i: nat)
    requires i <= |axis|
    ensures Filled(ts, vals, axis)[..i] == Filled(ts, vals, axis[..i])
    decreases |axis|
  {
    if i < |axis| {
      var shorter := axis[..|axis| - 1];
      FilledPrefix(ts, vals, shorter, i);
      assert shorter[..i] == axis[..i];
    } else {
      assert axis[..i] == axis;
    }
  }

  /** The value rule at one axis position: the series' own value at the first
      matching index if it has that timestamp, else the previous filled
      value, and undefined at position 0. */
  lemma FilledAt(ts: seq<Stamp>, vals: seq<Value>, axis: seq<Stamp>, i: nat)
    requires i < |axis|
    ensures var r := Filled(ts, vals, axis);
      r[i] == if axis[i] in ts then ValueAt(vals, IndexOf(ts, axis[i]))
              else if i == 0 then Undefined
              else r[i - 1]
  {
    FilledPrefix(ts, vals, axis, i + 1);
    FilledPrefix(ts, vals, axis, i);
    FilledStep(ts, vals, axis, i);
  }

  /** Forward fill: a position carries the value of the latest earlier axis
      timestamp that the series has. */
  lemma {:induction false} FilledFromLastHit(ts: seq<Stamp>, vals: seq<Value>, axis: seq<Stamp>, j: nat, i: nat)
    requires j <= i < |axis|
    requires axis[j] in ts
    requires forall m :: j < m <= i ==> axis[m] !in ts
    ensures Filled(ts, vals, axis)[i] == ValueAt(vals, IndexOf(ts, axis[j]))
    decreases i
  {
    FilledAt(ts, vals, axis, i);
    if j < i {
      FilledFromLastHit(ts, vals, axis, j, i - 1);
    }
  }

  /** Before the series' first timestamp on the axis the value is undefined. */
  lemma {:induction false} FilledBeforeFirstHit(ts: seq<Stamp>, vals: seq<Value>, axis: seq<Stamp>, i: nat)
    requires i < |axis|
    requires forall m :: 0 <= m <= i ==> axis[m] !in ts
    ensures Filled(ts, vals, axis)[i] == Undefined
    decreases i
  {
    FilledAt(ts, vals, axis, i);
    if i > 0 {
      FilledBeforeFirstHit(ts, vals, axis, i - 1);
    }
  }

  /** The shared axis holds every input timestamp exactly once, and nothing
      else, in default sort order. */
  lemma AxisIsUnion(t: Table)
    ensures var axis := Axis(t);
      && Distinct(axis)
      && SortedStamps(axis)
      && forall x :: x in axis <==> exists i :: 0 <= i < |t| && x in t[i].series.ts
  {
    var d := Dedup(Flat(TimestampsOf(t)));
    var axis := Sort(d);
    forall x
      ensures x in axis <==> exists i :: 0 <= i < |t| && x in t[i].series.ts
    {
      assert x in axis <==> x in multiset(axis);
      assert x in d <==> x in multiset(d);
      assert (exists i :: 0 <= i < |t| && x in TimestampsOf(t)[i])
         <==> (exists i :: 0 <= i < |t| && x in t[i].series.ts);
    }
  }

  /** Every input key comes back once, in the same order, each mapped to the
      shared axis and to a value array as long as the axis. */
  lemma FillShape(t: Table)
    ensures var r := FillSpec(t);
      && Keys(r) == Keys(t)
      && (forall i :: 0 <= i < |r| ==> r[i].series.ts == Axis(t) && |r[i].series.vals| == |Axis(t)|)
      && (WellKeyed(t) ==> WellKeyed(r))
  {
  }

  /** The value rule of the source, stated on the returned object. */
  lemma FillValueRule(t: Table, i: nat, k: nat)
    requires i < |t| && k < |Axis(t)|
    ensures var s := t[i].series; var axis := Axis(t);
      var v := FillSpec(t)[i].series.vals;
      v[k] == if axis[k] in s.ts then ValueAt(s.vals, IndexOf(s.ts, axis[k]))
              else if k == 0 then Undefined
              else v[k - 1]
  {
    FilledAt(t[i].series.ts, t[i].series.vals, Axis(t), k);
  }

  lemma {:induction false} FilledOwnAxisPrefix(ts: seq<Stamp>, vals: seq<Value>, k: nat)
    requires Distinct(ts) && |vals| == |ts| && k <= |ts|
    ensures Filled(ts, vals, ts[..k]) == vals[..k]
  {
    if k > 0 {
      FilledOwnAxisPrefix(ts, vals, k - 1);
      FilledStep(ts, vals, ts, k - 1);
      IndexOfDistinct(ts, k - 1);
      assert vals[..k] == vals[..k - 1] + [vals[k - 1]];
    }
  }

  /** A series whose timestamps are the axis itself keeps its values. */
  lemma FilledOwnAxis(ts: seq<Stamp>, vals: seq<Value>)
    requires Distinct(ts) && |vals| == |ts|
    ensures Filled(ts, vals, ts) == vals
  {
    FilledOwnAxisPrefix(ts, vals, |ts|);
    assert ts[..|ts|] == ts && vals[..|vals|] == vals;
  }

  /** When every series already lies on one deduplicated, sorted axis with
      one value per timestamp, every lookup hits and nothing changes. */
  lemma FillOnSharedAxis(t: Table, axis: seq<Stamp>)
    requires Distinct(axis) && SortedStamps(axis)
    requires forall i :: 0 <= i < |t| ==> t[i].series.ts == axis && |t[i].series.vals| == |axis|
    ensures FillSpec(t) == t
  {
    if |t| > 0 {
      var ss := TimestampsOf(t);
      assert Flat(ss) == axis + Flat(ss[1..]);
      forall x | x in Flat(ss[1..])
        ensures x in axis
      {
        var i :| 0 <= i < |ss[1..]| && x in ss[1..][i];
        assert ss[1..][i] == t[i + 1].series.ts;
      }
      DedupAbsorbs(axis, Flat(ss[1..]));
      SortOfSorted(axis);
      assert Axis(t) == axis;
      forall i | 0 <= i < |t|
        ensures FillSpec(t)[i] == t[i]
      {
        FilledOwnAxis(axis, t[i].series.vals);
      }
    }
  }

  /** Filling an already filled object gives it back unchanged. */
  lemma FillIdempotent(t: Table)
    ensures FillSpec(FillSpec(t)) == FillSpec(t)
  {
    AxisIsUnion(t);
    FillOnSharedAxis(FillSpec(t), Axis(t));
  }

  /** Every timestamp is defined, non-negative and has `width` digits. */
  predicate SameWidthStamps(t: Table, width: nat) {
    forall i, x :: 0 <= i < |t| && x in t[i].series.ts ==>
      x.Ts? && x.t >= 0 && |NatStr(x.t)| == width
  }

  predicate StampsIncrease(a: Stamp, b: Stamp) {
    a.Ts? && b.Ts? && a.t < b.t
  }

  /** Every timestamp is defined and they increase numerically. */
  predicate StrictlyIncreasing(s: seq<Stamp>) {
    forall i, j :: 0 <= i < j < |s| ==> StampsIncrease(s[i], s[j])
  }

  /** String order agrees with numeric order when all timestamps have the
      same number of digits: the axis is then strictly increasing. */
  lemma AxisIncreasingWhenSameWidth(t: Table, width: nat)
    requires SameWidthStamps(t, width)
    ensures StrictlyIncreasing(Axis(t))
  {
    var axis := Axis(t);
    AxisIsUnion(t);
    forall i, j | 0 <= i < j < |axis|
      ensures StampsIncrease(axis[i], axis[j])
    {
      assert axis[i] in axis && axis[j] in axis;
      var ki :| 0 <= ki < |t| && axis[i] in t[ki].series.ts;
      var kj :| 0 <= kj < |t| && axis[j] in t[kj].series.ts;
      StampPairIncreasing(axis[i], axis[j], width);
    }
  }

  lemma StampPairIncreasing(a: Stamp, b: Stamp, width: nat)
    requires a.Ts? && a.t >= 0 && |NatStr(a.t)| == width
    requires b.Ts? && b.t >= 0 && |NatStr(b.t)| == width
    requires !StampLess(b, a) && a != b
    ensures a.t < b.t
  {
    assert IntStr(a.t) == NatStr(a.t) && IntStr(b.t) == NatStr(b.t);
    SameWidthOrder(b.t, a.t);
  }

  /** Series "a" at timestamps 0 and 10 and "b" at 5: the string order of
      the default sort puts their axis out of numeric order. */
  function ExampleTable(): Table {
    [Entry("a", Series([Ts(0), Ts(10)], [Finite(1.0), Finite(2.0)])),
     Entry("b", Series([Ts(5)], [Finite(9.0)]))]
  }

  lemma ExampleStrings()
    ensures IntStr(0) == "0" && IntStr(5) == "5" && IntStr(10) == "10"
  {
    assert NatStr(1) == "1";
  }

  /** Under string order 5 sorts after 10 and 10 after 0. */
  lemma ExampleSort()
    ensures Sort([Ts(0), Ts(10), Ts(5)]) == [Ts(0), Ts(10), Ts(5)]
  {
    ExampleOrder();
    var a := [Ts(0), Ts(10), Ts(5)];
    SortStep([Ts(5)]);
    assert [Ts(5)][1..] == [];
    SortStep([Ts(10), Ts(5)]);
    assert [Ts(10), Ts(5)][1..] == [Ts(5)];
    assert Sort([Ts(10), Ts(5)]) == [Ts(10), Ts(5)];
    SortStep(a);
    assert a[1..] == [Ts(10), Ts(5)];
  }

  lemma ExampleOrder()
    ensures !StampLess(Ts(5), Ts(10)) && !StampLess(Ts(10), Ts(0))
  {
    ExampleStrings();
  }

  /** One step of the insertion sort. */
  lemma SortStep(s: seq<Stamp>)
    requires |s| > 0
    ensures Sort(s) == Insert(s[0], Sort(s[1..]))
  {
  }

  lemma ExampleDedup()
    ensures Dedup([Ts(0), Ts(10), Ts(5)]) == [Ts(0), Ts(10), Ts(5)]
  {
    var d := [Ts(0), Ts(10), Ts(5)];
    assert d[..1] == [Ts(0)] && d[..2] == [Ts(0), Ts(10)];
    assert Dedup(d[..1]) == [Ts(0)];
    assert Dedup(d[..2]) == [Ts(0), Ts(10)];
  }

  lemma ExampleFlat()
    ensures Flat(TimestampsOf(ExampleTable())) == [Ts(0), Ts(10), Ts(5)]
  {
    var ss := TimestampsOf(ExampleTable());
    assert ss == [[Ts(0), Ts(10)], [Ts(5)]];
    assert ss[1..] == [[Ts(5)]] && ss[1..][1..] == [];
    assert Flat(ss[1..]) == [Ts(5)];
  }

  /** Without a comparator the axis is sorted as strings: timestamps 0, 10
      and 5 come out as 0, 10, 5. */
  lemma ExampleAxisInStringOrder()
    ensures Axis(ExampleTable()) == [Ts(0), Ts(10), Ts(5)]
  {
    ExampleFlat();
    ExampleDedup();
    ExampleSort();
  }

  lemma FillSpecAt(t: Table, i: nat)
    requires i < |t|
    ensures FillSpec(t)[i] == FillEntry(t[i], Axis(t))
  {
  }

  lemma ExampleFilled()
    ensures Filled([Ts(0), Ts(10)], [Finite(1.0), Finite(2.0)], [Ts(0), Ts(10), Ts(5)])
         == [Finite(1.0), Finite(2.0), Finite(2.0)]
    ensures Filled([Ts(5)], [Finite(9.0)], [Ts(0), Ts(10), Ts(5)])
         == [Undefined, Undefined, Finite(9.0)]
  {
    var axis := [Ts(0), Ts(10), Ts(5)];
    var a := Filled([Ts(0), Ts(10)], [Finite(1.0), Finite(2.0)], axis);
    var b := Filled([Ts(5)], [Finite(9.0)], axis);
    FilledAt([Ts(0), Ts(10)], [Finite(1.0), Finite(2.0)], axis, 0);
    FilledAt([Ts(0), Ts(10)], [Finite(1.0), Finite(2.0)], axis, 1);
    FilledAt([Ts(0), Ts(10)], [Finite(1.0), Finite(2.0)], axis, 2);
    FilledAt([Ts(5)], [Finite(9.0)], axis, 0);
    FilledAt([Ts(5)], [Finite(9.0)], axis, 1);
    FilledAt([Ts(5)], [Finite(9.0)], axis, 2);
    assert a == [a[0], a[1], a[2]] && b == [b[0], b[1], b[2]];
  }

  /** On that axis the value rule forward-fills "a" and leaves "b"
      undefined until its first timestamp. */
  lemma FillStringOrderExample()
    ensures FillSpec(ExampleTable())[0].series.vals == [Finite(1.0), Finite(2.0), Finite(2.0)]
    ensures FillSpec(ExampleTable())[1].series.vals == [Undefined, Undefined, Finite(9.0)]
  {
    ExampleAxisInStringOrder();
    FillSpecAt(ExampleTable(), 0);
    FillSpecAt(ExampleTable(), 1);
    ExampleFilled();
  }
}
