/** `costPerGPU` (static/script.js): divide the `cost` series by the
    `num_gpus` series in place and delete the `num_gpus` property. */
module CostPerGpu {
  import opened Wrappers
  import opened Seqs
  import opened JsValues

  /** Reading `[1]` of a missing property throws. */
  datatype JsError = TypeError

  /** The series stored under `k`, if the object has that property. */
  function Lookup(t: Table, k: string): (r: Option<Series>)
    ensures r.Some? <==> k in Keys(t)
    ensures r.Some? ==> r.value == t[IndexOf(Keys(t), k)].series
  {
    var i := IndexOf(Keys(t), k);
    if i == -1 then None else Some(t[i].series)
  }

  /** `delete t[k]`: drop the property, keep the order of the others. */
  function Remove(t: Table, k: string): (r: Table)
    ensures |r| <= |t|
  {
    if |t| == 0 then []
    else if t[0].key == k then Remove(t[1..], k)
    else [t[0]] + Remove(t[1..], k)
  }

  /** The keys other than `k`, in their order. */
  function KeysWithout(ks: seq<string>, k: string): (r: seq<string>)
    ensures forall j :: j in r <==> j in ks && j != k
  {
    if |ks| == 0 then []
    else (if ks[0] == k then [] else [ks[0]]) + KeysWithout(ks[1..], k)
  }

  /** `delete t[k]` keeps every other key, in its order. */
  lemma {:induction false} RemoveKeys(t: Table, k: string)
    ensures Keys(Remove(t, k)) == KeysWithout(Keys(t), k)
  {
    if |t| > 0 {
      RemoveKeys(t[1..], k);
      assert Keys(t)[1..] == Keys(t[1..]);
      if t[0].key != k {
        var rest := Remove(t[1..], k);
        assert Keys([t[0]] + rest) == [t[0].key] + Keys(rest);
      }
    }
  }

  /** `cost.map((val, i) => val / num_gpus[i])`. */
  function DivideBy(cost: seq<Value>, gpus: seq<Value>): (r: seq<Value>)
    ensures |r| == |cost|
    ensures forall i :: 0 <= i < |cost| ==> r[i] == Div(cost[i], ValueAt(gpus, i))
  {
    seq(|cost|, i requires 0 <= i < |cost| => Div(cost[i], ValueAt(gpus, i)))
  }

  /** The object after the call, or the error thrown before any change. */
  function CostPerGpuSpec(t: Table): (r: Result<Table, JsError>)
    ensures r.Err? <==> "cost" !in Keys(t) || "num_gpus" !in Keys(t)
  {
    if "cost" !in Keys(t) || "num_gpus" !in Keys(t) then Err(TypeError)
    else
      var c := IndexOf(Keys(t), "cost");
      var cost := t[c].series;
      var gpus := Lookup(t, "num_gpus").value.vals;
      Ok(Remove(t[c := Entry("cost", Series(cost.ts, DivideBy(cost.vals, gpus)))], "num_gpus"))
  }

  /** The series object the dashboard passes around by reference. */
  class TimeseriesObject {
    var entries: Table

    constructor (t: Table)
      ensures entries == t
    {
      entries := t;
    }

    /** Returns the same object after updating it; on a missing property the
        object is unchanged and the error is returned. */
    method CostPerGPU() returns (r: Result<TimeseriesObject, JsError>)
      modifies this
      ensures CostPerGpuSpec(old(entries)).Ok? ==>
        r == Ok(this) && entries == CostPerGpuSpec(old(entries)).value
      ensures CostPerGpuSpec(old(entries)).Err? ==>
        r == Err(TypeError) && entries == old(entries)
    {
      var c := IndexOf(Keys(entries), "cost");
      if c == -1 {
        return Err(TypeError);
      }
      var cost := entries[c].series.vals;
      var numGpus := Lookup(entries, "num_gpus");
      if numGpus.None? {
        return Err(TypeError);
      }
      entries := entries[c := Entry("cost", Series(entries[c].series.ts, DivideBy(cost, numGpus.value.vals)))];
      entries := Remove(entries, "num_gpus");
      r := Ok(this);
    }
  }

  /** The call throws exactly when one of the two properties is missing. */
  lemma CostPerGpuFails(t: Table)
    ensures CostPerGpuSpec(t).Err? <==> "cost" !in Keys(t) || "num_gpus" !in Keys(t)
  {
  }

  /** The entries kept are exactly those with another key. */
  lemma {:induction false} RemoveMembers(t: Table, k: string)
    ensures forall e :: e in Remove(t, k) <==> e in t && e.key != k
  {
    if |t| > 0 {
      RemoveMembers(t[1..], k);
      assert forall e :: e in t <==> e == t[0] || e in t[1..];
    }
  }

  lemma KeyedRemove(t: Table, k: string)
    requires WellKeyed(t)
    ensures WellKeyed(Remove(t, k))
    ensures forall j :: j in Keys(Remove(t, k)) <==> j in Keys(t) && j != k
  {
    var r := Remove(t, k);
    RemoveMembers(t, k);
    forall j
      ensures j in Keys(r) <==> j in Keys(t) && j != k
    {
      if j in Keys(r) {
        var i :| 0 <= i < |r| && Keys(r)[i] == j;
        assert r[i] in r;
      }
      if j in Keys(t) && j != k {
        var i :| 0 <= i < |t| && Keys(t)[i] == j;
        assert t[i] in t;
        assert t[i] in r;
      }
    }
    KeyedRemoveOrder(t, k);
  }

  lemma {:induction false} KeyedRemoveOrder(t: Table, k: string)
    requires WellKeyed(t)
    ensures WellKeyed(Remove(t, k))
  {
    if |t| > 0 {
      KeyedRemoveOrder(t[1..], k);
      var rest := Remove(t[1..], k);
      RemoveMembers(t[1..], k);
      if t[0].key != k {
        forall e | e in rest
          ensures e.key != t[0].key
        {
          var i :| 0 <= i < |t[1..]| && t[1..][i] == e;
          assert t[i + 1] == e;
        }
        var r := [t[0]] + rest;
        forall i, j | 0 <= i < j < |r|
          ensures r[i].key != r[j].key
        {
          if i == 0 {
            assert r[j] in rest;
          } else {
            assert r[i] == rest[i - 1] && r[j] == rest[j - 1];
          }
        }
      }
    }
  }

  /** On success the `num_gpus` property is gone and every other property
      is still there, each once and in its old order. */
  lemma CostPerGpuKeys(t: Table)
    requires WellKeyed(t) && CostPerGpuSpec(t).Ok?
    ensures var r := CostPerGpuSpec(t).value;
      && WellKeyed(r)
      && |r| == |t| - 1
      && Keys(r) == KeysWithout(Keys(t), "num_gpus")
      && forall k :: k in Keys(r) <==> k in Keys(t) && k != "num_gpus"
  {
    var c := IndexOf(Keys(t), "cost");
    var u := t[c := Entry("cost", Series(t[c].series.ts, DivideBy(t[c].series.vals, Lookup(t, "num_gpus").value.vals)))];
    assert Keys(u) == Keys(t);
    KeyedRemove(u, "num_gpus");
    RemoveOneKey(u, "num_gpus");
    RemoveKeys(u, "num_gpus");
  }

  lemma {:induction false} RemoveOneKey(t: Table, k: string)
    requires WellKeyed(t) && k in Keys(t)
    ensures |Remove(t, k)| == |t| - 1
  {
    if t[0].key == k {
      RemoveAbsent(t[1..], k);
    } else {
      assert k in Keys(t[1..]) by {
        var i :| 0 <= i < |t| && Keys(t)[i] == k;
        assert Keys(t[1..])[i - 1] == k;
      }
      RemoveOneKey(t[1..], k);
    }
  }

  lemma {:induction false} RemoveAbsent(t: Table, k: string)
    requires forall i :: 0 <= i < |t| ==> t[i].key != k
    ensures Remove(t, k) == t
  {
    if |t| > 0 {
      RemoveAbsent(t[1..], k);
    }
  }

  /** On success the cost timestamps are unchanged and each cost value is
      divided by the GPU count at the same index (undefined past its end). */
  lemma CostPerGpuCost(t: Table)
    requires WellKeyed(t) && CostPerGpuSpec(t).Ok?
    ensures var r := CostPerGpuSpec(t).value;
      var before := Lookup(t, "cost").value;
      var gpus := Lookup(t, "num_gpus").value;
      && Lookup(r, "cost").Some?
      && Lookup(r, "cost").value.ts == before.ts
      && |Lookup(r, "cost").value.vals| == |before.vals|
      && forall i :: 0 <= i < |before.vals| ==>
           Lookup(r, "cost").value.vals[i] == Div(before.vals[i], ValueAt(gpus.vals, i))
  {
    var c := IndexOf(Keys(t), "cost");
    var u := UpdatedCost(t);
    var r := Remove(u, "num_gpus");
    KeyedRemove(u, "num_gpus");
    RemoveMembers(u, "num_gpus");
    assert u[c] in r;
    KeyedLookup(r, u[c]);
  }

  /** The object between the two statements of `costPerGPU`: `cost` has been
      divided, nothing else has changed yet. */
  lemma UpdatedCost(t: Table) returns (u: Table)
    requires WellKeyed(t) && CostPerGpuSpec(t).Ok?
    ensures var c := IndexOf(Keys(t), "cost");
      && 0 <= c < |t| && |u| == |t| && Keys(u) == Keys(t) && WellKeyed(u)
      && u[c] == Entry("cost", Series(t[c].series.ts, DivideBy(t[c].series.vals, Lookup(t, "num_gpus").value.vals)))
      && (forall i :: 0 <= i < |t| && i != c ==> u[i] == t[i])
      && CostPerGpuSpec(t).value == Remove(u, "num_gpus")
  {
    var c := IndexOf(Keys(t), "cost");
    var e := Entry("cost", Series(t[c].series.ts, DivideBy(t[c].series.vals, Lookup(t, "num_gpus").value.vals)));
    u := t[c := e];
    KeysUpdate(t, c, e);
  }

  /** In an object without repeated keys, looking up an entry's key finds it. */
  lemma KeyedLookup(t: Table, e: Entry)
    requires WellKeyed(t) && e in t
    ensures Lookup(t, e.key) == Some(e.series)
  {
    var i :| 0 <= i < |t| && t[i] == e;
    assert Keys(t)[i] == e.key;
    var j := IndexOf(Keys(t), e.key);
    assert 0 <= j < |t| && t[j].key == t[i].key;
    assert j == i;
  }

  /** On success every property other than `cost` and `num_gpus` keeps its series. */
  lemma CostPerGpuOthers(t: Table, k: string)
    requires WellKeyed(t) && CostPerGpuSpec(t).Ok?
    requires k != "cost" && k != "num_gpus"
    ensures Lookup(CostPerGpuSpec(t).value, k) == Lookup(t, k)
  {
    var u := UpdatedCost(t);
    var r := Remove(u, "num_gpus");
    KeyedRemove(u, "num_gpus");
    if k in Keys(t) {
      var i := IndexOf(Keys(t), k);
      assert Keys(t)[i] == k && Keys(u)[i] == k;
      assert u[i] == t[i];
      RemoveMembers(u, "num_gpus");
      assert u[i] in r;
      KeyedLookup(r, t[i]);
      KeyedLookup(t, t[i]);
    } else {
      assert k !in Keys(r);
    }
  }

  /** Costs 10 and 20 over 2 GPUs and then 0 GPUs give 5 and +Infinity. */
  lemma CostPerGpuExample()
    ensures CostPerGpuSpec([Entry("cost", Series([Ts(0), Ts(1)], [Finite(10.0), Finite(20.0)])),
                            Entry("num_gpus", Series([Ts(0), Ts(1)], [Finite(2.0), Finite(0.0)]))])
         == Ok([Entry("cost", Series([Ts(0), Ts(1)], [Finite(5.0), PosInf]))])
  {
    var t := [Entry("cost", Series([Ts(0), Ts(1)], [Finite(10.0), Finite(20.0)])),
              Entry("num_gpus", Series([Ts(0), Ts(1)], [Finite(2.0), Finite(0.0)]))];
    assert Keys(t) == ["cost", "num_gpus"];
    var d := DivideBy([Finite(10.0), Finite(20.0)], [Finite(2.0), Finite(0.0)]);
    assert d == [Finite(5.0), PosInf];
    var u := t[0 := Entry("cost", Series([Ts(0), Ts(1)], d))];
    assert u[1..] == [t[1]] && u[1..][1..] == [];
    assert Remove(u[1..], "num_gpus") == [];
    assert IndexOf(Keys(t), "cost") == 0;
    assert Lookup(t, "num_gpus").value.vals == [Finite(2.0), Finite(0.0)];
    assert Remove(u, "num_gpus") == [u[0]];
  }

  /** On a four-entry object whose last two properties are `cost` and
      `num_gpus`, the call succeeds and drops the last property. */
  lemma CostPerGpuDropsLast(t: Table)
    requires |t| == 4 && WellKeyed(t) && t[2].key == "cost" && t[3].key == "num_gpus"
    ensures CostPerGpuSpec(t).Ok?
    ensures Keys(CostPerGpuSpec(t).value) == Keys(t)[..3]
  {
    CostAtThird(t);
    var e := Entry("cost", Series(t[2].series.ts, DivideBy(t[2].series.vals, Lookup(t, "num_gpus").value.vals)));
    var u := t[2 := e];
    assert forall i :: 0 <= i < 4 ==> u[i].key == t[i].key;
    RemoveFourth(u);
    KeysUpdate(t, 2, e);
  }

  lemma CostAtThird(t: Table)
    requires |t| == 4 && WellKeyed(t) && t[2].key == "cost" && t[3].key == "num_gpus"
    ensures CostPerGpuSpec(t).Ok?
    ensures CostPerGpuSpec(t).value
         == Remove(t[2 := Entry("cost", Series(t[2].series.ts, DivideBy(t[2].series.vals, Lookup(t, "num_gpus").value.vals)))], "num_gpus")
  {
    var ks := Keys(t);
    assert ks[2] == "cost" && ks[3] == "num_gpus";
    assert t[0].key != t[2].key && t[1].key != t[2].key;
    assert IndexOf(ks, "cost") == 2;
  }

  lemma RemoveFourth(u: Table)
    requires |u| == 4 && WellKeyed(u) && u[3].key == "num_gpus"
    ensures Keys(Remove(u, "num_gpus")) == Keys(u)[..3]
  {
    RemoveLast(u, "num_gpus");
    KeysPrefix(u, 3);
  }

  /** Removing a key held only by the last entry drops that entry. */
  lemma {:induction false} RemoveLast(u: Table, k: string)
    requires |u| > 0 && u[|u| - 1].key == k
    requires forall i :: 0 <= i < |u| - 1 ==> u[i].key != k
    ensures Remove(u, k) == u[..|u| - 1]
  {
    if |u| > 1 {
      RemoveLast(u[1..], k);
      assert u[1..][..|u| - 2] == u[1..|u| - 1];
      assert u[..|u| - 1] == [u[0]] + u[1..|u| - 1];
    }
  }
}
