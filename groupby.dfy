/** `is_sorted` and `np_group_by` (src/utils.py): reduce the values of a
    table column per `machine_id`, one result per distinct id in ascending
    id order. The table is sorted by id first unless it already is; the
    group boundaries are where the sorted ids change, and `ufunc.reduceat`
    folds each group. */
module GroupBy {
  import opened Wrappers
  import opened Seqs

  /** `np.all(arr[:-1] <= arr[1:])`: every element is at most its successor. */
  function IsSorted(a: seq<int>): (b: bool)
    ensures b <==> forall i, j :: 0 <= i <= j < |a| ==> a[i] <= a[j]
  {
    if |a| <= 1 then true
    else
      var rest := IsSorted(a[1..]);
      assert rest <==> forall i, j :: 1 <= i <= j < |a| ==> a[i] <= a[j] by {
        assert forall i :: 0 <= i < |a| - 1 ==> a[1..][i] == a[i + 1];
      }
      a[0] <= a[1] && rest
  }

  /** One table row: the machine id and the value of the target column. */
  type Row<V> = (int, V)

  function Zip<V>(ids: seq<int>, vals: seq<V>): (ps: seq<Row<V>>)
    requires |ids| == |vals|
    ensures |ps| == |ids|
    ensures forall i :: 0 <= i < |ids| ==> ps[i] == (ids[i], vals[i])
  {
    seq(|ids|, i requires 0 <= i < |ids| => (ids[i], vals[i]))
  }

  function IdsOf<V>(ps: seq<Row<V>>): (ids: seq<int>)
    ensures |ids| == |ps|
    ensures forall i :: 0 <= i < |ps| ==> ids[i] == ps[i].0
  {
    seq(|ps|, i requires 0 <= i < |ps| => ps[i].0)
  }

  function ValsOf<V>(ps: seq<Row<V>>): (vals: seq<V>)
    ensures |vals| == |ps|
    ensures forall i :: 0 <= i < |ps| ==> vals[i] == ps[i].1
  {
    seq(|ps|, i requires 0 <= i < |ps| => ps[i].1)
  }

  /** The values of the rows with id `x`, in row order. */
  function Group<V>(ps: seq<Row<V>>, x: int): seq<V> {
    if |ps| == 0 then []
    else (if ps[0].0 == x then [ps[0].1] else []) + Group(ps[1..], x)
  }

  /** Insert a row before the first row whose id is not smaller. */
  function InsertRow<V>(p: Row<V>, ps: seq<Row<V>>): (r: seq<Row<V>>)
    ensures |r| == |ps| + 1
  {
    if |ps| == 0 then [p]
    else if ps[0].0 >= p.0 then [p] + ps
    else [ps[0]] + InsertRow(p, ps[1..])
  }

  /** Sorting the rows by id, keeping rows with equal ids in their order. */
  function SortRows<V>(ps: seq<Row<V>>): (r: seq<Row<V>>)
    ensures |r| == |ps|
  {
    if |ps| == 0 then [] else InsertRow(ps[0], SortRows(ps[1..]))
  }

  /** `np.diff(a).nonzero()[0] + 1`, from position `i` on: the positions
      whose id differs from the one before. */
  function ChangePoints(a: seq<int>, i: nat): (r: seq<nat>)
    ensures forall k :: 0 <= k < |r| ==> i < r[k] < |a| && a[r[k] - 1] != a[r[k]]
    ensures forall k, l :: 0 <= k < l < |r| ==> r[k] < r[l]
    ensures forall j :: i < j < |a| && a[j - 1] != a[j] ==> j in r
    decreases |a| - i
  {
    if i + 1 >= |a| then []
    else (if a[i] != a[i + 1] then [i + 1] else []) + ChangePoints(a, i + 1)
  }

  /** `np.hstack([0, slice_idx])`: where each group starts. */
  function Starts(a: seq<int>): (s: seq<nat>)
    requires |a| > 0
    ensures |s| >= 1 && s[0] == 0
    ensures forall k :: 0 <= k < |s| ==> s[k] < |a|
    ensures forall k, l :: 0 <= k < l < |s| ==> s[k] < s[l]
  {
    [0] + ChangePoints(a, 0)
  }

  predicate ValidStarts(s: seq<nat>, n: nat) {
    && |s| >= 1 && s[0] == 0
    && (forall k :: 0 <= k < |s| ==> s[k] < n)
    && (forall k, l :: 0 <= k < l < |s| ==> s[k] < s[l])
  }

  /** Where group `k` ends: the next start, or the end of the array. */
  function SegEnd(s: seq<nat>, k: nat, n: nat): nat
    requires k < |s|
  {
    if k + 1 < |s| then s[k + 1] else n
  }

  /** The reduction of a non-empty slice by a ufunc, left to right. */
  function Fold1<V>(f: (V, V) -> V, s: seq<V>): V
    requires |s| > 0
  {
    if |s| == 1 then s[0] else f(Fold1(f, s[..|s| - 1]), s[|s| - 1])
  }

  /** `ufunc.reduceat(vals, s)` for strictly increasing indices starting at 0. */
  function ReduceAt<V>(f: (V, V) -> V, vals: seq<V>, s: seq<nat>): (r: seq<V>)
    requires ValidStarts(s, |vals|)
    ensures |r| == |s|
  {
    seq(|s|, k requires 0 <= k < |s| => Fold1(f, vals[s[k]..SegEnd(s, k, |vals|)]))
  }

  /** `reduceat` on an empty array rejects index 0. */
  datatype NpError = IndexError

  /** The rows as `np_group_by` sees them after the optional sort. */
  function Arranged<V>(ids: seq<int>, vals: seq<V>): (ps: seq<Row<V>>)
    requires |ids| == |vals|
    ensures |ps| == |ids|
  {
    if IsSorted(ids) then Zip(ids, vals) else SortRows(Zip(ids, vals))
  }

  function NpGroupBy<V>(ids: seq<int>, vals: seq<V>, f: (V, V) -> V): (r: Result<seq<V>, NpError>)
    requires |ids| == |vals|
    ensures r.Err? <==> |ids| == 0
    ensures r.Ok? ==> |r.value| >= 1
  {
    if |ids| == 0 then Err(IndexError)
    else
      var ps := Arranged(ids, vals);
      Ok(ReduceAt(f, ValsOf(ps), Starts(IdsOf(ps))))
  }

  /** `machine_ids[slice_idx]`: the id of each group. */
  function GroupIds<V>(ids: seq<int>, vals: seq<V>): seq<int>
    requires |ids| == |vals| && |ids| > 0
  {
    var a := IdsOf(Arranged(ids, vals));
    var s := Starts(a);
    seq(|s|, k requires 0 <= k < |s| => a[s[k]])
  }

  // ---- stability of the sort ----

  lemma {:induction false} GroupInsert<V>(p: Row<V>, ps: seq<Row<V>>, x: int)
    ensures Group(InsertRow(p, ps), x) == (if p.0 == x then [p.1] else []) + Group(ps, x)
  {
    if |ps| == 0 {
    } else if ps[0].0 >= p.0 {
      GroupCons(p, ps, x);
    } else {
      var rest := InsertRow(p, ps[1..]);
      var g := Group(ps[1..], x);
      GroupInsert(p, ps[1..], x);
      GroupCons(ps[0], rest, x);
      assert ps == [ps[0]] + ps[1..];
      GroupCons(ps[0], ps[1..], x);
      if ps[0].0 == x {
        assert Group(ps, x) == [ps[0].1] + g;
        assert Group(rest, x) == g;
      } else {
        assert Group(ps, x) == g;
      }
    }
  }

  /** The group of a table with one more row in front. */
  lemma GroupCons<V>(p: Row<V>, ps: seq<Row<V>>, x: int)
    ensures Group([p] + ps, x) == (if p.0 == x then [p.1] else []) + Group(ps, x)
  {
    assert ([p] + ps)[1..] == ps;
  }

  /** Sorting keeps, for every id, its values in their original order. */
  lemma {:induction false} GroupSortRows<V>(ps: seq<Row<V>>, x: int)
    ensures Group(SortRows(ps), x) == Group(ps, x)
  {
    if |ps| > 0 {
      GroupSortRows(ps[1..], x);
      GroupInsert(ps[0], SortRows(ps[1..]), x);
    }
  }

  lemma {:induction false} InsertRowSorted<V>(p: Row<V>, ps: seq<Row<V>>)
    requires IsSorted(IdsOf(ps))
    ensures IsSorted(IdsOf(InsertRow(p, ps)))
  {
    var r := InsertRow(p, ps);
    if |ps| == 0 {
      assert IdsOf(r) == [p.0];
    } else if ps[0].0 >= p.0 {
      assert IdsOf(r) == [p.0] + IdsOf(ps);
      SortedCons(p.0, IdsOf(ps));
    } else {
      assert IdsOf(ps[1..]) == IdsOf(ps)[1..];
      InsertRowSorted(p, ps[1..]);
      var r' := InsertRow(p, ps[1..]);
      InsertRowHead(p, ps[1..]);
      assert |ps| > 1 ==> IdsOf(ps)[0] <= IdsOf(ps)[1];
      assert IdsOf(r) == [ps[0].0] + IdsOf(r');
      SortedCons(ps[0].0, IdsOf(r'));
    }
  }

  /** A sorted array stays sorted with an element in front that is at most
      its first element. */
  lemma SortedCons(x: int, a: seq<int>)
    requires IsSorted(a) && (|a| == 0 || x <= a[0])
    ensures IsSorted([x] + a)
  {
    var b := [x] + a;
    forall i, j | 0 <= i <= j < |b|
      ensures b[i] <= b[j]
    {
      if i > 0 {
        assert b[i] == a[i - 1] && b[j] == a[j - 1];
      } else if j > 0 {
        assert b[j] == a[j - 1];
      }
    }
  }

  /** Every row of an insertion result comes from the inserted row or the
      rows it was inserted into; in particular its first id is one of those. */
  lemma {:induction false} InsertRowHead<V>(p: Row<V>, ps: seq<Row<V>>)
    ensures InsertRow(p, ps)[0] == p || (|ps| > 0 && InsertRow(p, ps)[0] == ps[0])
  {
  }

  lemma {:induction false} SortRowsSorted<V>(ps: seq<Row<V>>)
    ensures IsSorted(IdsOf(SortRows(ps)))
  {
    if |ps| > 0 {
      SortRowsSorted(ps[1..]);
      InsertRowSorted(ps[0], SortRows(ps[1..]));
    }
  }

  lemma ArrangedFacts<V>(ids: seq<int>, vals: seq<V>)
    requires |ids| == |vals|
    ensures IsSorted(IdsOf(Arranged(ids, vals)))
    ensures forall x :: Group(Arranged(ids, vals), x) == Group(Zip(ids, vals), x)
  {
    if IsSorted(ids) {
      assert IdsOf(Zip(ids, vals)) == ids;
    } else {
      SortRowsSorted(Zip(ids, vals));
      forall x
        ensures Group(Arranged(ids, vals), x) == Group(Zip(ids, vals), x)
      {
        GroupSortRows(Zip(ids, vals), x);
      }
    }
  }

  // ---- groups of a sorted array ----

  lemma {:induction false} GroupConcat<V>(a: seq<Row<V>>, b: seq<Row<V>>, x: int)
    ensures Group(a + b, x) == Group(a, x) + Group(b, x)
  {
    if |a| == 0 {
      assert a + b == b;
    } else {
      GroupConcat(a[1..], b, x);
      assert a + b == [a[0]] + (a[1..] + b);
      assert a == [a[0]] + a[1..];
      GroupCons(a[0], a[1..] + b, x);
      GroupCons(a[0], a[1..], x);
      var h := if a[0].0 == x then [a[0].1] else [];
      ConcatAssoc(h, Group(a[1..], x), Group(b, x));
    }
  }

  lemma {:induction false} GroupNone<V>(ps: seq<Row<V>>, x: int)
    requires forall i :: 0 <= i < |ps| ==> ps[i].0 != x
    ensures Group(ps, x) == []
  {
    if |ps| > 0 {
      GroupNone(ps[1..], x);
    }
  }

  lemma {:induction false} GroupAll<V>(ps: seq<Row<V>>, x: int)
    requires forall i :: 0 <= i < |ps| ==> ps[i].0 == x
    ensures Group(ps, x) == ValsOf(ps)
  {
    if |ps| > 0 {
      GroupAll(ps[1..], x);
      assert ValsOf(ps) == [ps[0].1] + ValsOf(ps[1..]);
    }
  }

  /** An id occurs in the rows exactly when its group is not empty. */
  lemma {:induction false} GroupNonEmpty<V>(ps: seq<Row<V>>, x: int)
    ensures |Group(ps, x)| > 0 <==> x in IdsOf(ps)
  {
    if |ps| > 0 {
      GroupNonEmpty(ps[1..], x);
      assert IdsOf(ps) == [ps[0].0] + IdsOf(ps[1..]);
    }
  }

  /** Within group `k` every id equals the group's first id. */
  lemma SegmentConstant(a: seq<int>, k: nat, j: nat)
    requires |a| > 0 && k < |Starts(a)|
    requires Starts(a)[k] <= j < SegEnd(Starts(a), k, |a|)
    ensures a[j] == a[Starts(a)[k]]
  {
    StartsCover(a);
    SegmentConstantFrom(a, Starts(a), k, j);
  }

  /** Every position whose id differs from the one before starts a group. */
  lemma StartsCover(a: seq<int>)
    requires |a| > 0
    ensures forall j :: 0 < j < |a| && a[j - 1] != a[j] ==> j in Starts(a)
  {
    var s := Starts(a);
    forall j | 0 < j < |a| && a[j - 1] != a[j]
      ensures j in s
    {
      assert j in ChangePoints(a, 0);
      var m :| 0 <= m < |ChangePoints(a, 0)| && ChangePoints(a, 0)[m] == j;
      assert s[m + 1] == j;
    }
  }

  lemma {:induction false} SegmentConstantFrom(a: seq<int>, s: seq<nat>, k: nat, j: nat)
    requires ValidStarts(s, |a|)
    requires forall j :: 0 < j < |a| && a[j - 1] != a[j] ==> j in s
    requires k < |s| && s[k] <= j < SegEnd(s, k, |a|)
    ensures a[j] == a[s[k]]
    decreases j
  {
    if j > s[k] {
      SegmentConstantFrom(a, s, k, j - 1);
      forall l | 0 <= l < |s|
        ensures s[l] != j
      {
        if l > k {
          assert s[k + 1] <= s[l];
        }
      }
    }
  }

  /** Each index lies in some group. */
  lemma {:induction false} SegmentOf(s: seq<nat>, n: nat, j: nat, k: nat) returns (g: nat)
    requires ValidStarts(s, n) && j < n && k < |s| && s[k] <= j
    ensures g < |s| && s[g] <= j < SegEnd(s, g, n)
    decreases |s| - k
  {
    if j < SegEnd(s, k, n) {
      g := k;
    } else {
      g := SegmentOf(s, n, j, k + 1);
    }
  }

  /** In a sorted array the group ids strictly increase. */
  lemma GroupIdsIncrease(a: seq<int>, k: nat, l: nat)
    requires |a| > 0 && IsSorted(a) && k < l < |Starts(a)|
    ensures a[Starts(a)[k]] < a[Starts(a)[l]]
  {
    var s := Starts(a);
    var e := s[k + 1];
    SegmentConstant(a, k, e - 1);
    assert s[k + 1] in ChangePoints(a, 0) by {
      assert s[k + 1] == ChangePoints(a, 0)[k];
    }
    assert a[e - 1] != a[e];
  }

  /** In a sorted array every id before group `k` is smaller than its id. */
  lemma BeforeGroup(a: seq<int>, k: nat, i: nat)
    requires |a| > 0 && IsSorted(a) && k < |Starts(a)| && i < Starts(a)[k]
    ensures a[i] < a[Starts(a)[k]]
  {
    var s := Starts(a);
    SegmentConstant(a, k - 1, s[k] - 1);
    GroupIdsIncrease(a, k - 1, k);
    assert a[i] <= a[s[k] - 1];
  }

  /** In a sorted array every id after group `k` is larger than its id. */
  lemma AfterGroup(a: seq<int>, k: nat, i: nat)
    requires |a| > 0 && IsSorted(a) && k < |Starts(a)|
    requires SegEnd(Starts(a), k, |a|) <= i < |a|
    ensures a[Starts(a)[k]] < a[i]
  {
    var s := Starts(a);
    GroupIdsIncrease(a, k, k + 1);
    assert a[s[k + 1]] <= a[i];
  }

  /** When the rows with id `x` are exactly those in `[b, e)`, the group of
      `x` is that slice of values. */
  lemma GroupIsSlice<V>(ps: seq<Row<V>>, x: int, b: nat, e: nat)
    requires b <= e <= |ps|
    requires forall i :: 0 <= i < b ==> ps[i].0 != x
    requires forall i :: b <= i < e ==> ps[i].0 == x
    requires forall i :: e <= i < |ps| ==> ps[i].0 != x
    ensures Group(ps, x) == ValsOf(ps)[b..e]
  {
    var front, middle, back := ps[0..b], ps[b..e], ps[e..|ps|];
    assert ps == (front + middle) + back;
    GroupConcat(front + middle, back, x);
    GroupConcat(front, middle, x);
    GroupSliceNone(ps, x, 0, b);
    GroupSliceAll(ps, x, b, e);
    GroupSliceNone(ps, x, e, |ps|);
  }

  lemma GroupSliceNone<V>(ps: seq<Row<V>>, x: int, lo: nat, hi: nat)
    requires lo <= hi <= |ps|
    requires forall i :: lo <= i < hi ==> ps[i].0 != x
    ensures Group(ps[lo..hi], x) == []
  {
    var part := ps[lo..hi];
    assert forall i :: 0 <= i < |part| ==> part[i] == ps[lo + i];
    GroupNone(part, x);
  }

  lemma GroupSliceAll<V>(ps: seq<Row<V>>, x: int, lo: nat, hi: nat)
    requires lo <= hi <= |ps|
    requires forall i :: lo <= i < hi ==> ps[i].0 == x
    ensures Group(ps[lo..hi], x) == ValsOf(ps)[lo..hi]
  {
    var part := ps[lo..hi];
    assert forall i :: 0 <= i < |part| ==> part[i] == ps[lo + i];
    GroupAll(part, x);
    assert ValsOf(part) == ValsOf(ps)[lo..hi];
  }

  /** In a sorted array the rows of group `k` are exactly the rows whose id
      is that group's id. */
  lemma SortedGroupSlice<V>(ps: seq<Row<V>>, k: nat)
    requires |ps| > 0 && IsSorted(IdsOf(ps)) && k < |Starts(IdsOf(ps))|
    ensures var a := IdsOf(ps); var s := Starts(a);
      Group(ps, a[s[k]]) == ValsOf(ps)[s[k]..SegEnd(s, k, |ps|)]
  {
    var a := IdsOf(ps);
    var s := Starts(a);
    var b, e := s[k], SegEnd(s, k, |ps|);
    var x := a[b];
    forall i | 0 <= i < b
      ensures ps[i].0 != x
    {
      BeforeGroup(a, k, i);
    }
    forall i | b <= i < e
      ensures ps[i].0 == x
    {
      SegmentConstant(a, k, i);
    }
    forall i | e <= i < |ps|
      ensures ps[i].0 != x
    {
      AfterGroup(a, k, i);
    }
    GroupIsSlice(ps, x, b, e);
  }

  /** What `np_group_by` returns: on a non-empty table, one value per
      distinct id, in ascending id order, each the reduction of that id's
      values in row order; on an empty table, the reduceat error. */
  lemma NpGroupByMeaning<V>(ids: seq<int>, vals: seq<V>, f: (V, V) -> V)
    requires |ids| == |vals|
    ensures |ids| == 0 <==> NpGroupBy(ids, vals, f).Err?
    ensures |ids| > 0 ==>
      var g := GroupIds(ids, vals);
      var r := NpGroupBy(ids, vals, f).value;
      && (forall k, l :: 0 <= k < l < |g| ==> g[k] < g[l])
      && (forall x :: x in g <==> x in ids)
      && |r| == |g|
      && (forall k :: 0 <= k < |g| ==> |Group(Zip(ids, vals), g[k])| > 0)
      && (forall k :: 0 <= k < |g| ==> r[k] == Fold1(f, Group(Zip(ids, vals), g[k])))
  {
    if |ids| > 0 {
      GroupIdsSorted(ids, vals);
      GroupIdsCover(ids, vals);
      GroupReductions(ids, vals, f);
    }
  }

  lemma GroupIdsSorted<V>(ids: seq<int>, vals: seq<V>)
    requires |ids| == |vals| && |ids| > 0
    ensures var g := GroupIds(ids, vals);
      forall k, l :: 0 <= k < l < |g| ==> g[k] < g[l]
  {
    var a := IdsOf(Arranged(ids, vals));
    var g := GroupIds(ids, vals);
    ArrangedFacts(ids, vals);
    forall k, l | 0 <= k < l < |g|
      ensures g[k] < g[l]
    {
      GroupIdsIncrease(a, k, l);
    }
  }

  lemma GroupIdsCover<V>(ids: seq<int>, vals: seq<V>)
    requires |ids| == |vals| && |ids| > 0
    ensures var g := GroupIds(ids, vals);
      forall x :: x in g <==> x in ids
  {
    forall x
      ensures x in GroupIds(ids, vals) <==> x in ids
    {
      ArrangedIdsSame(ids, vals, x);
      GroupIdsOf(IdsOf(Arranged(ids, vals)), ids, vals, x);
    }
  }

  /** Arranging keeps the set of ids. */
  lemma ArrangedIdsSame<V>(ids: seq<int>, vals: seq<V>, x: int)
    requires |ids| == |vals|
    ensures x in IdsOf(Arranged(ids, vals)) <==> x in ids
  {
    var ps := Arranged(ids, vals);
    ArrangedFacts(ids, vals);
    assert Group(ps, x) == Group(Zip(ids, vals), x);
    GroupNonEmpty(ps, x);
    GroupNonEmpty(Zip(ids, vals), x);
    assert IdsOf(Zip(ids, vals)) == ids;
  }

  /** An id is one of the group ids exactly when it occurs in the arranged ids. */
  lemma GroupIdsOf<V>(a: seq<int>, ids: seq<int>, vals: seq<V>, x: int)
    requires |ids| == |vals| && |ids| > 0 && a == IdsOf(Arranged(ids, vals))
    ensures x in GroupIds(ids, vals) <==> x in a
  {
    var s := Starts(a);
    var g := GroupIds(ids, vals);
    if x in g {
      var k :| 0 <= k < |g| && g[k] == x;
      assert a[s[k]] == x;
    }
    if x in a {
      var j :| 0 <= j < |a| && a[j] == x;
      var k := SegmentOf(s, |a|, j, 0);
      SegmentConstant(a, k, j);
      assert g[k] == x;
    }
  }

  lemma GroupReductions<V>(ids: seq<int>, vals: seq<V>, f: (V, V) -> V)
    requires |ids| == |vals| && |ids| > 0
    ensures var g := GroupIds(ids, vals);
      var r := NpGroupBy(ids, vals, f).value;
      && |r| == |g|
      && (forall k :: 0 <= k < |g| ==> |Group(Zip(ids, vals), g[k])| > 0)
      && (forall k :: 0 <= k < |g| ==> r[k] == Fold1(f, Group(Zip(ids, vals), g[k])))
  {
    var g := GroupIds(ids, vals);
    forall k | 0 <= k < |g|
      ensures |Group(Zip(ids, vals), g[k])| > 0
      ensures NpGroupBy(ids, vals, f).value[k] == Fold1(f, Group(Zip(ids, vals), g[k]))
    {
      GroupReductionAt(ids, vals, f, k);
    }
  }

  lemma GroupReductionAt<V>(ids: seq<int>, vals: seq<V>, f: (V, V) -> V, k: nat)
    requires |ids| == |vals| && |ids| > 0 && k < |GroupIds(ids, vals)|
    ensures |NpGroupBy(ids, vals, f).value| == |GroupIds(ids, vals)|
    ensures var g := GroupIds(ids, vals);
      && |Group(Zip(ids, vals), g[k])| > 0
      && NpGroupBy(ids, vals, f).value[k] == Fold1(f, Group(Zip(ids, vals), g[k]))
  {
    var ps := Arranged(ids, vals);
    var a := IdsOf(ps);
    var s := Starts(a);
    assert NpGroupBy(ids, vals, f) == Ok(ReduceAt(f, ValsOf(ps), s));
    assert GroupIds(ids, vals)[k] == a[s[k]];
    ArrangedFacts(ids, vals);
    assert Group(ps, a[s[k]]) == Group(Zip(ids, vals), a[s[k]]);
    ReductionOfSorted(ps, f, k);
  }

  /** On sorted rows, `reduceat` at group `k` folds exactly the values of
      that group's id, and there is at least one. */
  lemma ReductionOfSorted<V>(ps: seq<Row<V>>, f: (V, V) -> V, k: nat)
    requires |ps| > 0 && IsSorted(IdsOf(ps)) && k < |Starts(IdsOf(ps))|
    ensures var a := IdsOf(ps); var s := Starts(a);
      && |Group(ps, a[s[k]])| > 0
      && ReduceAt(f, ValsOf(ps), s)[k] == Fold1(f, Group(ps, a[s[k]]))
  {
    var a := IdsOf(ps);
    var s := Starts(a);
    SortedGroupSlice(ps, k);
    assert s[k] < SegEnd(s, k, |ps|);
  }

  function Add(x: int, y: int): int {
    x + y
  }

  /** The example table of `NpGroupBySumExample`, arranged by id. */
  lemma ExampleArranged()
    ensures Arranged([2, 1, 2], [10, 20, 30]) == [(1, 20), (2, 10), (2, 30)]
  {
    var ids, vals := [2, 1, 2], [10, 20, 30];
    var z := Zip(ids, vals);
    assert z == [(2, 10), (1, 20), (2, 30)];
    assert !IsSorted(ids) by {
      assert ids[0] > ids[1];
    }
    var tail := [(1, 20), (2, 30)];
    assert z[1..] == tail;
    assert tail[1..] == [(2, 30)];
    assert SortRows([(2, 30)]) == [(2, 30)];
    assert SortRows(tail) == tail;
    assert InsertRow((2, 10), tail) == [(1, 20), (2, 10), (2, 30)] by {
      assert InsertRow((2, 10), [(2, 30)]) == [(2, 10), (2, 30)];
    }
  }

  lemma ExampleStarts()
    ensures Starts([1, 2, 2]) == [0, 1]
  {
    var a := [1, 2, 2];
    assert ChangePoints(a, 2) == [];
    assert ChangePoints(a, 1) == [];
    assert ChangePoints(a, 0) == [1];
  }

  /** Summing per id (`np.add`): ids 2, 1, 2 with values 10, 20, 30 are
      sorted to ids 1, 2, 2 with values 20, 10, 30, and give 20 for id 1 and
      40 for id 2. */
  lemma NpGroupBySumExample()
    ensures NpGroupBy([2, 1, 2], [10, 20, 30], Add) == Ok([20, 40])
    ensures GroupIds([2, 1, 2], [10, 20, 30]) == [1, 2]
  {
    ExampleArranged();
    ExampleColumns();
    ExampleStarts();
    ExampleReduce();
  }

  lemma ExampleColumns()
    ensures IdsOf([(1, 20), (2, 10), (2, 30)]) == [1, 2, 2]
    ensures ValsOf([(1, 20), (2, 10), (2, 30)]) == [20, 10, 30]
  {
  }

  lemma ExampleReduce()
    ensures ReduceAt(Add, [20, 10, 30], [0, 1]) == [20, 40]
  {
    var v := [20, 10, 30];
    assert v[0..1] == [20];
    assert v[1..3] == [10, 30] && [10, 30][..1] == [10];
    assert Fold1(Add, [10, 30]) == 40;
    var r := ReduceAt(Add, v, [0, 1]);
    assert r[0] == 20 && r[1] == 40;
  }
}
